/** What a restart of the file store finds, over any sequence of writes, purges
    and failed saves. */
module Durability {
  import opened StoreState
  import opened Backend
  import opened FileStore

  /** One call that changes the store, and whether its save succeeds. */
  datatype Try = Write(op: StoreOp, ok: bool) | Purge(source: string, ok: bool)

  function DoOne(s: Store, t: Try): Store {
    match t
    case Write(op, ok) => Do(s, op, ok)
    case Purge(source, ok) => PurgeStore(s, source, ok)
  }

  function DoAll(s: Store, tries: seq<Try>): Store {
    if tries == [] then s else DoOne(DoAll(s, tries[..|tries| - 1]), tries[|tries| - 1])
  }

  /** The call's effect on memory, saved or not. */
  function ApplyOne(st: State, t: Try): State {
    match t
    case Write(op, _) => Apply(st, op)
    case Purge(source, _) => Purged(st, source)
  }

  function ApplyAll(st: State, tries: seq<Try>): State {
    if tries == [] then st else ApplyOne(ApplyAll(st, tries[..|tries| - 1]), tries[|tries| - 1])
  }

  /** The tries are calls on the store, one after the other. */
  lemma TriesAdd(s: Store, tries: seq<Try>, op: StoreOp, source: string, ok: bool)
    ensures DoAll(s, tries + [Write(op, ok)]) == Do(DoAll(s, tries), op, ok)
    ensures DoAll(s, tries + [Purge(source, ok)]) == PurgeStore(DoAll(s, tries), source, ok)
  {
    assert (tries + [Write(op, ok)])[..|tries|] == tries;
    assert (tries + [Purge(source, ok)])[..|tries|] == tries;
  }

  /** The call saves: a purge that finds nothing does not try to. */
  predicate Saves(st: State, t: Try) {
    match t
    case Write(op, ok) => ok && !op.Nothing?
    case Purge(source, ok) => ok && PurgeCount(st, source) > 0
  }

  /** The length of the shortest prefix that ends in the last save that
      succeeded; zero when none did. */
  function LastSave(st: State, tries: seq<Try>): (n: nat)
    ensures n <= |tries|
  {
    if tries == [] then 0
    else
      var before := tries[..|tries| - 1];
      if Saves(ApplyAll(st, before), tries[|tries| - 1]) then |tries| else LastSave(st, before)
  }

  /** Memory takes every call, saved or not; a restart finds memory exactly as
      the last successful save saw it, so that save, a purge's too, also made
      durable every earlier call whose own save had failed. */
  lemma {:induction false} RestartFindsLastSave(s: Store, tries: seq<Try>)
    requires s.InFile? && Whole(s.path)
    ensures DoAll(s, tries).InFile? && DoAll(s, tries).mem == ApplyAll(s.mem, tries)
    ensures Whole(DoAll(s, tries).path)
    ensures Reopen(DoAll(s, tries)).mem
         == if LastSave(s.mem, tries) == 0 then Load(s.path) else ApplyAll(s.mem, tries[..LastSave(s.mem, tries)])
  {
    if tries != [] {
      var before := tries[..|tries| - 1];
      RestartFindsLastSave(s, before);
      if LastSave(s.mem, tries) < |tries| {
        assert before[..LastSave(s.mem, before)] == tries[..LastSave(s.mem, tries)];
      } else {
        assert tries[..|tries|] == tries;
      }
    }
  }

  /** A purge that returns nil leaves none of its source on disk exactly when it
      found something in memory or the disk held none before: a retry in the
      same process after a failed save finds memory empty and writes nothing. */
  lemma NilPurgeClearsDisk(s: Store, source: string, ok: bool)
    requires s.InFile? && Whole(s.path)
    requires PurgeRows(s, source) > 0 ==> ok
    ensures PurgeCount(Reopen(PurgeStore(s, source, ok)).mem, source) == 0
       <==> (PurgeRows(s, source) > 0 || PurgeCount(Load(s.path), source) == 0)
  {
    PurgeSettles(s.mem, source);
  }

  /** The retry just described, as a run: the second nil is not a receipt. */
  lemma RetriedPurgeKeepsDisk(s: Store, source: string)
    requires s.InFile? && Whole(s.path) && s.mem == Load(s.path) && PurgeRows(s, source) > 0
    ensures var retry := PurgeStore(PurgeStore(s, source, false), source, true);
      PurgeRows(PurgeStore(s, source, false), source) == 0 && Reopen(retry).mem == s.mem
  {
    PurgeSettles(s.mem, source);
  }

  /** The purge command: open, purge, report. A nil return means the disk now
      holds exactly what it held before without that source, and the count is
      the number of rows that went. */
  method PurgeCommand(disk: Disk, readable: bool, source: string, step: SaveStep) returns (n: nat, ok: bool)
    modifies disk
    ensures !readable || !Whole(old(disk.store)) ==> !ok && unchanged(disk)
    ensures ok ==> Whole(old(disk.store)) && Whole(disk.store)
    ensures ok ==> Load(disk.store) == Purged(Load(old(disk.store)), source)
    ensures ok ==> n == PurgeCount(Load(old(disk.store)), source)
    ensures !ok ==> disk.store == old(disk.store)
  {
    var f := File.OpenFile(disk, readable);
    if f == null {
      return 0, false;
    }
    PurgeSettles(f.Mem(), source);
    n, ok := f.PurgeSource(source, step);
  }
}
