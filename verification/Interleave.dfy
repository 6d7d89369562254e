/** Many beacon loops on one shared store (cmd/sos-beacon/main.go): each store
    call is one atomic step, under the file store's mutex or in the database,
    everything else a loop does is its own, and any interleaving of steps may
    happen. */
module Interleave {
  import opened Core
  import opened Keys
  import opened StoreState
  import opened SqlStore
  import opened Backend
  import opened Engine

  /** What a loop has before it: to begin a poll, whose tally starts with what
      its fetch phase counted, and to handle one signal. */
  datatype Task =
    | Begin(fetched: map<string, Counters>)
    | Handle(cfg: BeaconConfig, pre: set<string>, now: int, s: Signal, fate: Fate)

  function TripleFor(t: Task): Triple
    requires t.Handle?
  {
    SignalTriple(t.cfg.name, t.s)
  }

  /** Between its atomic steps a loop is about to call Seen, to post, or to
      write to the store. */
  datatype Phase = Looking | Posting(o: Outcome) | Storing(o: Outcome)

  /** A loop's own state; `counts` is the tally of its current poll. */
  datatype Local = Local(
    tasks: seq<Task>, pos: nat, phase: Phase,
    posts: seq<Finding>, outcomes: seq<Outcome>, counts: map<string, Counters>)

  predicate Done(l: Local) { l.pos >= |l.tasks| }

  /** The next atomic step of one loop. */
  function Tick(s: Store, l: Local): (Store, Local) {
    if Done(l) then (s, l) else
    match l.tasks[l.pos]
    case Begin(fetched) => (s, l.(pos := l.pos + 1, phase := Looking, counts := fetched))
    case Handle(cfg, pre, now, x, fate) =>
      match l.phase
      case Looking =>
        (s, l.(phase := Posting(OutcomeOf(cfg, pre, now, x, fate, s))))
      case Posting(o) =>
        (s, l.(phase := Storing(o), posts := if o.Delivered? then l.posts + [Finding(cfg.name, x, o.v)] else l.posts))
      case Storing(o) =>
        var saved := fate.save.Completes?;
        (Do(s, OpOf(cfg.name, x, o), saved),
         l.(pos := l.pos + 1, phase := Looking, outcomes := l.outcomes + [o],
            counts := l.counts[x.source := Bump(At(l.counts, x.source), o, saved)]))
  }

  /** One loop with the store to itself, for n steps. */
  function Alone(s: Store, l: Local, n: nat): (Store, Local) {
    if n == 0 then (s, l)
    else
      var (s', l') := Alone(s, l, n - 1);
      Tick(s', l')
  }

  predicate InRange(schedule: seq<nat>, n: nat) {
    forall i :: 0 <= i < |schedule| ==> schedule[i] < n
  }

  function Advance(at: (Store, seq<Local>), k: nat): (Store, seq<Local>)
    requires k < |at.1|
  {
    var (s, l) := Tick(at.0, at.1[k]);
    (s, at.1[k := l])
  }

  /** All loops on one store, stepping in the order of a schedule. */
  function Together(s: Store, loops: seq<Local>, schedule: seq<nat>): (r: (Store, seq<Local>))
    requires InRange(schedule, |loops|)
    ensures |r.1| == |loops|
  {
    if schedule == [] then (s, loops)
    else
      var n := |schedule| - 1;
      Advance(Together(s, loops, schedule[..n]), schedule[n])
  }

  function Turns(schedule: seq<nat>, i: nat): nat {
    if schedule == [] then 0
    else Turns(schedule[..|schedule| - 1], i) + if schedule[|schedule| - 1] == i then 1 else 0
  }

  // ----- a beacon's part of the store

  ghost predicate OwnRow(flat: bool, r: Row, beacon: string, sources: iset<string>) {
    exists source, id :: source in sources && r == RowOf(flat, Triple(beacon, source, id))
  }

  /** Two beacons can share a row over these sources. */
  ghost predicate RowsMeet(flat: bool, b: string, c: string, sources: iset<string>) {
    exists r :: OwnRow(flat, r, b, sources) && OwnRow(flat, r, c, sources)
  }

  /** On the file store that is to share a key, on the database to share the
      name. */
  lemma RowsMeetExactly(flat: bool, b: string, c: string, sources: iset<string>)
    ensures RowsMeet(flat, b, c, sources) <==> if flat then Meet(b, c, sources) else b == c && sources != iset{}
  {
    if flat {
      if Meet(b, c, sources) {
        var s, t, i, k :| s in sources && t in sources && Key(b, s, i) == Key(c, t, k);
        assert RowOf(true, Triple(b, s, i)) == RowOf(true, Triple(c, t, k));
        assert OwnRow(true, Flat(Key(b, s, i)), b, sources) && OwnRow(true, Flat(Key(b, s, i)), c, sources);
      }
    } else if b == c && sources != iset{} {
      var s :| s in sources;
      assert RowOf(false, Triple(b, s, "1")) == RowOf(false, Triple(c, s, "1"));
      var r := Primary(Triple(b, s, "1"));
      assert OwnRow(false, r, b, sources) && OwnRow(false, r, c, sources);
    }
  }

  /** A beacon's marks over some sources, and its findings: the file store's
      PendingDigest, or the rows of the database's table. */
  datatype View =
    | FileView(marks: iset<Row>, digest: seq<Finding>)
    | TableView(marks: iset<Row>, rows: map<Triple, Finding>)

  ghost function OwnMarks(s: Store, beacon: string, sources: iset<string>): iset<Row> {
    iset r: Row | HasRow(s, r) && OwnRow(s.InFile?, r, beacon, sources)
  }

  ghost function ViewOf(s: Store, beacon: string, sources: iset<string>): View {
    match s
    case InFile(mem, _) => FileView(OwnMarks(s, beacon, sources), Select(mem.findings, OfBeacon(beacon)))
    case InSql(db) =>
      TableView(OwnMarks(s, beacon, sources), map t | t in db.finding && t.beacon == beacon :: db.finding[t])
  }

  /** The loop handles signals of these sources for this beacon only. */
  ghost predicate Belongs(l: Local, beacon: string, sources: iset<string>) {
    forall i :: 0 <= i < |l.tasks| && l.tasks[i].Handle? ==>
      l.tasks[i].cfg.name == beacon && l.tasks[i].s.source in sources
  }

  lemma ViewShowsMarks(s: Store, t: Triple, sources: iset<string>)
    requires t.source in sources
    ensures Marked(s, t) <==> RowOf(s.InFile?, t) in ViewOf(s, t.beacon, sources).marks
  {
    MarkIsRow(s, t);
    assert OwnRow(s.InFile?, RowOf(s.InFile?, t), t.beacon, sources);
  }

  /** Equal views answer alike: Seen for every triple of the beacon over the
      sources, and PendingDigest, whatever the order of the database's rows. */
  lemma ViewTells(a: Store, b: Store, beacon: string, sources: iset<string>)
    requires ViewOf(a, beacon, sources) == ViewOf(b, beacon, sources)
    ensures a.InFile? == b.InFile?
    ensures forall source, id :: source in sources ==>
      (Marked(a, Triple(beacon, source, id)) <==> Marked(b, Triple(beacon, source, id)))
    ensures a.InFile? ==> Select(a.mem.findings, OfBeacon(beacon)) == Select(b.mem.findings, OfBeacon(beacon))
    ensures a.InSql? ==> forall t: Triple :: t.beacon == beacon ==>
      (t in a.db.finding <==> t in b.db.finding) && (t in a.db.finding ==> a.db.finding[t] == b.db.finding[t])
  {
    forall source, id | source in sources
      ensures Marked(a, Triple(beacon, source, id)) <==> Marked(b, Triple(beacon, source, id))
    {
      ViewShowsMarks(a, Triple(beacon, source, id), sources);
      ViewShowsMarks(b, Triple(beacon, source, id), sources);
    }
    if a.InSql? {
      forall t: Triple | t.beacon == beacon
        ensures (t in a.db.finding <==> t in b.db.finding) && (t in a.db.finding ==> a.db.finding[t] == b.db.finding[t])
      {
        assert t in a.db.finding <==> t in ViewOf(a, beacon, sources).rows;
        assert t in b.db.finding <==> t in ViewOf(b, beacon, sources).rows;
      }
    }
  }

  /** The triple an operation marks, if it marks one. */
  function Marking(op: StoreOp): Option<Triple> {
    match op
    case Mark(t) => Some(t)
    case Rec(f) => Some(TripleOf(f))
    case _ => None
  }

  /** A write of the engine for a beacon, over its sources. */
  ghost predicate WriteFor(op: StoreOp, beacon: string, sources: iset<string>) {
    op.Nothing? || (Marking(op).Some? && Marking(op).value.beacon == beacon && Marking(op).value.source in sources)
  }

  lemma RowsAfter(s: Store, op: StoreOp, ok: bool, r: Row)
    ensures Do(s, op, ok).InFile? == s.InFile?
    ensures HasRow(Do(s, op, ok), r) <==>
      HasRow(s, r) || (Marking(op).Some? && RowOf(s.InFile?, Marking(op).value) == r && Lands(s.InFile?, ok))
  {
  }

  /** A write as its own beacon sees it. */
  ghost function Written(v: View, op: StoreOp): View {
    if Marking(op).None? then v else
    var marks := v.marks + iset{RowOf(v.FileView?, Marking(op).value)};
    match v
    case FileView(_, digest) => FileView(marks, if op.Rec? then digest + [op.finding] else digest)
    case TableView(_, rows) => TableView(marks, if op.Rec? then rows[TripleOf(op.finding) := op.finding] else rows)
  }

  lemma OwnMarksAfter(s: Store, op: StoreOp, ok: bool, beacon: string, sources: iset<string>)
    requires WriteFor(op, beacon, sources)
    ensures OwnMarks(Do(s, op, ok), beacon, sources) == OwnMarks(s, beacon, sources) +
      if Marking(op).Some? && Lands(s.InFile?, ok) then iset{RowOf(s.InFile?, Marking(op).value)} else iset{}
  {
    forall r: Row
      ensures HasRow(Do(s, op, ok), r) <==>
        HasRow(s, r) || (Marking(op).Some? && RowOf(s.InFile?, Marking(op).value) == r && Lands(s.InFile?, ok))
    {
      RowsAfter(s, op, ok, r);
    }
    if Marking(op).Some? {
      assert OwnRow(s.InFile?, RowOf(s.InFile?, Marking(op).value), beacon, sources);
    }
  }

  lemma OwnWrite(s: Store, op: StoreOp, ok: bool, beacon: string, sources: iset<string>)
    requires WriteFor(op, beacon, sources)
    ensures Do(s, op, ok).InFile? == s.InFile?
    ensures ViewOf(Do(s, op, ok), beacon, sources) ==
      if Lands(s.InFile?, ok) then Written(ViewOf(s, beacon, sources), op) else ViewOf(s, beacon, sources)
  {
    OwnMarksAfter(s, op, ok, beacon, sources);
    if op.Rec? && s.InFile? {
      SelectSnoc(s.mem.findings, op.finding, OfBeacon(beacon));
    }
  }

  /** Beacons whose rows never meet do not see each other's writes. */
  lemma OtherWrite(s: Store, op: StoreOp, ok: bool, owner: string, beacon: string, sources: iset<string>)
    requires !RowsMeet(s.InFile?, owner, beacon, sources) && WriteFor(op, owner, sources)
    ensures Do(s, op, ok).InFile? == s.InFile?
    ensures ViewOf(Do(s, op, ok), beacon, sources) == ViewOf(s, beacon, sources)
  {
    if !op.Nothing? {
      var t := Marking(op).value;
      var r := RowOf(s.InFile?, t);
      assert OwnRow(s.InFile?, r, owner, sources);
      forall x: Row | OwnRow(s.InFile?, x, beacon, sources)
        ensures HasRow(Do(s, op, ok), x) <==> HasRow(s, x)
      {
        RowsAfter(s, op, ok, x);
      }
      assert OwnMarks(Do(s, op, ok), beacon, sources) == OwnMarks(s, beacon, sources);
      if op.Rec? && s.InFile? {
        SelectSnoc(s.mem.findings, op.finding, OfBeacon(beacon));
      }
    }
  }

  // ----- one step, seen from one beacon

  lemma TickKeeps(s: Store, l: Local)
    ensures Tick(s, l).1.tasks == l.tasks && Tick(s, l).0.InFile? == s.InFile?
  {
  }

  /** What a loop does next, and what it sees afterwards, depends only on its
      own view. */
  lemma TickReadsView(a: Store, b: Store, l: Local, beacon: string, sources: iset<string>)
    requires Belongs(l, beacon, sources) && ViewOf(a, beacon, sources) == ViewOf(b, beacon, sources)
    ensures Tick(a, l).1 == Tick(b, l).1
    ensures ViewOf(Tick(a, l).0, beacon, sources) == ViewOf(Tick(b, l).0, beacon, sources)
  {
    if !Done(l) && l.tasks[l.pos].Handle? {
      var t := l.tasks[l.pos];
      ViewShowsMarks(a, TripleFor(t), sources);
      ViewShowsMarks(b, TripleFor(t), sources);
      if l.phase.Storing? {
        OwnWrite(a, OpOf(beacon, t.s, l.phase.o), t.fate.save.Completes?, beacon, sources);
        OwnWrite(b, OpOf(beacon, t.s, l.phase.o), t.fate.save.Completes?, beacon, sources);
      }
    }
  }

  lemma TickLeavesOthers(s: Store, l: Local, owner: string, beacon: string, sources: iset<string>)
    requires Belongs(l, owner, sources) && !RowsMeet(s.InFile?, owner, beacon, sources)
    ensures ViewOf(Tick(s, l).0, beacon, sources) == ViewOf(s, beacon, sources)
  {
    if !Done(l) && l.tasks[l.pos].Handle? && l.phase.Storing? {
      var t := l.tasks[l.pos];
      OtherWrite(s, OpOf(owner, t.s, l.phase.o), t.fate.save.Completes?, owner, beacon, sources);
    }
  }

  // ----- any schedule

  /** The same loops, further on. */
  ghost predicate SameTasks(later: seq<Local>, loops: seq<Local>) {
    |later| == |loops| && forall k :: 0 <= k < |loops| ==> later[k].tasks == loops[k].tasks
  }

  lemma {:induction false} TogetherKeeps(s: Store, loops: seq<Local>, schedule: seq<nat>)
    requires InRange(schedule, |loops|)
    ensures SameTasks(Together(s, loops, schedule).1, loops)
    ensures Together(s, loops, schedule).0.InFile? == s.InFile?
  {
    if schedule != [] {
      var n := |schedule| - 1;
      TogetherKeeps(s, loops, schedule[..n]);
      var (s', loops') := Together(s, loops, schedule[..n]);
      TickKeeps(s', loops'[schedule[n]]);
    }
  }

  /** Loop i is where as many steps alone would have put it: the same next step,
      outcomes, posts and counters, and the same marks and digest. */
  ghost predicate AsAlone(shared: (Store, seq<Local>), alone: (Store, Local), i: nat,
                          beacon: string, sources: iset<string>)
  {
    && i < |shared.1| && shared.1[i] == alone.1
    && ViewOf(shared.0, beacon, sources) == ViewOf(alone.0, beacon, sources)
  }

  /** Every loop serves a beacon of its own, and no two beacons' rows meet. */
  ghost predicate Strangers(flat: bool, loops: seq<Local>, names: seq<string>, sources: iset<string>) {
    && |names| == |loops|
    && (forall k :: 0 <= k < |names| ==> Belongs(loops[k], names[k], sources))
    && forall k, m :: 0 <= k < |names| && 0 <= m < |names| && k != m ==> !RowsMeet(flat, names[k], names[m], sources)
  }

  /** One turn of loop k keeps loop i where its own turns put it. */
  lemma OneTurn(loops: seq<Local>, names: seq<string>, sources: iset<string>,
                shared: (Store, seq<Local>), alone: (Store, Local), k: nat, i: nat)
    requires Strangers(shared.0.InFile?, loops, names, sources) && SameTasks(shared.1, loops)
    requires i < |names| && k < |names| && AsAlone(shared, alone, i, names[i], sources)
    ensures AsAlone(Advance(shared, k), if k == i then Tick(alone.0, alone.1) else alone, i, names[i], sources)
  {
    assert Belongs(shared.1[k], names[k], sources) by { assert Belongs(loops[k], names[k], sources); }
    if k == i {
      TickReadsView(shared.0, alone.0, shared.1[i], names[i], sources);
    } else {
      TickLeavesOthers(shared.0, shared.1[k], names[k], names[i], sources);
    }
  }

  /** Loops whose rows never meet do not disturb each other, on either store,
      under any schedule and whichever calls fail. By RowsMeetExactly and
      Keys.KeysMeetExactly that is a condition on the names alone. */
  lemma {:induction false} NonInterference(s: Store, loops: seq<Local>, names: seq<string>, sources: iset<string>,
                                           schedule: seq<nat>, i: nat)
    requires i < |loops| && InRange(schedule, |loops|) && Strangers(s.InFile?, loops, names, sources)
    ensures AsAlone(Together(s, loops, schedule), Alone(s, loops[i], Turns(schedule, i)), i, names[i], sources)
  {
    if schedule != [] {
      var n := |schedule| - 1;
      NonInterference(s, loops, names, sources, schedule[..n], i);
      TogetherKeeps(s, loops, schedule[..n]);
      OneTurn(loops, names, sources, Together(s, loops, schedule[..n]),
              Alone(s, loops[i], Turns(schedule[..n], i)), schedule[n], i);
    }
  }

  /** Three steps of a loop handle one signal as Engine.Step does. */
  lemma ThreeTicks(s: Store, l: Local, p: Progress)
    requires !Done(l) && l.tasks[l.pos].Handle? && l.phase.Looking?
    requires p == Progress(s, l.counts, l.posts, l.outcomes)
    ensures var t := l.tasks[l.pos];
      var q := Step(t.cfg, t.pre, t.now, t.s, t.fate, p);
      Alone(s, l, 3) == (q.store, l.(pos := l.pos + 1, posts := q.posts, outcomes := q.outcomes, counts := q.counts))
  {
    var a := Alone(s, l, 1);
    assert a == Tick(s, l) by { assert Alone(s, l, 0) == (s, l); }
    var b := Alone(s, l, 2);
    assert b == Tick(a.0, a.1);
    assert Alone(s, l, 3) == Tick(b.0, b.1);
  }

  // ----- loops that do meet

  lemma TogetherAdds(s: Store, loops: seq<Local>, schedule: seq<nat>, i: nat)
    requires InRange(schedule, |loops|) && i < |loops|
    ensures Together(s, loops, schedule + [i]) == Advance(Together(s, loops, schedule), i)
  {
    assert (schedule + [i])[..|schedule|] == schedule;
  }

  function NewLoop(tasks: seq<Task>): Local { Local(tasks, 0, Looking, [], [], map[]) }

  function TaskOf(j: Job, i: nat): Task
    requires j.Fits() && i < |j.signals|
  {
    Handle(j.cfg, j.pre, j.now, j.signals[i], j.fates[i])
  }

  /** The handling of one sample signal. */
  function SampleTask(t: Triple, bucket: string): Task {
    TaskOf(Sample(t.beacon, t.source, t.id, bucket), 0)
  }

  /** n turns of the second of two loops. */
  function Seconds(n: nat): seq<nat> { seq(n, _ => 1) }

  lemma {:induction false} SecondAlone(s: Store, x: Local, y: Local, n: nat)
    ensures Together(s, [x, y], Seconds(n)) == (Alone(s, y, n).0, [x, Alone(s, y, n).1])
    ensures Turns(Seconds(n), 0) == 0
  {
    if n > 0 {
      SecondAlone(s, x, y, n - 1);
      assert Seconds(n) == Seconds(n - 1) + [1];
      assert Seconds(n)[..n - 1] == Seconds(n - 1);
      TogetherAdds(s, [x, y], Seconds(n - 1), 1);
      var before, after := Alone(s, y, n - 1), Alone(s, y, n);
      assert after == Tick(before.0, before.1);
      assert [x, before.1][1 := after.1] == [x, after.1];
    } else {
      assert Seconds(0) == [];
    }
  }

  lemma NoiseMarks(s: Store, t: Triple)
    requires !Marked(s, t)
    ensures Alone(s, NewLoop([SampleTask(t, "noise")]), 3).0 == Do(s, Mark(t), true)
  {
    ThreeTicks(s, NewLoop([SampleTask(t, "noise")]), Progress(s, map[], [], []));
  }

  /** One of two loops is where its turns alone would have put it. */
  predicate LikeAlone(s: Store, x: Local, y: Local, schedule: seq<nat>, i: nat)
    requires InRange(schedule, 2) && i < 2
  {
    Together(s, [x, y], schedule).1[i] == Alone(s, [x, y][i], Turns(schedule, i)).1
  }

  function NewStore(flat: bool): Store { if flat then InFile(FRESH, None) else InSql(EMPTY) }

  /** Two loops with one row between them disturb each other: once the second
      has dropped its signal, the first finds its own already seen. */
  lemma SharedRowDisturbs(flat: bool, t: Triple, u: Triple)
    requires RowOf(flat, t) == RowOf(flat, u)
    ensures var x, y := NewLoop([SampleTask(t, "noise")]), NewLoop([SampleTask(u, "noise")]);
      var schedule := Seconds(3) + [0];
      InRange(schedule, 2) && !LikeAlone(NewStore(flat), x, y, schedule, 0)
  {
    var store, x, y := NewStore(flat), NewLoop([SampleTask(t, "noise")]), NewLoop([SampleTask(u, "noise")]);
    NoiseMarks(store, u);
    SecondAlone(store, x, y, 3);
    TogetherAdds(store, [x, y], Seconds(3), 0);
    var shared := Together(store, [x, y], Seconds(3));
    assert Marked(shared.0, t) && !Marked(store, t);
    assert (Seconds(3) + [0])[..3] == Seconds(3);
    assert Alone(store, x, 1) == Tick(store, x) by { assert Alone(store, x, 0) == (store, x); }
    assert Tick(shared.0, x).1.phase.o.AlreadySeen? && Tick(store, x).1.phase.o.Dropped?;
  }

  /** Any two loops of these beacons, over these sources, are undisturbed on any
      store of the kind. */
  ghost predicate Undisturbed(flat: bool, b: string, c: string, sources: iset<string>) {
    forall s: Store, x, y, schedule, i: nat |
      s.InFile? == flat && Belongs(x, b, sources) && Belongs(y, c, sources) && InRange(schedule, 2) && i < 2 ::
      LikeAlone(s, x, y, schedule, i)
  }

  lemma SharedRow(flat: bool, b: string, c: string, sources: iset<string>) returns (t: Triple, u: Triple)
    requires RowsMeet(flat, b, c, sources)
    ensures t.beacon == b && u.beacon == c && t.source in sources && u.source in sources
    ensures RowOf(flat, t) == RowOf(flat, u)
  {
    var r :| OwnRow(flat, r, b, sources) && OwnRow(flat, r, c, sources);
    var s, i :| s in sources && r == RowOf(flat, Triple(b, s, i));
    var s', k :| s' in sources && r == RowOf(flat, Triple(c, s', k));
    t, u := Triple(b, s, i), Triple(c, s', k);
  }

  /** Two beacons never disturb each other exactly when their rows never meet. */
  lemma UndisturbedExactly(flat: bool, b: string, c: string, sources: iset<string>)
    ensures Undisturbed(flat, b, c, sources) <==> !RowsMeet(flat, b, c, sources)
  {
    if RowsMeet(flat, b, c, sources) {
      var t, u := SharedRow(flat, b, c, sources);
      SharedRowDisturbs(flat, t, u);
      assert NewStore(flat).InFile? == flat;
      assert Belongs(NewLoop([SampleTask(t, "noise")]), b, sources);
      assert Belongs(NewLoop([SampleTask(u, "noise")]), c, sources);
    } else {
      assert !RowsMeet(flat, c, b, sources);
      forall s: Store, x, y, schedule, i: nat |
        s.InFile? == flat && Belongs(x, b, sources) && Belongs(y, c, sources) && InRange(schedule, 2) && i < 2
        ensures LikeAlone(s, x, y, schedule, i)
      {
        NonInterference(s, [x, y], [b, c], sources, schedule, i);
      }
    }
  }

  // ----- a loop alone is the sequential engine

  function More(at: (Store, Local), n: nat): (Store, Local) { Alone(at.0, at.1, n) }

  lemma {:induction false} AloneAdds(s: Store, l: Local, m: nat, n: nat)
    ensures Alone(s, l, m + n) == More(Alone(s, l, m), n)
  {
    if n > 0 {
      AloneAdds(s, l, m, n - 1);
    }
  }

  /** The loop, come through k signals, with the engine's progress for its own. */
  function Came(l: Local, k: nat, q: Progress): (Store, Local) {
    (q.store, l.(pos := l.pos + k, posts := q.posts, outcomes := q.outcomes, counts := q.counts))
  }

  /** The loop's next tasks are the signals of the job. */
  ghost predicate Ahead(l: Local, j: Job)
    requires j.Fits()
  {
    l.pos + |j.signals| <= |l.tasks| && forall i :: 0 <= i < |j.signals| ==> l.tasks[l.pos + i] == TaskOf(j, i)
  }

  lemma OneSignalAlone(l: Local, j: Job, i: nat, p: Progress)
    requires j.Fits() && i < |j.signals| && l.phase.Looking? && Ahead(l, j)
    ensures More(Came(l, i, After(j, i, p)), 3) == Came(l, i + 1, After(j, i + 1, p))
  {
    var (s, l') := Came(l, i, After(j, i, p));
    assert l'.tasks[l'.pos] == TaskOf(j, i);
    ThreeTicks(s, l', After(j, i, p));
  }

  /** After n steps the loop has come through k signals as the engine has. */
  ghost predicate Keeps(s: Store, l: Local, n: nat, j: Job, k: nat)
    requires j.Fits() && k <= |j.signals|
  {
    Alone(s, l, n) == Came(l, k, After(j, k, Progress(s, l.counts, l.posts, l.outcomes)))
  }

  lemma NextSignalAlone(s: Store, l: Local, n: nat, j: Job, i: nat)
    requires j.Fits() && i < |j.signals| && l.phase.Looking? && Ahead(l, j) && Keeps(s, l, n, j, i)
    ensures Keeps(s, l, n + 3, j, i + 1)
  {
    AloneAdds(s, l, n, 3);
    OneSignalAlone(l, j, i, Progress(s, l.counts, l.posts, l.outcomes));
  }

  /** A poll run alone, three steps a signal, ends in the store, on disk too, in
      the posts, outcomes and counters of the engine's own fold. */
  lemma {:induction false} AloneIsEngine(s: Store, l: Local, j: Job, k: nat)
    requires j.Fits() && k <= |j.signals| && l.phase.Looking? && Ahead(l, j)
    ensures Keeps(s, l, 3 * k, j, k)
  {
    if k > 0 {
      AloneIsEngine(s, l, j, k - 1);
      NextSignalAlone(s, l, 3 * (k - 1), j, k - 1);
    } else {
      assert Keeps(s, l, 0, j, 0);
    }
  }

  /** A whole poll alone: its tally starts with what the fetch phase counted,
      whatever the poll before left, and goes on as the engine's does. */
  lemma PollIsRun(s: Store, l: Local, j: Job, fetched: map<string, Counters>)
    requires j.Fits() && l.pos < |l.tasks| && l.tasks[l.pos] == Begin(fetched) && Ahead(l.(pos := l.pos + 1), j)
    ensures var q := After(j, |j.signals|, Progress(s, fetched, l.posts, l.outcomes));
      var (s', l') := Alone(s, l, 1 + 3 * |j.signals|);
      s' == q.store && l'.counts == q.counts && l'.posts == q.posts && l'.outcomes == q.outcomes
  {
    var begun := l.(pos := l.pos + 1, phase := Looking, counts := fetched);
    assert Alone(s, l, 1) == Tick(s, l) == (s, begun) by { assert Alone(s, l, 0) == (s, l); }
    AloneAdds(s, l, 1, 3 * |j.signals|);
    AloneIsEngine(s, begun, j, |j.signals|);
  }
}
