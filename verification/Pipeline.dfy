/** The imperative pipeline of internal/engine/engine.go on either store:
    counters on the heap behind a map, signals taken one by one, and the proof
    that every run is the fold of Engine.Step. */
module Pipeline {
  import opened Core
  import opened Keys
  import opened StoreState
  import opened Backend
  import opened FileStore
  import opened SqlStore
  import opened Engine
  import Filter

  class SourceStats {
    var fetched: nat
    var stale: nat
    var seen: nat
    var filtered: nat
    var classified: nat
    var delivered: nat
    var digest: nat
    var dropped: nat
    var errors: nat

    constructor ()
      ensures Value() == ZERO
    {
      fetched, stale, seen, filtered, classified := 0, 0, 0, 0, 0;
      delivered, digest, dropped, errors := 0, 0, 0, 0;
    }

    function Value(): Counters
      reads this
    {
      Counters(fetched, stale, seen, filtered, classified, delivered, digest, dropped, errors)
    }

    method CountFetch(one: Fetched)
      modifies this
      ensures Value() == AddFetch(old(Value()), one)
    {
      if one.failed {
        errors := errors + 1;
      }
      fetched := fetched + |one.signals|;
    }
  }

  /** A run's per-source counters; no two sources share a counter object. */
  class Tally {
    var m: map<string, SourceStats>
    ghost var cells: set<SourceStats>

    ghost predicate Valid()
      reads this
    {
      && (forall k :: k in m ==> m[k] in cells)
      && (forall a, b :: a in m && b in m && a != b ==> m[a] != m[b])
    }

    ghost function Counts(): map<string, Counters>
      requires Valid()
      reads this, cells
    {
      map k | k in m :: m[k].Value()
    }

    constructor ()
      ensures Valid() && Counts() == map[] && cells == {}
    {
      m, cells := map[], {};
    }

    method At(source: string) returns (s: SourceStats)
      requires Valid()
      modifies this
      ensures Valid() && source in m && m[source] == s
      ensures m == old(m)[source := s]
      ensures s in cells && fresh(cells - old(cells))
      ensures s.Value() == Engine.At(old(Counts()), source)
      ensures Counts() == old(Counts())[source := s.Value()]
    {
      if source in m {
        s := m[source];
      } else {
        s := new SourceStats();
        m, cells := m[source := s], cells + {s};
      }
    }

    /** Counting through one source's pointer moves that source only. */
    lemma Moved(start: map<string, Counters>, before: map<string, Counters>, source: string, s: SourceStats)
      requires Valid() && source in m && m[source] == s
      requires m.Keys == before.Keys && before == start[source := before[source]]
      requires forall k :: k in m && k != source ==> m[k].Value() == before[k]
      ensures Counts() == start[source := s.Value()]
    {
    }

    method Rollup() returns (st: Stats)
      requires Valid()
      ensures st.bySource == Counts() && st.total == Sum(Counts())
    {
      var split: map<string, Counters> := map[];
      var total := ZERO;
      var todo := m.Keys;
      while todo != {}
        invariant todo <= m.Keys && split.Keys == m.Keys - todo
        invariant forall k :: k in split ==> split[k] == m[k].Value()
        invariant total == Sum(split)
      {
        var name :| name in todo;
        var c := m[name].Value();
        AddSum(split, name, c);
        split := split[name := c];
        total := Add(total, c);
        todo := todo - {name};
      }
      assert split == Counts();
      st := Stats(total, split);
    }
  }

  datatype Stats = Stats(total: Counters, bySource: map<string, Counters>)

  /** The delivery port: a log of the findings it accepted. */
  class Sink {
    var posts: seq<Finding>

    constructor ()
      ensures posts == []
    {
      posts := [];
    }

    method Deliver(f: Finding, posted: bool) returns (ok: bool)
      modifies this
      ensures ok == posted
      ensures posts == if ok then old(posts) + [f] else old(posts)
    {
      ok := posted;
      if ok { posts := posts + [f]; }
    }
  }

  /** No reader of the store path has ever found a torn file. */
  ghost predicate NeverTorn(disk: Disk)
    reads disk
  {
    Whole(disk.store) && forall i :: 0 <= i < |disk.history| ==> Whole(disk.history[i])
  }

  /** At every step on the way the store path held what it held before, or
      what it holds now. */
  twostate predicate Steady(disk: Disk)
    reads disk
  {
    && |old(disk.history)| <= |disk.history|
    && disk.history[..|old(disk.history)|] == old(disk.history)
    && forall i :: |old(disk.history)| <= i < |disk.history| ==>
         disk.history[i] == old(disk.store) || disk.history[i] == disk.store
  }

  // ----- the store behind the ports

  datatype Adapter = OnFile(file: File) | OnSql(sql: AzureSQL)

  ghost function Objects(st: Adapter): set<object>
    reads if st.OnFile? then {st.file} else {}
  {
    match st
    case OnFile(file) => {file, file.buf, file.disk}
    case OnSql(sql) => {sql}
  }

  ghost predicate Good(st: Adapter)
    reads Objects(st)
  {
    st.OnFile? ==> st.file.Valid() && NeverTorn(st.file.disk)
  }

  /** The store as the pure model sees it. */
  ghost function Image(st: Adapter): Store
    requires Good(st)
    reads Objects(st)
  {
    match st
    case OnFile(file) => InFile(file.Mem(), file.disk.store)
    case OnSql(sql) => InSql(sql.db)
  }

  twostate predicate Calm(st: Adapter)
    reads Objects(st)
  {
    st.OnFile? ==> Steady(st.file.disk)
  }

  /** How far a transaction gets when the write gets this far. */
  function TxOf(step: SaveStep): TxStep {
    match step
    case MarshalFails => MarshalOrBeginFails
    case CreateFails => FirstFails
    case WriteFails(_, _) => SecondFails
    case Completes => Commits
    case _ => CommitFails
  }

  /** The Deduper port's Seen. */
  method Seen(st: Adapter, t: Triple, unreachable: bool) returns (r: Option<bool>)
    requires Good(st)
    ensures r == Lookup(Image(st), t, unreachable)
  {
    match st
    case OnFile(file) =>
      var found := file.Seen(t);
      r := Some(found);
    case OnSql(sql) =>
      r := sql.Seen(t, !unreachable);
  }

  /** The Deduper port's MarkSeen, as a write to the store. */
  method MarkSeen(st: Adapter, t: Triple, step: SaveStep) returns (ok: bool)
    requires Good(st)
    modifies Objects(st)
    ensures Good(st) && fresh(Objects(st) - old(Objects(st))) && Calm(st)
    ensures Image(st) == Do(old(Image(st)), Mark(t), step.Completes?)
    ensures ok <==> step.Completes?
  {
    match st
    case OnFile(file) => ok := file.MarkSeen(t, step);
    case OnSql(sql) => ok := sql.MarkSeen(t, step.Completes?);
  }

  /** The Recorder port's Record, as a write to the store. */
  method Record(st: Adapter, fnd: Finding, step: SaveStep) returns (ok: bool)
    requires Good(st)
    modifies Objects(st)
    ensures Good(st) && fresh(Objects(st) - old(Objects(st))) && Calm(st)
    ensures Image(st) == Do(old(Image(st)), Rec(fnd), step.Completes?)
    ensures ok <==> step.Completes?
  {
    match st
    case OnFile(file) => ok := file.Record(fnd, step);
    case OnSql(sql) => ok := sql.Record(fnd, TxOf(step));
  }

  /** The ledger's Claim, as a write to the store. */
  method Claim(st: Adapter, findingId: string, claimant: string, step: SaveStep) returns (ok: bool)
    requires Good(st)
    modifies Objects(st)
    ensures Good(st) && fresh(Objects(st) - old(Objects(st))) && Calm(st)
    ensures Image(st) == Do(old(Image(st)), ClaimIt(findingId, claimant), step.Completes?)
    ensures ok <==> step.Completes?
  {
    match st
    case OnFile(file) => ok := file.Claim(findingId, claimant, step);
    case OnSql(sql) => ok := sql.Claim(findingId, claimant, step.Completes?);
  }

  /** The purger's PurgeSource, as a purge of the store; the database's driver
      reports its row counts. */
  method PurgeSource(st: Adapter, source: string, step: SaveStep) returns (n: nat, ok: bool)
    requires Good(st)
    modifies Objects(st)
    ensures Good(st) && fresh(Objects(st) - old(Objects(st))) && Calm(st)
    ensures Image(st) == PurgeStore(old(Image(st)), source, step.Completes?)
    ensures ok <==> step.Completes? || (st.OnFile? && n == 0)
    ensures n == if ok || st.OnFile? then PurgeRows(old(Image(st)), source) else 0
  {
    match st
    case OnFile(file) => n, ok := file.PurgeSource(source, step);
    case OnSql(sql) => n, ok := sql.PurgeSource(source, TxOf(step), {0, 1});
  }

  // ----- what the store path held

  function PathAfter(j: Job, m: nat, p: Progress): Option<Option<Content>>
    requires j.Fits() && m <= |j.signals|
  {
    var s := After(j, m, p).store;
    if s.InFile? then Some(s.path) else None
  }

  ghost predicate HeldAfter(c: Option<Content>, j: Job, k: nat, p: Progress)
    requires j.Fits() && k <= |j.signals|
  {
    exists m: nat :: m <= k && PathAfter(j, m, p) == Some(c)
  }

  /** Every content the store path held since step `from` is what it holds
      after some whole number of signals. */
  ghost predicate Replays(disk: Disk, from: nat, j: Job, k: nat, p: Progress)
    requires j.Fits() && k <= |j.signals|
    reads disk
  {
    from <= |disk.history| && forall i :: from <= i < |disk.history| ==> HeldAfter(disk.history[i], j, k, p)
  }

  /** So a crash at any step leaves a whole file: the one before the run, or the
      one after some number of its signals. */
  lemma ReplaysMeans(disk: Disk, from: nat, j: Job, k: nat, p: Progress, i: nat)
    requires j.Fits() && k <= |j.signals| && Replays(disk, from, j, k, p) && NeverTorn(disk)
    requires from <= i < |disk.history|
    ensures disk.history[i] != Some(Torn) && disk.store != Some(Torn)
    ensures exists m: nat :: m <= k && After(j, m, p).store.InFile? && After(j, m, p).store.path == disk.history[i]
  {
    assert HeldAfter(disk.history[i], j, k, p);
    var m: nat :| m <= k && PathAfter(j, m, p) == Some(disk.history[i]);
  }

  lemma ReplaysNext(disk: Disk, from: nat, j: Job, k: nat, p: Progress,
                    trail: seq<Option<Content>>, held: Option<Content>)
    requires j.Fits() && k < |j.signals| && from <= |trail| <= |disk.history|
    requires forall i :: from <= i < |trail| ==> HeldAfter(trail[i], j, k, p)
    requires disk.history[..|trail|] == trail
    requires forall i :: |trail| <= i < |disk.history| ==> disk.history[i] == held || disk.history[i] == disk.store
    requires PathAfter(j, k, p) == Some(held) && PathAfter(j, k + 1, p) == Some(disk.store)
    ensures Replays(disk, from, j, k + 1, p)
  {
    forall i | from <= i < |disk.history|
      ensures HeldAfter(disk.history[i], j, k + 1, p)
    {
      if i < |trail| {
        assert disk.history[i] == trail[i];
        var m: nat :| m <= k && PathAfter(j, m, p) == Some(trail[i]);
        assert m <= k + 1;
      }
    }
  }

  ghost function PathHistory(st: Adapter): seq<Option<Content>>
    reads Objects(st)
  {
    if st.OnFile? then st.file.disk.history else []
  }

  ghost predicate Retraces(st: Adapter, from: nat, j: Job, k: nat, p: Progress)
    requires j.Fits() && k <= |j.signals|
    reads Objects(st)
  {
    st.OnFile? ==> Replays(st.file.disk, from, j, k, p)
  }

  /** The heap shows exactly this progress; `base` is what was posted before. */
  ghost predicate Shows(st: Adapter, sink: Sink, counts: Tally, base: seq<Finding>, p: Progress)
    reads Objects(st), sink, counts, counts.cells
  {
    && Good(st) && counts.Valid()
    && p.store == Image(st)
    && p.counts == counts.Counts()
    && sink.posts == base + p.posts
  }

  /** After k signals of the job the heap is where the fold is. */
  ghost predicate Underway(st: Adapter, sink: Sink, counts: Tally, base: seq<Finding>, from: nat,
                           j: Job, k: nat, p: Progress)
    requires j.Fits() && k <= |j.signals|
    reads Objects(st), sink, counts, counts.cells
  {
    Shows(st, sink, counts, base, After(j, k, p)) && Retraces(st, from, j, k, p)
  }

  // ----- one signal

  /** Posting a finding that reaches the realtime threshold, and counting. */
  method Send(cfg: BeaconConfig, fnd: Finding, posted: bool, sink: Sink, src: SourceStats) returns (ok: bool)
    modifies sink, src
    ensures ok <==> fnd.verdict.fit < cfg.realtime || posted
    ensures sink.posts == if fnd.verdict.fit >= cfg.realtime && posted then old(sink.posts) + [fnd] else old(sink.posts)
    ensures var before := old(src.Value());
      src.Value() ==
        if !ok then before.(errors := before.errors + 1)
        else if fnd.verdict.fit >= cfg.realtime then before.(delivered := before.delivered + 1)
        else before.(digest := before.digest + 1)
  {
    ok := true;
    if fnd.verdict.fit >= cfg.realtime {
      ok := sink.Deliver(fnd, posted);
      if !ok {
        src.errors := src.errors + 1;
        return;
      }
      src.delivered := src.delivered + 1;
    } else {
      src.digest := src.digest + 1;
    }
  }

  /** Recording a finding and counting an error when that fails. */
  method Keep(fnd: Finding, step: SaveStep, st: Adapter, src: SourceStats)
    requires Good(st)
    modifies Objects(st), src
    ensures Good(st) && fresh(Objects(st) - old(Objects(st))) && Calm(st)
    ensures Image(st) == Do(old(Image(st)), Rec(fnd), step.Completes?)
    ensures var before := old(src.Value());
      src.Value() == before.(errors := before.errors + if step.Completes? then 0 else 1)
  {
    var recorded := Record(st, fnd, step);
    if !recorded {
      src.errors := src.errors + 1;
    }
  }

  /** A kept finding: post it or leave it for the digest, then record it. */
  method Post(cfg: BeaconConfig, s: Signal, v: Verdict, fate: Fate, st: Adapter, sink: Sink, src: SourceStats)
    requires Good(st)
    modifies Objects(st), sink, src
    ensures Good(st) && fresh(Objects(st) - old(Objects(st))) && Calm(st)
    ensures var o :=
        if v.fit < cfg.realtime then Digested(v) else if fate.posted then Delivered(v) else DeliverFailed(v);
      && Image(st) == Do(old(Image(st)), OpOf(cfg.name, s, o), fate.save.Completes?)
      && sink.posts == (if o.Delivered? then old(sink.posts) + [Finding(cfg.name, s, v)] else old(sink.posts))
      && Bump(old(src.Value()), o, fate.save.Completes?) == src.Value().(classified := src.classified + 1)
  {
    var fnd := Finding(cfg.name, s, v);
    var sent := Send(cfg, fnd, fate.posted, sink, src);
    if sent {
      Keep(fnd, fate.save, st, src);
    }
  }

  /** A verdict not worth keeping: count it and mark the signal. */
  method Drop(t: Triple, step: SaveStep, st: Adapter, src: SourceStats)
    requires Good(st)
    modifies Objects(st), src
    ensures Good(st) && fresh(Objects(st) - old(Objects(st))) && Calm(st)
    ensures Image(st) == Do(old(Image(st)), Mark(t), step.Completes?)
    ensures var before := old(src.Value()); src.Value() == before.(dropped := before.dropped + 1)
  {
    src.dropped := src.dropped + 1;
    var _ := MarkSeen(st, t, step);
  }

  /** Acting on a verdict: drop the signal or keep the finding. */
  method Act(cfg: BeaconConfig, s: Signal, v: Verdict, fate: Fate, st: Adapter, sink: Sink, src: SourceStats)
    requires Good(st)
    modifies Objects(st), sink, src
    ensures Good(st) && fresh(Objects(st) - old(Objects(st))) && Calm(st)
    ensures var o := Routed(cfg, v, fate.posted);
      && Image(st) == Do(old(Image(st)), OpOf(cfg.name, s, o), fate.save.Completes?)
      && sink.posts == (if o.Delivered? then old(sink.posts) + [Finding(cfg.name, s, v)] else old(sink.posts))
      && Bump(old(src.Value()), o, fate.save.Completes?) == src.Value().(classified := src.classified + 1)
  {
    if v.bucket == "noise" || v.fit < cfg.digest {
      Drop(SignalTriple(cfg.name, s), fate.save, st, src);
    } else {
      Post(cfg, s, v, fate, st, sink, src);
    }
  }

  /** The outcome of a signal that passed every gate. */
  function Judged(cfg: BeaconConfig, fate: Fate): Outcome {
    if fate.verdict.None? then ClassifyFailed else Routed(cfg, fate.verdict.value, fate.posted)
  }

  lemma BumpClassified(c: Counters, before: Counters, after: Counters, o: Outcome, saved: bool)
    requires o.Dropped? || o.DeliverFailed? || o.Delivered? || o.Digested?
    requires before == c.(classified := c.classified + 1)
    requires Bump(before, o, saved) == after.(classified := after.classified + 1)
    ensures after == Bump(c, o, saved)
  {
  }

  /** A signal that passed the gates: classify it and act on the verdict. */
  method Classify(cfg: BeaconConfig, s: Signal, fate: Fate, st: Adapter, sink: Sink, src: SourceStats)
    requires Good(st)
    modifies Objects(st), sink, src
    ensures Good(st) && fresh(Objects(st) - old(Objects(st))) && Calm(st)
    ensures var o := Judged(cfg, fate);
      && Image(st) == Do(old(Image(st)), OpOf(cfg.name, s, o), fate.save.Completes?)
      && sink.posts == (if o.Delivered? then old(sink.posts) + [Finding(cfg.name, s, o.v)] else old(sink.posts))
      && src.Value() == Bump(old(src.Value()), o, fate.save.Completes?)
  {
    src.classified := src.classified + 1;
    if fate.verdict.None? {
      src.errors := src.errors + 1;
      return;
    }
    ghost var before := src.Value();
    Act(cfg, s, fate.verdict.value, fate, st, sink, src);
    BumpClassified(old(src.Value()), before, src.Value(), Judged(cfg, fate), fate.save.Completes?);
  }

  /** A signal the keyword gate stops: count it and mark it. */
  method FilterOut(t: Triple, step: SaveStep, st: Adapter, src: SourceStats)
    requires Good(st)
    modifies Objects(st), src
    ensures Good(st) && fresh(Objects(st) - old(Objects(st))) && Calm(st)
    ensures Image(st) == Do(old(Image(st)), Mark(t), step.Completes?)
    ensures var before := old(src.Value()); src.Value() == before.(filtered := before.filtered + 1)
  {
    src.filtered := src.filtered + 1;
    var _ := MarkSeen(st, t, step);
  }

  /** The outcome of a signal that is fresh and unseen. */
  function Gated(cfg: BeaconConfig, pre: set<string>, s: Signal, fate: Fate): Outcome {
    if s.source !in pre && !s.prenarrowed && !Filter.Match(s, cfg.keywords, cfg.filter) then Filtered
    else Judged(cfg, fate)
  }

  /** The keyword gate and what lies behind it. */
  method Gate(cfg: BeaconConfig, pre: set<string>, s: Signal, fate: Fate, st: Adapter, sink: Sink, src: SourceStats)
    requires Good(st)
    modifies Objects(st), sink, src
    ensures Good(st) && fresh(Objects(st) - old(Objects(st))) && Calm(st)
    ensures var o := Gated(cfg, pre, s, fate);
      && Image(st) == Do(old(Image(st)), OpOf(cfg.name, s, o), fate.save.Completes?)
      && sink.posts == (if o.Delivered? then old(sink.posts) + [Finding(cfg.name, s, o.v)] else old(sink.posts))
      && src.Value() == Bump(old(src.Value()), o, fate.save.Completes?)
  {
    if s.source !in pre && !s.prenarrowed && !Filter.Match(s, cfg.keywords, cfg.filter) {
      FilterOut(SignalTriple(cfg.name, s), fate.save, st, src);
    } else {
      Classify(cfg, s, fate, st, sink, src);
    }
  }

  /** One signal's way through the stages, counting through the source's
      pointer. */
  method Route(cfg: BeaconConfig, pre: set<string>, now: int, s: Signal, fate: Fate,
               st: Adapter, sink: Sink, src: SourceStats, ghost store: Store)
    requires Good(st) && store == Image(st)
    modifies Objects(st), sink, src
    ensures Good(st) && fresh(Objects(st) - old(Objects(st))) && Calm(st)
    ensures var o := OutcomeOf(cfg, pre, now, s, fate, store);
      && Image(st) == Do(store, OpOf(cfg.name, s, o), fate.save.Completes?)
      && sink.posts == (if o.Delivered? then old(sink.posts) + [Finding(cfg.name, s, o.v)] else old(sink.posts))
      && src.Value() == Bump(old(src.Value()), o, fate.save.Completes?)
  {
    if IsStale(cfg.maxAge, now, s) {
      src.stale := src.stale + 1;
      return;
    }
    var answer := Seen(st, SignalTriple(cfg.name, s), fate.seenFails);
    if answer.None? {
      src.errors := src.errors + 1;
      return;
    }
    if answer.value {
      src.seen := src.seen + 1;
      return;
    }
    Gate(cfg, pre, s, fate, st, sink, src);
  }

  /** The stages again, seen from the tally that owns the source's pointer;
      `start` is the tally before the pointer was asked for. */
  method RouteCounted(cfg: BeaconConfig, pre: set<string>, now: int, s: Signal, fate: Fate,
                      st: Adapter, sink: Sink, counts: Tally, src: SourceStats, ghost start: map<string, Counters>)
    requires Good(st) && counts.Valid() && s.source in counts.m && counts.m[s.source] == src
    requires counts.Counts() == start[s.source := src.Value()]
    modifies Objects(st), sink, src
    ensures Good(st) && fresh(Objects(st) - old(Objects(st))) && Calm(st)
    ensures var o, saved := OutcomeOf(cfg, pre, now, s, fate, old(Image(st))), fate.save.Completes?;
      && Image(st) == Do(old(Image(st)), OpOf(cfg.name, s, o), saved)
      && sink.posts == (if o.Delivered? then old(sink.posts) + [Finding(cfg.name, s, o.v)] else old(sink.posts))
      && counts.Valid() && counts.Counts() == start[s.source := Bump(old(src.Value()), o, saved)]
    ensures unchanged(counts)
  {
    ghost var before := counts.Counts();
    Route(cfg, pre, now, s, fate, st, sink, src, Image(st));
    counts.Moved(start, before, s.source, src);
  }

  /** The body of the signal loop. */
  method Process(cfg: BeaconConfig, pre: set<string>, now: int, s: Signal, fate: Fate,
                 st: Adapter, sink: Sink, counts: Tally)
    requires Good(st) && counts.Valid()
    modifies Objects(st), sink, counts, counts.cells
    ensures Good(st) && fresh(Objects(st) - old(Objects(st))) && Calm(st)
    ensures counts.Valid() && fresh(counts.cells - old(counts.cells))
    ensures var o, saved := OutcomeOf(cfg, pre, now, s, fate, old(Image(st))), fate.save.Completes?;
      && Image(st) == Do(old(Image(st)), OpOf(cfg.name, s, o), saved)
      && sink.posts == (if o.Delivered? then old(sink.posts) + [Finding(cfg.name, s, o.v)] else old(sink.posts))
      && counts.Counts() ==
           old(counts.Counts())[s.source := Bump(Engine.At(old(counts.Counts()), s.source), o, saved)]
  {
    var src := counts.At(s.source);
    RouteCounted(cfg, pre, now, s, fate, st, sink, counts, src, old(counts.Counts()));
  }

  /** Counting one fetch under its fetcher's name. */
  method FetchOne(f: Fetcher, one: Fetched, counts: Tally)
    requires counts.Valid()
    modifies counts, counts.cells
    ensures counts.Valid() && fresh(counts.cells - old(counts.cells))
    ensures counts.Counts() == CountFetch(old(counts.Counts()), f, one)
  {
    var src := counts.At(f.name);
    ghost var before := counts.Counts();
    src.CountFetch(one);
    counts.Moved(old(counts.Counts()), before, f.name, src);
  }

  /** A pause before one of the later fetches finds the context cancelled. */
  predicate Stopped(n: nat, spacing: int, stopAt: Option<nat>) {
    spacing > 0 && stopAt.Some? && 0 < stopAt.value < n
  }

  /** The fetch phase. `stopAt` is the first pause, if any, that finds the
      context cancelled; there is no pause before the first fetch, and none at
      all without spacing. */
  method FetchAll(fetchers: seq<Fetcher>, got: seq<Fetched>, spacing: int, stopAt: Option<nat>, counts: Tally)
    returns (signals: seq<Signal>, reached: nat)
    requires |got| == |fetchers| && counts.Valid() && counts.Counts() == map[] && counts.cells == {}
    modifies counts
    ensures reached ==
      if spacing > 0 && stopAt.Some? && 0 < stopAt.value < |fetchers| then stopAt.value else |fetchers|
    ensures signals == Collected(got[..reached])
    ensures counts.Valid() && counts.Counts() == FetchCounts(fetchers, got[..reached])
    ensures fresh(counts.cells)
  {
    signals := [];
    for i := 0 to |fetchers|
      invariant counts.Valid() && fresh(counts.cells)
      invariant Stopped(|fetchers|, spacing, stopAt) ==> i <= stopAt.value
      invariant signals == Collected(got[..i])
      invariant counts.Counts() == FetchCounts(fetchers, got[..i])
    {
      if i > 0 && spacing > 0 && stopAt == Some(i) {
        return signals, i;
      }
      assert got[..i + 1][..i] == got[..i];
      FetchOne(fetchers[i], got[i], counts);
      signals := signals + got[i].signals;
    }
    assert got[..|fetchers|] == got;
    reached := |fetchers|;
  }

  /** One turn of the signal loop. */
  method HandleOne(j: Job, k: nat, st: Adapter, sink: Sink, counts: Tally,
                   ghost base: seq<Finding>, ghost from: nat, ghost p: Progress)
    requires j.Fits() && k < |j.signals| && Underway(st, sink, counts, base, from, j, k, p)
    modifies Objects(st), sink, counts, counts.cells
    ensures Underway(st, sink, counts, base, from, j, k + 1, p)
    ensures fresh(Objects(st) - old(Objects(st)))
    ensures fresh(counts.cells - old(counts.cells))
  {
    ghost var trail, held := PathHistory(st), if st.OnFile? then st.file.disk.store else None;
    Process(j.cfg, j.pre, j.now, j.signals[k], j.fates[k], st, sink, counts);
    if st.OnFile? {
      ReplaysNext(st.file.disk, from, j, k, p, trail, held);
    }
  }

  /** The signal loop, from wherever the fold starts. */
  method HandleAll(j: Job, st: Adapter, sink: Sink, counts: Tally,
                   ghost base: seq<Finding>, ghost from: nat, ghost p: Progress)
    requires j.Fits() && Underway(st, sink, counts, base, from, j, 0, p)
    modifies Objects(st), sink, counts, counts.cells
    ensures Underway(st, sink, counts, base, from, j, |j.signals|, p)
    ensures fresh(Objects(st) - old(Objects(st))) && fresh(counts.cells - old(counts.cells))
  {
    for k := 0 to |j.signals|
      invariant Underway(st, sink, counts, base, from, j, k, p)
      invariant fresh(Objects(st) - old(Objects(st))) && fresh(counts.cells - old(counts.cells))
    {
      HandleOne(j, k, st, sink, counts, base, from, p);
    }
  }

  /** The signal loop on a whole run's signals, and the roll-up after it. */
  method RunSignals(j: Job, st: Adapter, sink: Sink, counts: Tally) returns (stats: Stats)
    requires j.Fits() && Good(st) && counts.Valid()
    modifies Objects(st), sink, counts, counts.cells
    ensures Good(st) && fresh(Objects(st) - old(Objects(st)))
    ensures var p := Progress(old(Image(st)), old(counts.Counts()), [], []);
      var end := After(j, |j.signals|, p);
      && Image(st) == end.store && sink.posts == old(sink.posts) + end.posts
      && stats == Stats(Sum(end.counts), end.counts)
      && Retraces(st, |old(PathHistory(st))|, j, |j.signals|, p)
  {
    ghost var p := Progress(Image(st), counts.Counts(), [], []);
    assert sink.posts == sink.posts + [];
    HandleAll(j, st, sink, counts, sink.posts, |PathHistory(st)|, p);
    stats := counts.Rollup();
  }

  datatype RunError = Ok | NilPort | BadMaxAge | Cancelled

  /** A run whose ports are set and whose max_age parses: fetch, and unless a
      pause finds the context cancelled handle the signals. */
  method RunWired(cfg: BeaconConfig, st: Adapter, sink: Sink, fetchers: seq<Fetcher>, got: seq<Fetched>, spacing: int,
                  stopAt: Option<nat>, now: int, fates: seq<Fate>)
    returns (stats: Stats, ok: bool)
    requires |got| == |fetchers| && |fates| == |Collected(got)| && Good(st)
    modifies Objects(st), sink
    ensures Good(st) && fresh(Objects(st) - old(Objects(st)))
    ensures ok <==> !(spacing > 0 && stopAt.Some? && 0 < stopAt.value < |fetchers|)
    ensures !ok ==> unchanged(old(Objects(st))) && unchanged(sink)
    ensures !ok ==> stats.bySource == FetchCounts(fetchers, got[..stopAt.value])
    ensures ok ==>
      var run := Run(cfg, fetchers, got, now, fates, old(Image(st)));
      && Image(st) == run.store
      && sink.posts == old(sink.posts) + run.posts
      && stats.bySource == run.counts
      && Retraces(st, |old(PathHistory(st))|, JobOf(cfg, fetchers, got, now, fates), |fates|,
                  Progress(old(Image(st)), FetchCounts(fetchers, got), [], []))
    ensures stats.total == Sum(stats.bySource)
  {
    var counts := new Tally();
    var signals, reached := FetchAll(fetchers, got, spacing, stopAt, counts);
    if reached < |fetchers| {
      stats := counts.Rollup();
      return stats, false;
    }
    assert got[..|fetchers|] == got;
    stats := RunSignals(JobOf(cfg, fetchers, got, now, fates), st, sink, counts);
    ok := true;
  }

  /** RunBeacon. One store is both the deduper and the recorder, as wired in
      cmd/sos-beacon/main.go; the flags tell which of the ports are set. */
  method RunBeacon(cfg: BeaconConfig, st: Adapter, deduper: bool, recorder: bool, classifier: bool, sink: Sink?,
                   fetchers: seq<Fetcher>, got: seq<Fetched>, spacing: int, stopAt: Option<nat>,
                   now: int, fates: seq<Fate>)
    returns (stats: Stats, err: RunError)
    requires |got| == |fetchers| && |fates| == |Collected(got)|
    requires Good(st)
    modifies Objects(st), sink
    ensures err == NilPort <==> !deduper || !recorder || !classifier || sink == null
    ensures err == BadMaxAge <==> err != NilPort && cfg.maxAge == Malformed
    ensures err == Cancelled <==>
      err != NilPort && err != BadMaxAge && spacing > 0 && stopAt.Some? && 0 < stopAt.value < |fetchers|
    ensures Good(st) && fresh(Objects(st) - old(Objects(st)))
    ensures err != Ok ==> unchanged(old(Objects(st)))
    ensures err != Ok && sink != null ==> unchanged(sink)
    ensures err.NilPort? || err.BadMaxAge? ==> stats == Stats(ZERO, map[])
    ensures err == Cancelled ==> stats.bySource == FetchCounts(fetchers, got[..stopAt.value])
    ensures err.Ok? ==>
      var run := Run(cfg, fetchers, got, now, fates, old(Image(st)));
      && Image(st) == run.store
      && sink.posts == old(sink.posts) + run.posts
      && stats.bySource == run.counts
      && Retraces(st, |old(PathHistory(st))|, JobOf(cfg, fetchers, got, now, fates), |fates|,
                  Progress(old(Image(st)), FetchCounts(fetchers, got), [], []))
    ensures stats.total == Sum(stats.bySource)
  {
    if !deduper || !recorder || !classifier || sink == null {
      return Stats(ZERO, map[]), NilPort;
    }
    if cfg.maxAge.Malformed? {
      return Stats(ZERO, map[]), BadMaxAge;
    }
    var ok;
    stats, ok := RunWired(cfg, st, sink, fetchers, got, spacing, stopAt, now, fates);
    err := if ok then Ok else Cancelled;
  }
}
