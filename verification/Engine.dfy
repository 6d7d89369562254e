/** The pipeline of internal/engine/engine.go as a fold of a one-signal step
    over whatever the outside world answers. */
module Engine {
  import opened Core
  import opened Keys
  import opened StoreState
  import opened Backend
  import Filter

  /** One source's funnel (SourceStats). */
  datatype Counters = Counters(
    fetched: nat, stale: nat, seen: nat, filtered: nat, classified: nat,
    delivered: nat, digest: nat, dropped: nat, errors: nat)

  const ZERO := Counters(0, 0, 0, 0, 0, 0, 0, 0, 0)

  function Add(a: Counters, b: Counters): Counters {
    Counters(a.fetched + b.fetched, a.stale + b.stale, a.seen + b.seen, a.filtered + b.filtered,
             a.classified + b.classified, a.delivered + b.delivered, a.digest + b.digest,
             a.dropped + b.dropped, a.errors + b.errors)
  }

  /** What the outside world does with one signal. Each of these calls happens
      at most once per signal, so a sequence of fates covers every run. */
  datatype Fate = Fate(seenFails: bool, verdict: Option<Verdict>, posted: bool, save: SaveStep)

  /** Where one signal ended. */
  datatype Outcome =
    | Stale | SeenFailed | AlreadySeen | Filtered | ClassifyFailed
    | Dropped(v: Verdict) | DeliverFailed(v: Verdict) | Delivered(v: Verdict) | Digested(v: Verdict)

  /** An outcome that takes the signal out of circulation. */
  predicate Settles(o: Outcome) { o.Filtered? || o.Dropped? || o.Delivered? || o.Digested? }

  predicate IsStale(age: MaxAge, now: int, s: Signal) {
    age.Age? && age.nanos > 0 && s.createdAt.Some? && now - s.createdAt.value > age.nanos
  }

  function Decide(cfg: BeaconConfig, pre: set<string>, now: int, s: Signal, answer: Option<bool>, fate: Fate): Outcome {
    if IsStale(cfg.maxAge, now, s) then Stale
    else if answer.None? then SeenFailed
    else if answer.value then AlreadySeen
    else if s.source !in pre && !s.prenarrowed && !Filter.Match(s, cfg.keywords, cfg.filter) then Filtered
    else if fate.verdict.None? then ClassifyFailed
    else Routed(cfg, fate.verdict.value, fate.posted)
  }

  /** Where a verdict sends its signal. */
  function Routed(cfg: BeaconConfig, v: Verdict, posted: bool): Outcome {
    if v.bucket == "noise" || v.fit < cfg.digest then Dropped(v)
    else if v.fit >= cfg.realtime then (if posted then Delivered(v) else DeliverFailed(v))
    else Digested(v)
  }

  function SignalTriple(beacon: string, s: Signal): Triple { Triple(beacon, s.source, s.id) }

  /** The write an outcome causes. */
  function OpOf(beacon: string, s: Signal, o: Outcome): StoreOp {
    match o
    case Filtered => Mark(SignalTriple(beacon, s))
    case Dropped(_) => Mark(SignalTriple(beacon, s))
    case Delivered(v) => Rec(Finding(beacon, s, v))
    case Digested(v) => Rec(Finding(beacon, s, v))
    case _ => Nothing
  }

  /** The counters after one more signal ended with this outcome. */
  function Bump(c: Counters, o: Outcome, saved: bool): Counters {
    match o
    case Stale => c.(stale := c.stale + 1)
    case SeenFailed => c.(errors := c.errors + 1)
    case AlreadySeen => c.(seen := c.seen + 1)
    case Filtered => c.(filtered := c.filtered + 1)
    case ClassifyFailed => c.(classified := c.classified + 1, errors := c.errors + 1)
    case Dropped(_) => c.(classified := c.classified + 1, dropped := c.dropped + 1)
    case DeliverFailed(_) => c.(classified := c.classified + 1, errors := c.errors + 1)
    case Delivered(_) =>
      c.(classified := c.classified + 1, delivered := c.delivered + 1, errors := c.errors + if saved then 0 else 1)
    case Digested(_) =>
      c.(classified := c.classified + 1, digest := c.digest + 1, errors := c.errors + if saved then 0 else 1)
  }

  /** tally.at: a source's counters, zero on first sight. */
  function At(m: map<string, Counters>, source: string): Counters {
    if source in m then m[source] else ZERO
  }

  datatype Progress = Progress(store: Store, counts: map<string, Counters>, posts: seq<Finding>, outcomes: seq<Outcome>)

  function OutcomeOf(cfg: BeaconConfig, pre: set<string>, now: int, s: Signal, fate: Fate, store: Store): Outcome {
    Decide(cfg, pre, now, s, Lookup(store, SignalTriple(cfg.name, s), fate.seenFails), fate)
  }

  /** One iteration of the signal loop. */
  function Step(cfg: BeaconConfig, pre: set<string>, now: int, s: Signal, fate: Fate, p: Progress): Progress {
    var o := OutcomeOf(cfg, pre, now, s, fate, p.store);
    var saved := fate.save.Completes?;
    Progress(
      Do(p.store, OpOf(cfg.name, s, o), saved),
      p.counts[s.source := Bump(At(p.counts, s.source), o, saved)],
      if o.Delivered? then p.posts + [Finding(cfg.name, s, o.v)] else p.posts,
      p.outcomes + [o])
  }

  /** The inputs of one pass through the signal loop. */
  datatype Job = Job(cfg: BeaconConfig, pre: set<string>, now: int, signals: seq<Signal>, fates: seq<Fate>)
  {
    predicate Fits() { |signals| == |fates| }

    function TripleAt(i: nat): Triple
      requires i < |signals|
    {
      SignalTriple(cfg.name, signals[i])
    }
  }

  /** One signal that passes every gate, with a sure verdict of this bucket. */
  function Sample(beacon: string, source: string, id: string, bucket: string): Job {
    Job(BeaconConfig(beacon, [], "", NoGate, 1.0, 0.0), {source}, 0,
        [Signal(source, id, "", "", "", "", "", [], [], 0, 0, None, 0, false)],
        [Fate(false, Some(Verdict(bucket, map[], 1.0, "", "")), true, Completes)])
  }

  /** The signal loop after its first k iterations. */
  function After(j: Job, k: nat, p: Progress): Progress
    requires j.Fits() && k <= |j.signals|
  {
    if k == 0 then p
    else Step(j.cfg, j.pre, j.now, j.signals[k - 1], j.fates[k - 1], After(j, k - 1, p))
  }

  // ----- the fetch phase

  datatype Fetcher = Fetcher(name: string, prefilters: bool)

  /** What one Fetch returned: signals, possibly together with an error. */
  datatype Fetched = Fetched(signals: seq<Signal>, failed: bool)

  function Collected(got: seq<Fetched>): seq<Signal> {
    if got == [] then [] else Collected(got[..|got| - 1]) + got[|got| - 1].signals
  }

  function FetchCounts(fetchers: seq<Fetcher>, got: seq<Fetched>): map<string, Counters>
    requires |got| <= |fetchers|
  {
    if got == [] then map[]
    else
      var n := |got| - 1;
      CountFetch(FetchCounts(fetchers, got[..n]), fetchers[n], got[n])
  }

  function CountFetch(m: map<string, Counters>, f: Fetcher, one: Fetched): map<string, Counters> {
    m[f.name := AddFetch(At(m, f.name), one)]
  }

  function AddFetch(c: Counters, one: Fetched): Counters {
    c.(fetched := c.fetched + |one.signals|, errors := c.errors + if one.failed then 1 else 0)
  }

  function Prefiltered(fetchers: seq<Fetcher>): set<string> {
    set f | f in fetchers && f.prefilters :: f.name
  }

  function JobOf(cfg: BeaconConfig, fetchers: seq<Fetcher>, got: seq<Fetched>, now: int, fates: seq<Fate>): Job {
    Job(cfg, Prefiltered(fetchers), now, Collected(got), fates)
  }

  /** A whole uncancelled run: all fetches, then all signals. */
  function Run(cfg: BeaconConfig, fetchers: seq<Fetcher>, got: seq<Fetched>, now: int, fates: seq<Fate>, store: Store)
    : Progress
    requires |got| == |fetchers| && |fates| == |Collected(got)|
  {
    After(JobOf(cfg, fetchers, got, now, fates), |fates|, Progress(store, FetchCounts(fetchers, got), [], []))
  }

  // ----- column sums

  /** The sum of all counters in a tally; the key it peels off first is
      arbitrary. */
  ghost function Sum(m: map<string, Counters>): Counters
    decreases |m|
  {
    if m == map[] then ZERO
    else
      var k :| k in m;
      assert |m - {k}| < |m| by { assert (m - {k}).Keys == m.Keys - {k}; }
      Add(m[k], Sum(m - {k}))
  }

  lemma AddSwap(a: Counters, b: Counters, c: Counters)
    ensures Add(a, Add(b, c)) == Add(b, Add(a, c))
  {
  }

  /** Any key may be peeled off first: the sum does not depend on map order. */
  lemma {:induction false} SumPeel(m: map<string, Counters>, k: string)
    requires k in m
    ensures Sum(m) == Add(m[k], Sum(m - {k}))
    decreases |m|
  {
    var j :| j in m && Sum(m) == Add(m[j], Sum(m - {j}));
    if j != k {
      var mj, mk := m - {j}, m - {k};
      assert mj.Keys == m.Keys - {j} && mk.Keys == m.Keys - {k};
      SumPeel(mj, k);
      SumPeel(mk, j);
      assert mj - {k} == mk - {j};
      AddSwap(m[j], m[k], Sum(mj - {k}));
    }
  }

  /** Replacing one source's counters changes the sum by just that much. */
  lemma SumUpdate(m: map<string, Counters>, k: string, c: Counters)
    ensures Sum(m[k := c]) == Add(c, Sum(m - {k}))
    ensures Sum(m) == Add(At(m, k), Sum(m - {k}))
  {
    var after := m[k := c];
    assert after - {k} == m - {k};
    SumPeel(after, k);
    if k in m {
      SumPeel(m, k);
    } else {
      assert m - {k} == m;
      AddZero(Sum(m));
    }
  }

  lemma AddCommutes(a: Counters, b: Counters)
    ensures Add(a, b) == Add(b, a)
  {
  }

  lemma AddSum(m: map<string, Counters>, k: string, c: Counters)
    requires k !in m
    ensures Sum(m[k := c]) == Add(Sum(m), c)
  {
    SumUpdate(m, k, c);
    assert m - {k} == m;
    AddCommutes(c, Sum(m));
  }

  lemma AddZero(c: Counters)
    ensures Add(ZERO, c) == c
  {
  }
}
