/** What every run of the pipeline guarantees on either store, for any signals
    and any failures. */
module EngineLaws {
  import opened Core
  import opened Keys
  import opened StoreState
  import opened Backend
  import opened Engine
  import Filter

  lemma {:induction false} OutcomesGrow(j: Job, i: nat, k: nat, p: Progress)
    requires j.Fits() && i <= k <= |j.signals| && p.outcomes == []
    ensures |After(j, i, p).outcomes| == i && |After(j, k, p).outcomes| == k
    ensures After(j, k, p).outcomes[..i] == After(j, i, p).outcomes
    decreases k
  {
    if i < k {
      OutcomesGrow(j, i, k - 1, p);
    } else if k > 0 {
      OutcomesGrow(j, k - 1, k - 1, p);
    }
  }

  /** The i-th signal's outcome, decided against the store as the first i
      signals left it. */
  function Here(j: Job, i: nat, p: Progress): Outcome
    requires j.Fits() && i < |j.signals|
  {
    OutcomeOf(j.cfg, j.pre, j.now, j.signals[i], j.fates[i], After(j, i, p).store)
  }

  ghost predicate Explains(j: Job, p: Progress, outcomes: seq<Outcome>)
    requires j.Fits()
  {
    |outcomes| == |j.signals| && forall i :: 0 <= i < |outcomes| ==> outcomes[i] == Here(j, i, p)
  }

  lemma OutcomesExplained(j: Job, p: Progress)
    requires j.Fits() && p.outcomes == []
    ensures Explains(j, p, After(j, |j.signals|, p).outcomes)
  {
    var n := |j.signals|;
    OutcomesGrow(j, n, n, p);
    forall i | 0 <= i < n
      ensures After(j, n, p).outcomes[i] == Here(j, i, p)
    {
      OutcomesGrow(j, i + 1, n, p);
      OutcomesGrow(j, i, i, p);
      assert After(j, n, p).outcomes[..i + 1][i] == After(j, i + 1, p).outcomes[i];
    }
  }

  // ----- a run as a trace of progresses

  function StepOn(j: Job, i: nat, q: Progress): Progress
    requires j.Fits() && i < |j.signals|
  {
    Step(j.cfg, j.pre, j.now, j.signals[i], j.fates[i], q)
  }

  ghost predicate Trace(j: Job, outcomes: seq<Outcome>, ps: seq<Progress>, k: nat)
    requires j.Fits() && k <= |j.signals| == |outcomes|
  {
    |ps| == k + 1 && forall i: nat :: i < k ==> TraceAt(j, outcomes, ps, i)
  }

  ghost predicate TraceAt(j: Job, outcomes: seq<Outcome>, ps: seq<Progress>, i: nat)
    requires j.Fits() && i < |j.signals| == |outcomes| && i + 1 < |ps|
  {
    && ps[i + 1] == StepOn(j, i, ps[i])
    && outcomes[i] == OutcomeOf(j.cfg, j.pre, j.now, j.signals[i], j.fates[i], ps[i].store)
  }

  lemma {:induction false} TraceOf(j: Job, k: nat, p: Progress, outcomes: seq<Outcome>) returns (ps: seq<Progress>)
    requires j.Fits() && k <= |j.signals| && Explains(j, p, outcomes)
    ensures Trace(j, outcomes, ps, k)
    ensures forall i: nat :: i <= k ==> ps[i] == After(j, i, p)
  {
    if k == 0 {
      ps := [p];
    } else {
      var before := TraceOf(j, k - 1, p, outcomes);
      ps := before + [StepOn(j, k - 1, before[k - 1])];
      forall i: nat | i < k ensures TraceAt(j, outcomes, ps, i) {
        assert i < k - 1 ==> TraceAt(j, outcomes, before, i);
      }
    }
  }

  // ----- funnel conservation

  /** How the signals of one source, or of all sources, ended. */
  datatype Ledger = Ledger(
    handled: nat, stale: nat, seenErrors: nat, seen: nat, filtered: nat, classifyErrors: nat,
    dropped: nat, deliverErrors: nat, delivered: nat, digest: nat, recordErrors: nat)

  const BLANK := Ledger(0, 0, 0, 0, 0, 0, 0, 0, 0, 0, 0)

  function One(b: bool): nat { if b then 1 else 0 }

  function Enter(l: Ledger, o: Outcome, saved: bool): Ledger {
    Ledger(l.handled + 1, l.stale + One(o.Stale?), l.seenErrors + One(o.SeenFailed?), l.seen + One(o.AlreadySeen?),
           l.filtered + One(o.Filtered?), l.classifyErrors + One(o.ClassifyFailed?), l.dropped + One(o.Dropped?),
           l.deliverErrors + One(o.DeliverFailed?), l.delivered + One(o.Delivered?), l.digest + One(o.Digested?),
           l.recordErrors + One((o.Delivered? || o.Digested?) && !saved))
  }

  predicate Covers(which: Option<string>, source: string) { which.None? || which.value == source }

  function LedgerOf(which: Option<string>, j: Job, outcomes: seq<Outcome>, k: nat): Ledger
    requires j.Fits() && k <= |j.signals| && k <= |outcomes|
  {
    if k == 0 then BLANK
    else
      var l := LedgerOf(which, j, outcomes, k - 1);
      if Covers(which, j.signals[k - 1].source)
      then Enter(l, outcomes[k - 1], j.fates[k - 1].save.Completes?)
      else l
  }

  function FetchErrors(which: Option<string>, fetchers: seq<Fetcher>, got: seq<Fetched>): nat
    requires |got| <= |fetchers|
  {
    if got == [] then 0
    else
      var n := |got| - 1;
      FetchErrors(which, fetchers, got[..n]) + if got[n].failed && Covers(which, fetchers[n].name) then 1 else 0
  }

  /** The counters of one source, or the column sums. */
  ghost function Column(which: Option<string>, m: map<string, Counters>): Counters {
    if which.None? then Sum(m) else At(m, which.value)
  }

  /** Every counter says how many signals ended that way. */
  ghost predicate Balanced(c: Counters, fetchErrors: nat, l: Ledger) {
    && c.stale == l.stale && c.seen == l.seen && c.filtered == l.filtered && c.dropped == l.dropped
    && c.delivered == l.delivered && c.digest == l.digest
    && c.classified == l.classifyErrors + l.dropped + l.deliverErrors + l.delivered + l.digest
    && c.errors == fetchErrors + l.seenErrors + l.classifyErrors + l.deliverErrors + l.recordErrors
    && l.handled == l.stale + l.seenErrors + l.seen + l.filtered + l.classifyErrors + l.dropped
                  + l.deliverErrors + l.delivered + l.digest
  }

  lemma ColumnBump(which: Option<string>, m: map<string, Counters>, source: string, o: Outcome, saved: bool)
    ensures Column(which, m[source := Bump(At(m, source), o, saved)])
         == if Covers(which, source) then Bump(Column(which, m), o, saved) else Column(which, m)
  {
    if which.None? {
      SumUpdate(m, source, Bump(At(m, source), o, saved));
      BumpAdds(At(m, source), Sum(m - {source}), o, saved);
    }
  }

  lemma BumpAdds(a: Counters, rest: Counters, o: Outcome, saved: bool)
    ensures Add(Bump(a, o, saved), rest) == Bump(Add(a, rest), o, saved)
  {
  }

  lemma BumpBalances(c: Counters, fetchErrors: nat, l: Ledger, o: Outcome, saved: bool)
    requires Balanced(c, fetchErrors, l)
    ensures Balanced(Bump(c, o, saved), fetchErrors, Enter(l, o, saved))
    ensures Bump(c, o, saved).fetched == c.fetched
  {
  }

  /** Successive values of one column while the signals are handled. */
  ghost predicate ColumnValues(which: Option<string>, j: Job, outcomes: seq<Outcome>, cs: seq<Counters>)
    requires j.Fits() && |outcomes| == |j.signals|
  {
    |cs| == |j.signals| + 1 && forall i: nat :: i < |j.signals| ==> MovesAt(which, j, outcomes, cs, i)
  }

  ghost predicate MovesAt(which: Option<string>, j: Job, outcomes: seq<Outcome>, cs: seq<Counters>, i: nat)
    requires j.Fits() && i < |j.signals| == |outcomes| && i + 1 < |cs|
  {
    cs[i + 1] == Moved(which, j, i, outcomes[i], cs[i])
  }

  /** A column after signal i, which may or may not be in it. */
  function Moved(which: Option<string>, j: Job, i: nat, o: Outcome, c: Counters): Counters
    requires j.Fits() && i < |j.signals|
  {
    if Covers(which, j.signals[i].source) then Bump(c, o, j.fates[i].save.Completes?) else c
  }

  lemma {:induction false} BalancedFold(which: Option<string>, j: Job, outcomes: seq<Outcome>, cs: seq<Counters>,
                                        k: nat, fetchErrors: nat)
    requires j.Fits() && k <= |j.signals| == |outcomes| && ColumnValues(which, j, outcomes, cs)
    requires Balanced(cs[0], fetchErrors, BLANK)
    ensures Balanced(cs[k], fetchErrors, LedgerOf(which, j, outcomes, k))
    ensures cs[k].fetched == cs[0].fetched
  {
    if k > 0 {
      var i := k - 1;
      BalancedFold(which, j, outcomes, cs, i, fetchErrors);
      assert MovesAt(which, j, outcomes, cs, i);
      BumpBalances(cs[i], fetchErrors, LedgerOf(which, j, outcomes, i), outcomes[i], j.fates[i].save.Completes?);
    }
  }

  lemma StepColumn(which: Option<string>, j: Job, i: nat, q: Progress)
    requires j.Fits() && i < |j.signals|
    ensures var o := OutcomeOf(j.cfg, j.pre, j.now, j.signals[i], j.fates[i], q.store);
      Column(which, StepOn(j, i, q).counts) == Moved(which, j, i, o, Column(which, q.counts))
  {
    var o := OutcomeOf(j.cfg, j.pre, j.now, j.signals[i], j.fates[i], q.store);
    ColumnBump(which, q.counts, j.signals[i].source, o, j.fates[i].save.Completes?);
  }

  lemma {:induction false} ColumnsOf(which: Option<string>, j: Job, k: nat, outcomes: seq<Outcome>, ps: seq<Progress>)
    returns (cs: seq<Counters>)
    requires j.Fits() && k <= |j.signals| == |outcomes| && Trace(j, outcomes, ps, |j.signals|)
    ensures |cs| == k + 1 && cs[0] == Column(which, ps[0].counts) && cs[k] == Column(which, ps[k].counts)
    ensures forall i: nat :: i < k ==> MovesAt(which, j, outcomes, cs, i)
  {
    if k == 0 {
      cs := [Column(which, ps[0].counts)];
    } else {
      var before := ColumnsOf(which, j, k - 1, outcomes, ps);
      assert TraceAt(j, outcomes, ps, k - 1);
      StepColumn(which, j, k - 1, ps[k - 1]);
      cs := before + [Column(which, ps[k].counts)];
      forall i: nat | i < k ensures MovesAt(which, j, outcomes, cs, i) {
        assert i < k - 1 ==> MovesAt(which, j, outcomes, before, i);
      }
    }
  }

  function FetchedUnder(which: Option<string>, fetchers: seq<Fetcher>, got: seq<Fetched>): nat
    requires |got| <= |fetchers|
  {
    if got == [] then 0
    else
      var n := |got| - 1;
      FetchedUnder(which, fetchers, got[..n]) + if Covers(which, fetchers[n].name) then |got[n].signals| else 0
  }

  lemma AddFetchAdds(a: Counters, rest: Counters, one: Fetched)
    ensures Add(AddFetch(a, one), rest) == AddFetch(Add(a, rest), one)
  {
  }

  lemma FetchColumn(which: Option<string>, m: map<string, Counters>, f: Fetcher, one: Fetched)
    ensures Column(which, CountFetch(m, f, one))
         == if Covers(which, f.name) then AddFetch(Column(which, m), one) else Column(which, m)
  {
    if which.None? {
      SumUpdate(m, f.name, AddFetch(At(m, f.name), one));
      AddFetchAdds(At(m, f.name), Sum(m - {f.name}), one);
    }
  }

  lemma {:induction false} FetchPhase(which: Option<string>, fetchers: seq<Fetcher>, got: seq<Fetched>)
    requires |got| <= |fetchers|
    ensures Column(which, FetchCounts(fetchers, got))
         == ZERO.(fetched := FetchedUnder(which, fetchers, got), errors := FetchErrors(which, fetchers, got))
  {
    if got != [] {
      var n := |got| - 1;
      FetchPhase(which, fetchers, got[..n]);
      FetchColumn(which, FetchCounts(fetchers, got[..n]), fetchers[n], got[n]);
    }
  }

  /** Every fetcher stamps its own name on what it returns. */
  ghost predicate Stamped(fetchers: seq<Fetcher>, got: seq<Fetched>)
    requires |got| <= |fetchers|
  {
    forall i, s :: 0 <= i < |got| && s in got[i].signals ==> s.source == fetchers[i].name
  }

  function CountCovered(which: Option<string>, signals: seq<Signal>): nat {
    if signals == [] then 0
    else CountCovered(which, signals[..|signals| - 1]) + if Covers(which, signals[|signals| - 1].source) then 1 else 0
  }

  lemma {:induction false} CountConcat(which: Option<string>, a: seq<Signal>, b: seq<Signal>)
    ensures CountCovered(which, a + b) == CountCovered(which, a) + CountCovered(which, b)
  {
    if b == [] {
      assert a + b == a;
    } else {
      assert (a + b)[..|a + b| - 1] == a + b[..|b| - 1];
      CountConcat(which, a, b[..|b| - 1]);
    }
  }

  lemma {:induction false} CountUniform(which: Option<string>, signals: seq<Signal>, name: string)
    requires which.None? || forall s :: s in signals ==> s.source == name
    ensures CountCovered(which, signals) == if Covers(which, name) then |signals| else 0
  {
    if signals != [] {
      assert signals[|signals| - 1] in signals;
      CountUniform(which, signals[..|signals| - 1], name);
    }
  }

  lemma {:induction false} FetchedMeansCollected(which: Option<string>, fetchers: seq<Fetcher>, got: seq<Fetched>)
    requires |got| <= |fetchers| && (which.None? || Stamped(fetchers, got))
    ensures FetchedUnder(which, fetchers, got) == CountCovered(which, Collected(got))
  {
    if got != [] {
      var n := |got| - 1;
      FetchedMeansCollected(which, fetchers, got[..n]);
      CountConcat(which, Collected(got[..n]), got[n].signals);
      CountUniform(which, got[n].signals, fetchers[n].name);
    }
  }

  lemma {:induction false} HandledIsCovered(which: Option<string>, j: Job, outcomes: seq<Outcome>, k: nat)
    requires j.Fits() && k <= |j.signals| && k <= |outcomes|
    ensures LedgerOf(which, j, outcomes, k).handled == CountCovered(which, j.signals[..k])
  {
    if k > 0 {
      HandledIsCovered(which, j, outcomes, k - 1);
      assert j.signals[..k][..k - 1] == j.signals[..k - 1];
    }
  }

  /** Nothing leaks from the funnel, whatever fails: every counter is exact, and
      what came in equals what went out; for the totals always, and for a single
      source when fetchers stamp their own name. */
  lemma FunnelConservation(which: Option<string>, cfg: BeaconConfig, fetchers: seq<Fetcher>, got: seq<Fetched>,
                           now: int, fates: seq<Fate>, store: Store)
    requires |got| == |fetchers| && |fates| == |Collected(got)|
    requires which.None? || Stamped(fetchers, got)
    ensures var run := Run(cfg, fetchers, got, now, fates, store);
      var j := JobOf(cfg, fetchers, got, now, fates);
      && |run.outcomes| == |j.signals|
      && var c, l := Column(which, run.counts), LedgerOf(which, j, run.outcomes, |j.signals|);
      && Balanced(c, FetchErrors(which, fetchers, got), l)
      && c.fetched + FetchErrors(which, fetchers, got) + l.recordErrors
           == c.stale + c.seen + c.filtered + c.dropped + c.delivered + c.digest + c.errors
      && c.classified == c.dropped + c.delivered + c.digest + l.classifyErrors + l.deliverErrors
  {
    var j := JobOf(cfg, fetchers, got, now, fates);
    var p := Progress(store, FetchCounts(fetchers, got), [], []);
    var outcomes := After(j, |fates|, p).outcomes;
    OutcomesExplained(j, p);
    FetchPhase(which, fetchers, got);
    var ps := TraceOf(j, |fates|, p, outcomes);
    var cs := ColumnsOf(which, j, |fates|, outcomes, ps);
    BalancedFold(which, j, outcomes, cs, |fates|, FetchErrors(which, fetchers, got));
    FetchedMeansCollected(which, fetchers, got);
    HandledIsCovered(which, j, outcomes, |fates|);
    assert j.signals[..|fates|] == j.signals;
  }

  // ----- nothing lost, nothing spuriously marked

  lemma {:induction false} MarkStays(j: Job, i: nat, k: nat, p: Progress, t: Triple)
    requires j.Fits() && i <= k <= |j.signals|
    requires Marked(After(j, i, p).store, t)
    ensures Marked(After(j, k, p).store, t)
    decreases k
  {
    if i < k {
      MarkStays(j, i, k - 1, p, t);
    }
  }

  lemma {:induction false} StoreKind(j: Job, k: nat, p: Progress)
    requires j.Fits() && k <= |j.signals|
    ensures After(j, k, p).store.InFile? <==> p.store.InFile?
  {
    if k > 0 {
      StoreKind(j, k - 1, p);
    }
  }

  /** Signal i's write, if its outcome causes one, takes effect. */
  predicate LandsAt(flat: bool, j: Job, i: nat)
    requires j.Fits() && i < |j.signals|
  {
    Lands(flat, j.fates[i].save.Completes?)
  }

  /** Signal i was settled and so marked its row. */
  predicate SettlesAt(flat: bool, j: Job, i: nat, o: Outcome, r: Row)
    requires j.Fits() && i < |j.signals|
  {
    RowOf(flat, j.TripleAt(i)) == r && Settles(o) && LandsAt(flat, j, i)
  }

  /** One of the signals from..k was settled under this row. */
  ghost predicate SettledBy(flat: bool, j: Job, from: nat, k: nat, outcomes: seq<Outcome>, r: Row)
    requires j.Fits() && k <= |j.signals| == |outcomes|
  {
    exists i: nat :: from <= i < k && SettlesAt(flat, j, i, outcomes[i], r)
  }

  lemma SettledNext(flat: bool, j: Job, from: nat, i: nat, outcomes: seq<Outcome>, r: Row)
    requires j.Fits() && from <= i < |j.signals| == |outcomes|
    ensures SettledBy(flat, j, from, i + 1, outcomes, r) <==>
      SettledBy(flat, j, from, i, outcomes, r) || SettlesAt(flat, j, i, outcomes[i], r)
  {
  }

  lemma MarkStep(j: Job, i: nat, q: Progress, o: Outcome, r: Row)
    requires j.Fits() && i < |j.signals|
    requires o == OutcomeOf(j.cfg, j.pre, j.now, j.signals[i], j.fates[i], q.store)
    ensures StepOn(j, i, q).store.InFile? == q.store.InFile?
    ensures HasRow(StepOn(j, i, q).store, r) <==> HasRow(q.store, r) || SettlesAt(q.store.InFile?, j, i, o, r)
  {
  }

  lemma {:induction false} MarkFold(j: Job, from: nat, k: nat, outcomes: seq<Outcome>, ps: seq<Progress>, r: Row)
    requires j.Fits() && from <= k <= |j.signals| == |outcomes| && Trace(j, outcomes, ps, |j.signals|)
    ensures var flat := ps[from].store.InFile?;
      && ps[k].store.InFile? == flat
      && (HasRow(ps[k].store, r) <==> HasRow(ps[from].store, r) || SettledBy(flat, j, from, k, outcomes, r))
    decreases k
  {
    if k > from {
      MarkFold(j, from, k - 1, outcomes, ps, r);
      assert TraceAt(j, outcomes, ps, k - 1);
      MarkStep(j, k - 1, ps[k - 1], outcomes[k - 1], r);
      SettledNext(ps[from].store.InFile?, j, from, k - 1, outcomes, r);
    }
  }

  /** The marks after signal k are those before signal `from` and the rows
      settled in between, on either store. */
  lemma MarksAreSettled(j: Job, from: nat, k: nat, outcomes: seq<Outcome>, p: Progress, r: Row)
    requires j.Fits() && from <= k <= |j.signals| && Explains(j, p, outcomes)
    ensures HasRow(After(j, k, p).store, r) <==>
      HasRow(After(j, from, p).store, r) || SettledBy(p.store.InFile?, j, from, k, outcomes, r)
  {
    var ps := TraceOf(j, |j.signals|, p, outcomes);
    StoreKind(j, from, p);
    MarkFold(j, from, k, outcomes, ps, r);
  }

  /** An outcome that leaves the signal to be retried: on the database also when
      Seen gave no answer or the write failed. */
  predicate Retries(flat: bool, o: Outcome, saved: bool) {
    || o.Stale? || o.ClassifyFailed? || o.DeliverFailed?
    || (!flat && (o.SeenFailed? || (Settles(o) && !saved)))
  }

  /** For a signal unmarked when its turn comes, that is exactly to leave it
      unmarked. */
  lemma UnmarkedRetries(j: Job, i: nat, p: Progress)
    requires j.Fits() && i < |j.signals| && !Marked(After(j, i, p).store, j.TripleAt(i))
    ensures Retries(After(j, i, p).store.InFile?, Here(j, i, p), j.fates[i].save.Completes?) <==>
      !Marked(After(j, i + 1, p).store, j.TripleAt(i))
  {
  }

  /** A run marks exactly the rows some occurrence of which was settled, filtered,
      dropped, delivered or in the digest, by a write that took effect; a triple
      still unmarked had every occurrence end in a way that leaves it to be
      retried. */
  lemma NothingLost(j: Job, p: Progress, t: Triple)
    requires j.Fits() && p.outcomes == []
    ensures var flat, n, end := p.store.InFile?, |j.signals|, After(j, |j.signals|, p);
      && |end.outcomes| == n && end.store.InFile? == flat
      && (Marked(end.store, t) <==> Marked(p.store, t) || SettledBy(flat, j, 0, n, end.outcomes, RowOf(flat, t)))
      && (!Marked(end.store, t) ==>
            forall i :: 0 <= i < n && j.TripleAt(i) == t ==> Retries(flat, end.outcomes[i], j.fates[i].save.Completes?))
  {
    var n, end := |j.signals|, After(j, |j.signals|, p);
    OutcomesExplained(j, p);
    StoreKind(j, n, p);
    MarksAreSettled(j, 0, n, end.outcomes, p, RowOf(p.store.InFile?, t));
    MarkIsRow(p.store, t);
    MarkIsRow(end.store, t);
    if !Marked(end.store, t) {
      forall i | 0 <= i < n && j.TripleAt(i) == t
        ensures Retries(p.store.InFile?, end.outcomes[i], j.fates[i].save.Completes?)
      {
        NeverMarked(j, i, p, t);
        StoreKind(j, i, p);
        UnmarkedRetries(j, i, p);
      }
    }
  }

  lemma NeverMarked(j: Job, i: nat, p: Progress, t: Triple)
    requires j.Fits() && i < |j.signals| && !Marked(After(j, |j.signals|, p).store, t)
    ensures !Marked(After(j, i, p).store, t) && !Marked(After(j, i + 1, p).store, t)
  {
    if Marked(After(j, i, p).store, t) {
      MarkStays(j, i, |j.signals|, p, t);
    }
    if Marked(After(j, i + 1, p).store, t) {
      MarkStays(j, i + 1, |j.signals|, p, t);
    }
  }

  // ----- what is posted and what is recorded

  function FindingOf(j: Job, i: nat, o: Outcome): seq<Finding>
    requires j.Fits() && i < |j.signals|
  {
    if o.Delivered? || o.Digested? then [Finding(j.cfg.name, j.signals[i], o.v)] else []
  }

  /** The findings of the delivered signals, in order. */
  function Posted(j: Job, outcomes: seq<Outcome>, k: nat): seq<Finding>
    requires j.Fits() && k <= |j.signals| && k <= |outcomes|
  {
    if k == 0 then []
    else Posted(j, outcomes, k - 1) + (if outcomes[k - 1].Delivered? then FindingOf(j, k - 1, outcomes[k - 1]) else [])
  }

  /** The findings of the delivered and the digest signals whose write took
      effect, in order. */
  function Recorded(flat: bool, j: Job, outcomes: seq<Outcome>, k: nat): seq<Finding>
    requires j.Fits() && k <= |j.signals| && k <= |outcomes|
  {
    if k == 0 then []
    else
      Recorded(flat, j, outcomes, k - 1) +
      (if LandsAt(flat, j, k - 1) then FindingOf(j, k - 1, outcomes[k - 1]) else [])
  }

  function Upserted(rows: map<Triple, Finding>, fs: seq<Finding>): map<Triple, Finding> {
    if fs == [] then rows
    else
      var n := |fs| - 1;
      Upserted(rows, fs[..n])[TripleOf(fs[n]) := fs[n]]
  }

  lemma UpsertedAdds(rows: map<Triple, Finding>, fs: seq<Finding>, more: seq<Finding>)
    requires |more| <= 1
    ensures Upserted(rows, fs + more) ==
      if more == [] then Upserted(rows, fs) else Upserted(rows, fs)[TripleOf(more[0]) := more[0]]
  {
    if more == [] {
      assert fs + more == fs;
    } else {
      assert (fs + more)[..|fs|] == fs;
    }
  }

  /** The store keeps these findings on top of those it had: appended to the
      file's list, upserted into the database's table. */
  predicate Adds(before: Store, fs: seq<Finding>, after: Store) {
    match before
    case InFile(mem, _) => after.InFile? && after.mem.findings == mem.findings + fs
    case InSql(db) => after.InSql? && after.db.finding == Upserted(db.finding, fs)
  }

  lemma PostStep(j: Job, i: nat, p: Progress)
    requires j.Fits() && i < |j.signals|
    ensures var o, before, after := Here(j, i, p), After(j, i, p), After(j, i + 1, p);
      && after.posts == before.posts + (if o.Delivered? then FindingOf(j, i, o) else [])
      && Adds(before.store, if LandsAt(before.store.InFile?, j, i) then FindingOf(j, i, o) else [], after.store)
  {
  }

  lemma AddsMore(before: Store, fs: seq<Finding>, mid: Store, more: seq<Finding>, after: Store)
    requires Adds(before, fs, mid) && Adds(mid, more, after) && |more| <= 1
    ensures Adds(before, fs + more, after)
  {
    if before.InSql? {
      UpsertedAdds(before.db.finding, fs, more);
      UpsertedAdds(mid.db.finding, [], more);
      assert [] + more == more;
    }
  }

  /** A run posts exactly its delivered findings and its store gains exactly the
      delivered and digest findings whose write took effect, each in order. */
  lemma {:induction false} PostsAndRecords(j: Job, k: nat, outcomes: seq<Outcome>, p: Progress)
    requires j.Fits() && k <= |j.signals| && Explains(j, p, outcomes)
    ensures After(j, k, p).posts == p.posts + Posted(j, outcomes, k)
    ensures Adds(p.store, Recorded(p.store.InFile?, j, outcomes, k), After(j, k, p).store)
  {
    if k > 0 {
      var i := k - 1;
      PostsAndRecords(j, i, outcomes, p);
      StoreKind(j, i, p);
      PostStep(j, i, p);
      AddsMore(p.store, Recorded(p.store.InFile?, j, outcomes, i), After(j, i, p).store,
               if LandsAt(p.store.InFile?, j, i) then FindingOf(j, i, Here(j, i, p)) else [], After(j, k, p).store);
    }
  }

  lemma {:induction false} PostsCounted(j: Job, outcomes: seq<Outcome>, k: nat)
    requires j.Fits() && k <= |j.signals| && k <= |outcomes|
    ensures var l := LedgerOf(None, j, outcomes, k);
      && |Posted(j, outcomes, k)| == l.delivered
      && |Recorded(true, j, outcomes, k)| == l.delivered + l.digest
      && |Recorded(false, j, outcomes, k)| == l.delivered + l.digest - l.recordErrors
  {
    if k > 0 {
      PostsCounted(j, outcomes, k - 1);
    }
  }

  /** A finding worth keeping comes from one of the signals: fresh, answered for
      and unmarked when its turn came, past the gate, and carrying the
      classifier's own verdict with a fit that reaches the digest threshold. */
  ghost predicate Kept(j: Job, p: Progress, f: Finding, i: nat)
    requires j.Fits() && i < |j.signals|
  {
    && f.beacon == j.cfg.name && f.signal == j.signals[i] && j.fates[i].verdict == Some(f.verdict)
    && !IsStale(j.cfg.maxAge, j.now, f.signal)
    && (p.store.InFile? || !j.fates[i].seenFails) && !Marked(After(j, i, p).store, j.TripleAt(i))
    && (f.signal.source in j.pre || f.signal.prenarrowed || Filter.Match(f.signal, j.cfg.keywords, j.cfg.filter))
    && f.verdict.bucket != "noise" && f.verdict.fit >= j.cfg.digest
  }

  ghost predicate PostKept(j: Job, p: Progress, f: Finding, i: nat)
    requires j.Fits() && i < |j.signals|
  {
    Kept(j, p, f, i) && f.verdict.fit >= j.cfg.realtime && j.fates[i].posted
  }

  ghost predicate RecordKept(j: Job, p: Progress, f: Finding, i: nat)
    requires j.Fits() && i < |j.signals|
  {
    Kept(j, p, f, i) && (f.verdict.fit >= j.cfg.realtime ==> j.fates[i].posted) && LandsAt(p.store.InFile?, j, i)
  }

  lemma KeptMeans(j: Job, i: nat, p: Progress, f: Finding)
    requires j.Fits() && i < |j.signals|
    ensures var o := Here(j, i, p);
      && (PostKept(j, p, f, i) <==> o.Delivered? && [f] == FindingOf(j, i, o))
      && (RecordKept(j, p, f, i) <==> [f] == FindingOf(j, i, o) && LandsAt(p.store.InFile?, j, i))
  {
    StoreKind(j, i, p);
  }

  ghost predicate PostKeptBefore(j: Job, p: Progress, f: Finding, k: nat)
    requires j.Fits() && k <= |j.signals|
  {
    exists i: nat :: i < k && PostKept(j, p, f, i)
  }

  ghost predicate RecordKeptBefore(j: Job, p: Progress, f: Finding, k: nat)
    requires j.Fits() && k <= |j.signals|
  {
    exists i: nat :: i < k && RecordKept(j, p, f, i)
  }

  lemma KeptNext(j: Job, i: nat, p: Progress, f: Finding)
    requires j.Fits() && i < |j.signals|
    ensures PostKeptBefore(j, p, f, i + 1) <==> PostKeptBefore(j, p, f, i) || PostKept(j, p, f, i)
    ensures RecordKeptBefore(j, p, f, i + 1) <==> RecordKeptBefore(j, p, f, i) || RecordKept(j, p, f, i)
  {
  }

  predicate Holds(s: Store, f: Finding) {
    match s
    case InFile(mem, _) => f in mem.findings
    case InSql(db) => TripleOf(f) in db.finding && db.finding[TripleOf(f)] == f
  }

  /** What the database's transactions keep: each finding row is marked. */
  predicate Marks(s: Store) { s.InSql? ==> s.db.finding.Keys <= s.db.seen }

  lemma HoldStep(j: Job, i: nat, p: Progress, f: Finding)
    requires j.Fits() && i < |j.signals| && Marks(After(j, i, p).store)
    ensures Marks(After(j, i + 1, p).store)
    ensures Holds(After(j, i + 1, p).store, f) <==>
      || Holds(After(j, i, p).store, f)
      || ([f] == FindingOf(j, i, Here(j, i, p)) && LandsAt(After(j, i, p).store.InFile?, j, i))
  {
    PostStep(j, i, p);
  }

  /** On either store a run posts precisely the kept findings that reach the
      realtime threshold and are accepted, and the store gains precisely those
      and the kept findings below it whose write took effect: nothing else, and
      none left out. */
  lemma {:induction false} PostsExact(j: Job, k: nat, p: Progress, f: Finding)
    requires j.Fits() && k <= |j.signals| && Marks(p.store)
    ensures Marks(After(j, k, p).store)
    ensures f in After(j, k, p).posts <==> f in p.posts || PostKeptBefore(j, p, f, k)
    ensures Holds(After(j, k, p).store, f) <==> Holds(p.store, f) || RecordKeptBefore(j, p, f, k)
  {
    if k > 0 {
      var i := k - 1;
      PostsExact(j, i, p, f);
      StoreKind(j, i, p);
      PostStep(j, i, p);
      HoldStep(j, i, p, f);
      KeptMeans(j, i, p, f);
      KeptNext(j, i, p, f);
    }
  }

  // ----- posting once

  ghost predicate DistinctTriples(fs: seq<Finding>) {
    forall a, b :: 0 <= a < b < |fs| ==> TripleOf(fs[a]) != TripleOf(fs[b])
  }

  ghost predicate PostedBefore(j: Job, k: nat, p: Progress, t: Triple)
    requires j.Fits() && k <= |j.signals|
  {
    exists i: nat :: i < k && j.TripleAt(i) == t && Here(j, i, p).Delivered?
  }

  lemma {:induction false} PostsAreDeliveries(j: Job, k: nat, p: Progress, t: Triple)
    requires j.Fits() && k <= |j.signals| && p.posts == []
    ensures (exists f :: f in After(j, k, p).posts && TripleOf(f) == t) <==> PostedBefore(j, k, p, t)
  {
    if k > 0 {
      var i := k - 1;
      PostsAreDeliveries(j, i, p, t);
      PostStep(j, i, p);
      var before, after := After(j, i, p).posts, After(j, k, p).posts;
      if Here(j, i, p).Delivered? {
        var f := FindingOf(j, i, Here(j, i, p))[0];
        assert after == before + [f] && TripleOf(f) == j.TripleAt(i);
        assert f in after;
      }
      assert forall f :: f in before ==> f in after;
    }
  }

  /** No two signals of one triple are both delivered. */
  ghost predicate NoneTwice(j: Job, k: nat, p: Progress)
    requires j.Fits() && k <= |j.signals|
  {
    forall i: nat :: i < k && Here(j, i, p).Delivered? ==> !PostedBefore(j, i, p, j.TripleAt(i))
  }

  lemma {:induction false} DistinctExactly(j: Job, k: nat, p: Progress)
    requires j.Fits() && k <= |j.signals| && p.posts == []
    ensures DistinctTriples(After(j, k, p).posts) <==> NoneTwice(j, k, p)
  {
    if k > 0 {
      var i := k - 1;
      DistinctExactly(j, i, p);
      PostStep(j, i, p);
      PostsAreDeliveries(j, i, p, j.TripleAt(i));
      DistinctAdds(After(j, i, p).posts, if Here(j, i, p).Delivered? then FindingOf(j, i, Here(j, i, p)) else []);
      assert NoneTwice(j, k, p) <==>
        NoneTwice(j, i, p) && (Here(j, i, p).Delivered? ==> !PostedBefore(j, i, p, j.TripleAt(i)));
    }
  }

  lemma DistinctAdds(fs: seq<Finding>, more: seq<Finding>)
    requires |more| <= 1
    ensures DistinctTriples(fs + more) <==>
      DistinctTriples(fs) && (more != [] ==> !exists f :: f in fs && TripleOf(f) == TripleOf(more[0]))
  {
    var all := fs + more;
    if more != [] && DistinctTriples(all) {
      forall f | f in fs ensures TripleOf(f) != TripleOf(more[0]) {
        var a :| 0 <= a < |fs| && fs[a] == f;
        assert all[a] == f && all[|fs|] == more[0];
      }
    }
    if DistinctTriples(all) {
      assert forall a, b :: 0 <= a < b < |fs| ==> all[a] == fs[a] && all[b] == fs[b];
    }
  }

  /** Signal k would be delivered if its triple were unmarked. */
  predicate Willing(flat: bool, j: Job, k: nat)
    requires j.Fits() && k < |j.signals|
  {
    && (flat || !j.fates[k].seenFails)
    && Decide(j.cfg, j.pre, j.now, j.signals[k], Some(false), j.fates[k]).Delivered?
  }

  lemma DeliveredExactly(j: Job, k: nat, p: Progress)
    requires j.Fits() && k < |j.signals|
    ensures Here(j, k, p).Delivered? <==>
      Willing(p.store.InFile?, j, k) && !Marked(After(j, k, p).store, j.TripleAt(k))
  {
    StoreKind(j, k, p);
  }

  /** A delivered signal's triple is delivered again exactly when the later
      signal would be delivered on its own, the store is the database, and no
      write for the triple took effect in between, its own record included. */
  lemma PostedAgainExactly(j: Job, i: nat, k: nat, p: Progress, outcomes: seq<Outcome>)
    requires j.Fits() && i < k < |j.signals| && j.TripleAt(i) == j.TripleAt(k) && Explains(j, p, outcomes)
    requires Here(j, i, p).Delivered?
    ensures var flat := p.store.InFile?;
      Here(j, k, p).Delivered? <==>
        !flat && Willing(flat, j, k) && !SettledBy(flat, j, i, k, outcomes, RowOf(flat, j.TripleAt(k)))
    ensures Here(j, k, p).Delivered? ==> p.store.InSql? && !j.fates[i].save.Completes?
  {
    var flat, t := p.store.InFile?, j.TripleAt(i);
    StoreKind(j, i, p);
    StoreKind(j, k, p);
    DeliveredExactly(j, i, p);
    DeliveredExactly(j, k, p);
    MarksAreSettled(j, i, k, outcomes, p, RowOf(flat, t));
    MarkIsRow(After(j, i, p).store, t);
    MarkIsRow(After(j, k, p).store, t);
    if LandsAt(flat, j, i) {
      assert SettlesAt(flat, j, i, outcomes[i], RowOf(flat, t));
    }
  }

  /** Signals i and k are a repeated post: what PostedAgainExactly spells out. */
  ghost predicate Repeats(j: Job, i: nat, k: nat, p: Progress, outcomes: seq<Outcome>)
    requires j.Fits() && i < k < |j.signals| == |outcomes|
  {
    && p.store.InSql? && j.TripleAt(i) == j.TripleAt(k) && outcomes[i].Delivered?
    && Willing(false, j, k) && !SettledBy(false, j, i, k, outcomes, RowOf(false, j.TripleAt(k)))
  }

  /** No triple is posted twice in a run, on either store, exactly when no
      delivered signal is followed by a repeat; on the file store none ever is. */
  lemma PostsOnceExactly(j: Job, p: Progress, outcomes: seq<Outcome>)
    requires j.Fits() && p.posts == [] && Explains(j, p, outcomes)
    ensures DistinctTriples(After(j, |j.signals|, p).posts) <==>
      forall i: nat, k: nat :: i < k < |j.signals| ==> !Repeats(j, i, k, p, outcomes)
    ensures p.store.InFile? ==> DistinctTriples(After(j, |j.signals|, p).posts)
  {
    var n := |j.signals|;
    DistinctExactly(j, n, p);
    forall i: nat, k: nat | i < k < n && j.TripleAt(i) == j.TripleAt(k) && Here(j, i, p).Delivered?
      ensures Here(j, k, p).Delivered? <==> Repeats(j, i, k, p, outcomes)
    {
      PostedAgainExactly(j, i, k, p, outcomes);
    }
  }

  /** Every post is recorded with effect: always on the file store, on the
      database when the records of the delivered signals commit. */
  ghost predicate PostsLand(j: Job, p: Progress)
    requires j.Fits()
  {
    forall i: nat :: i < |j.signals| && Here(j, i, p).Delivered? ==> LandsAt(p.store.InFile?, j, i)
  }

  /** A post of a run was not marked before the run. When every post is recorded
      with effect it is marked afterwards and no triple is posted twice. */
  lemma PostsOnce(j: Job, p: Progress)
    requires j.Fits() && p.posts == [] && p.outcomes == []
    ensures var end := After(j, |j.signals|, p);
      && (forall f :: f in end.posts ==> !Marked(p.store, TripleOf(f)))
      && (PostsLand(j, p) ==>
            && (forall f :: f in end.posts ==> Marked(end.store, TripleOf(f)))
            && DistinctTriples(end.posts))
  {
    var n, end := |j.signals|, After(j, |j.signals|, p);
    forall f | f in end.posts
      ensures !Marked(p.store, TripleOf(f)) && (PostsLand(j, p) ==> Marked(end.store, TripleOf(f)))
    {
      PostsAreDeliveries(j, n, p, TripleOf(f));
      var i: nat :| i < n && j.TripleAt(i) == TripleOf(f) && Here(j, i, p).Delivered?;
      PostMarks(j, i, p);
    }
    if PostsLand(j, p) {
      OutcomesExplained(j, p);
      PostsOnceExactly(j, p, end.outcomes);
      forall i: nat, k: nat | i < k < n
        ensures !Repeats(j, i, k, p, end.outcomes)
      {
        if end.outcomes[i].Delivered? && j.TripleAt(i) == j.TripleAt(k) && !p.store.InFile? {
          assert SettlesAt(false, j, i, end.outcomes[i], RowOf(false, j.TripleAt(k)));
        }
      }
    }
  }

  lemma PostMarks(j: Job, i: nat, p: Progress)
    requires j.Fits() && i < |j.signals| && Here(j, i, p).Delivered?
    ensures !Marked(p.store, j.TripleAt(i))
    ensures LandsAt(p.store.InFile?, j, i) ==> Marked(After(j, |j.signals|, p).store, j.TripleAt(i))
  {
    StoreKind(j, i, p);
    if Marked(p.store, j.TripleAt(i)) {
      MarkStays(j, 0, i, p, j.TripleAt(i));
    }
    if LandsAt(p.store.InFile?, j, i) {
      assert Marked(After(j, i + 1, p).store, j.TripleAt(i));
      MarkStays(j, i + 1, |j.signals|, p, j.TripleAt(i));
    }
  }

  /** n copies of a sample signal whose record never commits. */
  function Unrecorded(beacon: string, source: string, id: string, n: nat): Job {
    var j := Sample(beacon, source, id, "lead");
    j.(signals := seq(n, _ => j.signals[0]), fates := seq(n, _ => j.fates[0].(save := CreateFails)))
  }

  /** After k of the copies: the database run has posted each, the file run only
      the first. */
  ghost predicate PostedSoFar(q: Progress, flat: bool, k: nat, t: Triple) {
    && q.store.InFile? == flat
    && |q.posts| == (if flat && k > 0 then 1 else k)
    && (forall a :: 0 <= a < |q.posts| ==> TripleOf(q.posts[a]) == t)
    && (Marked(q.store, t) <==> flat && k > 0)
  }

  lemma UnrecordedStep(beacon: string, source: string, id: string, n: nat, i: nat, flat: bool, q: Progress)
    requires i < n && PostedSoFar(q, flat, i, Triple(beacon, source, id))
    ensures var j := Unrecorded(beacon, source, id, n);
      PostedSoFar(Step(j.cfg, j.pre, j.now, j.signals[i], j.fates[i], q), flat, i + 1, Triple(beacon, source, id))
  {
  }

  /** So the number of posts of one triple is unbounded on the database, within a
      single run. */
  lemma {:induction false} UnrecordedRepeats(beacon: string, source: string, id: string, n: nat, k: nat, p: Progress)
    requires k <= n && !Marked(p.store, Triple(beacon, source, id)) && p.posts == []
    ensures PostedSoFar(After(Unrecorded(beacon, source, id, n), k, p), p.store.InFile?, k, Triple(beacon, source, id))
  {
    if k > 0 {
      UnrecordedRepeats(beacon, source, id, n, k - 1, p);
      UnrecordedStep(beacon, source, id, n, k - 1, p.store.InFile?, After(Unrecorded(beacon, source, id, n), k - 1, p));
    }
  }

  // ----- re-run idempotence

  /** Nothing fails: for the database that includes every call to it. */
  ghost predicate FailureFree(j: Job, store: Store)
    requires j.Fits()
  {
    forall i :: 0 <= i < |j.fates| ==>
      && j.fates[i].verdict.Some? && j.fates[i].posted
      && (store.InSql? ==> !j.fates[i].seenFails && j.fates[i].save.Completes?)
  }

  lemma FreshOnesGetMarked(j: Job, i: nat, p: Progress)
    requires j.Fits() && i < |j.signals| && FailureFree(j, p.store)
    requires !IsStale(j.cfg.maxAge, j.now, j.signals[i])
    ensures Marked(After(j, |j.signals|, p).store, j.TripleAt(i))
  {
    StoreKind(j, i, p);
    assert Marked(After(j, i + 1, p).store, j.TripleAt(i));
    MarkStays(j, i + 1, |j.signals|, p, j.TripleAt(i));
  }

  /** A second run over signals of the first, in any order and number, later or
      at once and with the same freshness gate, does nothing: each signal is
      stale or already seen. Its other settings may differ. */
  lemma {:induction false} RerunDoesNothing(j: Job, p: Progress, again: Job, k: nat, q: Progress)
    requires j.Fits() && again.Fits() && k <= |again.signals|
    requires FailureFree(j, p.store)
    requires q.store == After(j, |j.signals|, p).store && q.outcomes == []
    requires q.store.InSql? ==> forall i :: 0 <= i < |again.fates| ==> !again.fates[i].seenFails
    requires again.cfg.name == j.cfg.name && again.cfg.maxAge == j.cfg.maxAge && again.now >= j.now
    requires forall s :: s in again.signals ==> s in j.signals
    ensures After(again, k, q).store == q.store && After(again, k, q).posts == q.posts
    ensures forall o :: o in After(again, k, q).outcomes ==> o.Stale? || o.AlreadySeen?
  {
    if k > 0 {
      RerunDoesNothing(j, p, again, k - 1, q);
      var s := again.signals[k - 1];
      assert s in j.signals;
      if !IsStale(again.cfg.maxAge, again.now, s) {
        var i :| 0 <= i < |j.signals| && j.signals[i] == s;
        FreshOnesGetMarked(j, i, p);
      }
    }
  }
}
