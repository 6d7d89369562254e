/** One turn of the signal loop of internal/engine/engine.go told from its
    inputs alone: which clock, store, keyword, verdict and webhook answers lead
    to which store, posts and counters. */
module Decisions {
  import opened Core
  import opened Keys
  import opened StoreState
  import opened Backend
  import opened Engine
  import Filter

  /** The freshness gate. A dated signal is stopped by a positive max_age exactly
      when it is older than that: it passes at its limit and stops one
      nanosecond later. Undated signals, and runs without a positive max_age,
      stop nothing. A stopped signal is counted and changes nothing else. */
  lemma StaleExactly(cfg: BeaconConfig, pre: set<string>, now: int, s: Signal, fate: Fate, p: Progress)
    ensures var q, was := Step(cfg, pre, now, s, fate, p), At(p.counts, s.source);
      var tooOld := cfg.maxAge.Age? && cfg.maxAge.nanos > 0 && s.createdAt.Some?
        && now - s.createdAt.value > cfg.maxAge.nanos;
      && (At(q.counts, s.source).stale == was.stale + 1 <==> tooOld)
      && (At(q.counts, s.source).stale == was.stale <==> !tooOld)
      && (tooOld ==>
            && q.store == p.store && q.posts == p.posts
            && q.counts == p.counts[s.source := was.(stale := was.stale + 1)])
  {
  }

  /** A fresh signal that the store knows is counted and changes nothing else; so
      is, as an error, one that the database gives no answer for. */
  lemma SeenStops(cfg: BeaconConfig, pre: set<string>, now: int, s: Signal, fate: Fate, p: Progress)
    requires !IsStale(cfg.maxAge, now, s)
    ensures var q, was := Step(cfg, pre, now, s, fate, p), At(p.counts, s.source);
      var silent := p.store.InSql? && fate.seenFails;
      && (silent ==>
            && q.store == p.store && q.posts == p.posts
            && q.counts == p.counts[s.source := was.(errors := was.errors + 1)])
      && (!silent && Marked(p.store, Triple(cfg.name, s.source, s.id)) ==>
            && q.store == p.store && q.posts == p.posts
            && q.counts == p.counts[s.source := was.(seen := was.seen + 1)])
  {
  }

  /** The signal is fresh, the store answers, and it is not marked. */
  predicate Arrives(cfg: BeaconConfig, now: int, s: Signal, fate: Fate, store: Store) {
    && !IsStale(cfg.maxAge, now, s)
    && !(store.InSql? && fate.seenFails) && !Marked(store, Triple(cfg.name, s.source, s.id))
  }

  /** An arriving signal is stopped by the keyword gate exactly when its source
      does not prefilter, it is not pre-narrowed and it does not match. It is
      then counted and marked, if the write takes effect, and not posted. */
  lemma GateExactly(cfg: BeaconConfig, pre: set<string>, now: int, s: Signal, fate: Fate, p: Progress)
    requires Arrives(cfg, now, s, fate, p.store)
    ensures var q, was, t := Step(cfg, pre, now, s, fate, p), At(p.counts, s.source), Triple(cfg.name, s.source, s.id);
      var closed := s.source !in pre && !s.prenarrowed && !Filter.Match(s, cfg.keywords, cfg.filter);
      && (At(q.counts, s.source).filtered == was.filtered + 1 <==> closed)
      && (closed ==>
            && q.posts == p.posts && q.store == Do(p.store, Mark(t), fate.save.Completes?)
            && q.counts == p.counts[s.source := was.(filtered := was.filtered + 1)]
            && (Marked(q.store, t) <==> p.store.InFile? || fate.save.Completes?))
  {
  }

  /** The signal arrives and the gate is open. */
  predicate Reaches(cfg: BeaconConfig, pre: set<string>, now: int, s: Signal, fate: Fate, store: Store) {
    && Arrives(cfg, now, s, fate, store)
    && (s.source in pre || s.prenarrowed || Filter.Match(s, cfg.keywords, cfg.filter))
  }

  /** A failed classification, or a delivery the webhook refuses, leaves store
      and posts alone, so the signal is retried; it moves exactly the classified
      and the error counter. */
  lemma FailureRetries(cfg: BeaconConfig, pre: set<string>, now: int, s: Signal, fate: Fate, p: Progress)
    requires Reaches(cfg, pre, now, s, fate, p.store)
    requires fate.verdict.Some? ==>
      var v := fate.verdict.value;
      v.bucket != "noise" && v.fit >= cfg.digest && v.fit >= cfg.realtime && !fate.posted
    ensures var q, was := Step(cfg, pre, now, s, fate, p), At(p.counts, s.source);
      && q.store == p.store && q.posts == p.posts
      && q.counts == p.counts[s.source := was.(classified := was.classified + 1, errors := was.errors + 1)]
  {
  }

  /** Noise, or a fit under the digest threshold, is dropped: marked, counted and
      neither posted nor recorded. */
  lemma NoiseIsDropped(cfg: BeaconConfig, pre: set<string>, now: int, s: Signal, fate: Fate, p: Progress)
    requires Reaches(cfg, pre, now, s, fate, p.store) && fate.verdict.Some?
    requires fate.verdict.value.bucket == "noise" || fate.verdict.value.fit < cfg.digest
    ensures var q, was := Step(cfg, pre, now, s, fate, p), At(p.counts, s.source);
      && q.posts == p.posts
      && q.store == Do(p.store, Mark(Triple(cfg.name, s.source, s.id)), fate.save.Completes?)
      && q.counts == p.counts[s.source := was.(classified := was.classified + 1, dropped := was.dropped + 1)]
  {
  }

  /** A kept verdict is recorded: after an accepted post when its fit reaches the
      realtime threshold, for the digest otherwise. A record that fails counts
      an error besides. */
  lemma KeptIsRecorded(cfg: BeaconConfig, pre: set<string>, now: int, s: Signal, fate: Fate, p: Progress)
    requires Reaches(cfg, pre, now, s, fate, p.store) && fate.verdict.Some?
    requires fate.verdict.value.bucket != "noise" && fate.verdict.value.fit >= cfg.digest
    requires fate.verdict.value.fit >= cfg.realtime ==> fate.posted
    ensures var q, was := Step(cfg, pre, now, s, fate, p), At(p.counts, s.source);
      var f, late := Finding(cfg.name, s, fate.verdict.value), if fate.save.Completes? then 0 else 1;
      && q.store == Do(p.store, Rec(f), fate.save.Completes?)
      && q.posts == (if f.verdict.fit >= cfg.realtime then p.posts + [f] else p.posts)
      && q.counts == p.counts[s.source :=
           if f.verdict.fit >= cfg.realtime
           then was.(classified := was.classified + 1, delivered := was.delivered + 1, errors := was.errors + late)
           else was.(classified := was.classified + 1, digest := was.digest + 1, errors := was.errors + late)]
  {
  }

  /** When signal i of a run is out of circulation, from its inputs: one that the
      classifier sees, exactly when there is a verdict, it calls for no post or
      the post was accepted, and the write takes effect; one that the keyword
      gate stops, exactly when the write takes effect. */
  lemma MarkedExactly(j: Job, i: nat, p: Progress)
    requires j.Fits() && i < |j.signals|
    requires Arrives(j.cfg, j.now, j.signals[i], j.fates[i], After(j, i, p).store)
    ensures var s, fate, cfg := j.signals[i], j.fates[i], j.cfg;
      var open := s.source in j.pre || s.prenarrowed || Filter.Match(s, cfg.keywords, cfg.filter);
      var lands := After(j, i, p).store.InFile? || fate.save.Completes?;
      Marked(After(j, i + 1, p).store, Triple(cfg.name, s.source, s.id)) <==>
        && lands
        && (open ==>
              && fate.verdict.Some?
              && var v := fate.verdict.value;
              v.bucket == "noise" || v.fit < cfg.digest || v.fit < cfg.realtime || fate.posted)
  {
    var s, fate, cfg, before := j.signals[i], j.fates[i], j.cfg, After(j, i, p);
    var t := Triple(cfg.name, s.source, s.id);
    GateExactly(cfg, j.pre, j.now, s, fate, before);
    if Reaches(cfg, j.pre, j.now, s, fate, before.store) {
      if fate.verdict.Some? && (fate.verdict.value.bucket == "noise" || fate.verdict.value.fit < cfg.digest) {
        NoiseIsDropped(cfg, j.pre, j.now, s, fate, before);
      } else if fate.verdict.Some? && (fate.verdict.value.fit < cfg.realtime || fate.posted) {
        KeptIsRecorded(cfg, j.pre, j.now, s, fate, before);
      } else {
        FailureRetries(cfg, j.pre, j.now, s, fate, before);
      }
    }
  }

  // ----- what the fetch phase hands to the loop

  /** The loop gets every fetch's signals, in the order of the fetches. */
  lemma {:induction false} CollectedInOrder(a: seq<Fetched>, b: seq<Fetched>)
    ensures Collected([]) == [] && forall one :: Collected([one]) == one.signals
    ensures Collected(a + b) == Collected(a) + Collected(b)
  {
    forall one: Fetched ensures Collected([one]) == one.signals {
      assert [one][..0] == [];
      assert Collected([one][..0]) == [];
    }
    if b == [] {
      assert a + b == a;
    } else {
      var n := |b| - 1;
      CollectedInOrder(a, b[..n]);
      assert (a + b)[..|a + b| - 1] == a + b[..n];
      assert Collected(a) + (Collected(b[..n]) + b[n].signals) == (Collected(a) + Collected(b[..n])) + b[n].signals;
    }
  }

  /** One fetch counts its signals, and an error if it failed, under its
      fetcher's name and nothing else. */
  lemma CountFetchAdds(m: map<string, Counters>, f: Fetcher, one: Fetched)
    ensures var was := At(m, f.name);
      CountFetch(m, f, one) ==
        m[f.name := was.(fetched := was.fetched + |one.signals|, errors := was.errors + if one.failed then 1 else 0)]
  {
  }

  /** The fetches are counted one after the other. */
  lemma FetchCountsNext(fetchers: seq<Fetcher>, got: seq<Fetched>, n: nat)
    requires n < |got| <= |fetchers|
    ensures FetchCounts(fetchers, got[..0]) == map[]
    ensures FetchCounts(fetchers, got[..n + 1]) == CountFetch(FetchCounts(fetchers, got[..n]), fetchers[n], got[n])
  {
    var more := got[..n + 1];
    assert more[..|more| - 1] == got[..n] && more[n] == got[n];
  }

  /** A run's signals skip the keyword gate exactly when some fetcher of their
      source's name prefilters or they are pre-narrowed themselves. */
  lemma PrefilteredSkip(cfg: BeaconConfig, fetchers: seq<Fetcher>, got: seq<Fetched>, now: int, fates: seq<Fate>,
                        i: nat, p: Progress)
    requires |got| <= |fetchers| && |fates| == |Collected(got)| && i < |fates|
    requires var j := JobOf(cfg, fetchers, got, now, fates);
      Arrives(cfg, now, Collected(got)[i], fates[i], After(j, i, p).store)
    ensures var j, s := JobOf(cfg, fetchers, got, now, fates), Collected(got)[i];
      var before, after := At(After(j, i, p).counts, s.source), At(After(j, i + 1, p).counts, s.source);
      after.filtered == before.filtered + 1 <==>
        && !(exists f :: f in fetchers && f.prefilters && f.name == s.source)
        && !s.prenarrowed && !Filter.Match(s, cfg.keywords, cfg.filter)
  {
    var j, s := JobOf(cfg, fetchers, got, now, fates), Collected(got)[i];
    GateExactly(cfg, j.pre, now, s, fates[i], After(j, i, p));
    assert s.source in j.pre <==> exists f :: f in fetchers && f.prefilters && f.name == s.source;
  }
}
