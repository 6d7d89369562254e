/** The two timing promises of loop mode: the liveness probe never fails while
    one loop keeps its pace, and no post slips through the freshness gate. */
module Liveness {
  import opened Core
  import opened Health
  import opened Ticker
  import opened Schedule
  import opened StoreState
  import opened Backend
  import opened Engine
  import Decisions

  /** After poll 0 every instant lies between two successive beats. */
  lemma {:induction false} BeatsAround(b: Timing, t: int, k: nat) returns (m: nat)
    requires b.iv > 0 && End(b, 0) <= t < End(b, k)
    ensures End(b, m) <= t < End(b, m + 1)
  {
    if t >= End(b, k - 1) {
      m := k - 1;
    } else {
      m := BeatsAround(b, t, k - 1);
    }
  }

  /** Beats never stop: poll k ends no earlier than the k-th tick. */
  lemma BeatsReach(b: Timing, t: int) returns (k: nat)
    requires b.iv > 0
    ensures t < End(b, k)
  {
    k := if t < Zero(b) then 0 else t - Zero(b) + 1;
    StartsAdvance(b, k);
    FiredBy(b, k, Emptied(b, k));
    TicksSpread(b, k);
  }

  lemma {:induction false} TicksSpread(b: Timing, n: nat)
    requires b.iv > 0
    ensures Zero(b) + n <= TickTime(b, n)
  {
    if n > 0 {
      TicksSpread(b, n - 1);
    }
  }

  /** A loop of a configured process: its interval is the one in effect for
      beacon `index`, it is launched `lag` after the monitor was created and then
      waits for its stagger, and no poll takes longer than `longest`. */
  ghost predicate LoopOf(b: Timing, settings: seq<IntervalSetting>, global: int, index: nat,
                         start: int, lag: nat, longest: nat)
  {
    && index < |settings| && ResolveInterval(settings[index], global) == Some(b.iv) && 0 < b.iv
    && b.first == Staggered(start + lag, StaggerOffset(index, |settings|, b.iv))
    && forall k: nat :: b.dur(k) <= longest
  }

  /** One loop that keeps its pace keeps the process healthy: its first beat
      comes within the window, and so does each next one. */
  lemma PacedLoopKeepsHealthy(b: Timing, window: int, longest: nat, start: int, log: seq<Event>, t: int)
    requires 0 < b.iv && b.iv + longest < window && End(b, 0) - start < window
    requires forall k: nat :: b.dur(k) <= longest
    requires Ordered(start, log) && start <= t && IsReady(log)
    requires forall k: nat :: End(b, k) <= t ==> BeatAt(End(b, k)) in log
    ensures Healthy(start, window, log, t)
  {
    HealthyMeans(start, window, log, t);
    if t >= End(b, 0) {
      var k := BeatsReach(b, t);
      var m := BeatsAround(b, t, k);
      StartsAdvance(b, m);
      assert b.dur(m + 1) <= longest;
      assert BeatAt(End(b, m)) in log;
    }
  }

  /** Two loops of one interval, launched together, begin their first polls at
      least the floor of interval/count apart, both ways around. */
  lemma FirstPollsSpread(x: Timing, y: Timing, settings: seq<IntervalSetting>, global: int, i: nat, j: nat,
                         start: int, lag: nat, longest: nat)
    requires LoopOf(x, settings, global, i, start, lag, longest) && LoopOf(y, settings, global, j, start, lag, longest)
    requires i < j && x.iv == y.iv && |settings| < TWO_63 && x.iv * (|settings| - 1) < TWO_63
    ensures var gap := Start(y, 0) - Start(x, 0);
      x.iv / |settings| <= gap < x.iv && x.iv - gap >= x.iv / |settings|
    ensures start + lag <= Start(x, 0) && Start(y, 0) < start + lag + x.iv
  {
    StaggerSpread(i, j, |settings|, x.iv);
  }

  /** If one loop's interval plus its longest poll and the launch lag stays under
      the staleness window of twice the largest interval, then at every time
      from start-up on a ready process that has heard the loop's beats answers
      healthy. */
  lemma NeverStale(b: Timing, settings: seq<IntervalSetting>, global: int, max: int, index: nat,
                   start: int, lag: nat, longest: nat, log: seq<Event>, t: int)
    requires LoopOf(b, settings, global, index, start, lag, longest)
    requires IsMaxInterval(settings, global, max) && lag + b.iv + longest < 2 * max
    requires Ordered(start, log) && start <= t && IsReady(log)
    requires forall k: nat :: End(b, k) <= t ==> BeatAt(End(b, k)) in log
    ensures Healthy(start, 2 * max, log, t)
  {
    StaggerBelowInterval(index, |settings|, b.iv);
    assert b.dur(0) <= longest;
    PacedLoopKeepsHealthy(b, 2 * max, longest, start, log, t);
  }

  lemma {:induction false} EndsGrow(b: Timing, k: nat, n: nat)
    requires b.iv > 0 && k <= n
    ensures End(b, k) <= End(b, n)
    decreases n
  {
    if k < n {
      EndsGrow(b, k, n - 1);
      StartsAdvance(b, n - 1);
    }
  }

  /** The log as it stands at time t: the events up to then. */
  ghost predicate AsOf(all: seq<Event>, upTo: nat, t: int) {
    upTo <= |all| && forall i :: 0 <= i < |all| ==> (all[i].t <= t <==> i < upTo)
  }

  /** An orderly log stands at some point at every time. */
  lemma {:induction false} AsOfExists(start: int, all: seq<Event>, t: int) returns (upTo: nat)
    requires Ordered(start, all)
    ensures AsOf(all, upTo, t)
  {
    if all == [] || all[|all| - 1].t <= t {
      upTo := |all|;
    } else {
      upTo := AsOfExists(start, all[..|all| - 1], t);
    }
  }

  lemma HeardInTime(b: Timing, log: seq<Event>, others: seq<seq<Event>>, n: nat, tail: seq<Event>,
                    upTo: nat, t: int, k: nat)
    requires b.iv > 0 && n <= |others| && AsOf(Heard(log, others, Ends(b, n)) + tail, upTo, t)
    requires End(b, k) <= t < End(b, n)
    ensures BeatAt(End(b, k)) in (Heard(log, others, Ends(b, n)) + tail)[..upTo]
  {
    if n <= k {
      EndsGrow(b, n, k);
    }
    var heard, beats := Heard(log, others, Ends(b, n)), Ends(b, n);
    HeardTells(log, others, beats, k);
    var i :| 0 <= i < |heard| && heard[i] == BeatAt(beats[k]);
    assert (heard + tail)[i] == heard[i];
    assert (heard + tail)[..upTo][i] == BeatAt(End(b, k));
  }

  /** The liveness bound of the running loop, whose n beats Ticker.LoopBeacon
      leaves in the monitor's log: whatever the rest of the process reports
      before, between and after them, at every time from start-up to the end of
      the next poll a ready process is healthy, in a run of any length. */
  lemma LoopStaysHealthy(b: Timing, settings: seq<IntervalSetting>, global: int, max: int, index: nat,
                         start: int, lag: nat, longest: nat,
                         log: seq<Event>, others: seq<seq<Event>>, n: nat, tail: seq<Event>, upTo: nat, t: int)
    requires LoopOf(b, settings, global, index, start, lag, longest)
    requires IsMaxInterval(settings, global, max) && lag + b.iv + longest < 2 * max
    requires n <= |others| && start <= t < End(b, n)
    requires Ordered(start, Heard(log, others, Ends(b, n)) + tail)
    requires AsOf(Heard(log, others, Ends(b, n)) + tail, upTo, t)
    requires IsReady((Heard(log, others, Ends(b, n)) + tail)[..upTo])
    ensures Healthy(start, 2 * max, (Heard(log, others, Ends(b, n)) + tail)[..upTo], t)
  {
    var seen := (Heard(log, others, Ends(b, n)) + tail)[..upTo];
    forall k: nat | End(b, k) <= t
      ensures BeatAt(End(b, k)) in seen
    {
      HeardInTime(b, log, others, n, tail, upTo, t, k);
    }
    NeverStale(b, settings, global, max, index, start, lag, longest, seen, t);
  }

  // ----- coverage

  predicate CoverageGap(interval: int, maxAge: int) {
    interval > 0 && maxAge > 0 && interval >= maxAge
  }

  /** While polls are shorter than the interval no tick is dropped and each poll
      begins exactly on its tick. */
  lemma {:induction false} PollsKeepTime(b: Timing, k: nat)
    requires b.iv > 0 && forall i: nat :: b.dur(i) < b.iv
    ensures k >= 1 ==> Start(b, k) == TickTime(b, k)
  {
    if k >= 1 {
      PollsKeepTime(b, k - 1);
      StartsAdvance(b, k - 1);
      assert b.dur(k - 1) < b.iv;
      TicksAtTick(b, k - 1);
      assert Emptied(b, k - 1) == TickTime(b, k - 1) <= End(b, k - 1) < TickTime(b, k);
      FiredBy(b, k - 1, End(b, k - 1));
      FiredBy(b, k, End(b, k - 1));
    }
  }

  /** Poll k is the first to begin after time c. */
  predicate FirstAfter(b: Timing, k: nat, c: int)
    requires b.iv > 0
  {
    k >= 1 && Start(b, k - 1) <= c < Start(b, k)
  }

  /** The clock is read during the first poll begun after time c. */
  predicate ReadIn(b: Timing, k: nat, c: int, now: int)
    requires b.iv > 0
  {
    FirstAfter(b, k, c) && Start(b, k) <= now <= End(b, k)
  }

  /** Every post created since the first poll began has such a poll. */
  lemma FirstPollExists(b: Timing, c: int) returns (k: nat)
    requires b.iv > 0 && b.first <= c
    ensures FirstAfter(b, k, c)
  {
    var far := BeatsReach(b, c);
    StartsAdvance(b, far);
    k := FirstPollBy(b, c, far + 1);
  }

  lemma {:induction false} FirstPollBy(b: Timing, c: int, far: nat) returns (k: nat)
    requires b.iv > 0 && b.first <= c < Start(b, far)
    ensures FirstAfter(b, k, c)
  {
    if Start(b, far - 1) <= c {
      k := far;
    } else {
      k := FirstPollBy(b, c, far - 1);
    }
  }

  lemma AgeAtFirstPoll(b: Timing, longest: nat, k: nat, c: int, now: int)
    requires b.iv > 0 && forall i: nat :: b.dur(i) <= longest
    requires FirstAfter(b, k, c) && now <= End(b, k)
    ensures now - c <= b.iv + 2 * longest
  {
    StartsAdvance(b, k - 1);
    assert b.dur(k) <= longest && b.dur(k - 1) <= longest;
  }

  /** Whatever its beacon, its source and its fate, the signal loop does not count
      this signal stale at this time under this max_age. */
  ghost predicate PassesGate(maxAge: int, s: Signal, now: int) {
    forall cfg: BeaconConfig, pre, fate, p | cfg.maxAge == Age(maxAge) ::
      At(Step(cfg, pre, now, s, fate, p).counts, s.source).stale == At(p.counts, s.source).stale
  }

  lemma PassesExactly(maxAge: int, s: Signal, now: int)
    ensures PassesGate(maxAge, s, now) <==>
      maxAge <= 0 || s.createdAt.None? || now - s.createdAt.value <= maxAge
  {
    forall cfg: BeaconConfig, pre, fate, p | cfg.maxAge == Age(maxAge)
      ensures At(Step(cfg, pre, now, s, fate, p).counts, s.source).stale == At(p.counts, s.source).stale <==>
        maxAge <= 0 || s.createdAt.None? || now - s.createdAt.value <= maxAge
    {
      Decisions.StaleExactly(cfg, pre, now, s, fate, p);
    }
    var j, p := Sample("", "", "", ""), Progress(InFile(FRESH, None), map[], [], []);
    var cfg := j.cfg.(maxAge := Age(maxAge));
    assert Step(cfg, {}, now, s, j.fates[0], p) == Step(cfg, {}, now, s, j.fates[0], p);
  }

  /** No coverage gap: with polls of at most `longest`, however long that is,
      and interval + 2·longest within max_age, a post created since the first
      poll began has a first poll after it and passes the freshness gate there,
      whenever during that poll the clock is read. */
  lemma NoCoverageGap(b: Timing, longest: nat, maxAge: int, s: Signal) returns (k: nat)
    requires b.iv > 0 && forall i: nat :: b.dur(i) <= longest
    requires b.iv + 2 * longest <= maxAge
    requires s.createdAt.Some? && b.first <= s.createdAt.value
    ensures FirstAfter(b, k, s.createdAt.value)
    ensures forall now | ReadIn(b, k, s.createdAt.value, now) :: PassesGate(maxAge, s, now)
  {
    k := FirstPollExists(b, s.createdAt.value);
    forall now | ReadIn(b, k, s.createdAt.value, now)
      ensures PassesGate(maxAge, s, now)
    {
      AgeAtFirstPoll(b, longest, k, s.createdAt.value, now);
      PassesExactly(maxAge, s, now);
    }
  }

  ghost predicate Paced(b: Timing, interval: int, longest: nat) {
    b.iv == interval && forall i: nat :: b.dur(i) <= longest
  }

  /** In every run with this interval and polls of at most this length, every
      post passes the gate throughout the first poll begun after its creation. */
  ghost predicate AllCaught(interval: int, longest: nat, maxAge: int)
    requires interval > 0
  {
    forall b: Timing, k: nat, s: Signal, now: int |
      Paced(b, interval, longest) && s.createdAt.Some? && ReadIn(b, k, s.createdAt.value, now) ::
      PassesGate(maxAge, s, now)
  }

  /** The run whose every poll takes the longest time. */
  function Slowest(interval: int, longest: nat): Timing { Timing(0, interval, (_: nat) => longest) }

  /** It ages a post by the full interval + 2·longest: the post appears as the
      first poll begins, and the next poll reads the clock at its end. */
  lemma SlowestPost(interval: int, longest: nat)
    requires interval > 0
    ensures var b := Slowest(interval, longest);
      Paced(b, interval, longest) && ReadIn(b, 1, 0, End(b, 1)) && End(b, 1) == interval + 2 * longest
  {
    var b := Slowest(interval, longest);
    assert Zero(b) == longest && TicksBy(b, longest) == 0;
    assert TickTime(b, 0) == longest && TickTime(b, 1) == longest + interval;
    assert Start(b, 0) == 0 && Start(b, 1) == Due(b, longest, longest) == longest + interval;
  }

  /** Exactly when no post can age out between polls. */
  lemma AllCaughtExactly(interval: int, longest: nat, maxAge: int)
    requires interval > 0
    ensures AllCaught(interval, longest, maxAge) <==> maxAge <= 0 || interval + 2 * longest <= maxAge
  {
    SlowestPost(interval, longest);
    var b, s := Slowest(interval, longest), Sample("", "", "", "").signals[0].(createdAt := Some(0));
    PassesExactly(maxAge, s, End(b, 1));
    if maxAge <= 0 || interval + 2 * longest <= maxAge {
      forall b: Timing, k: nat, s: Signal, now: int |
        Paced(b, interval, longest) && s.createdAt.Some? && ReadIn(b, k, s.createdAt.value, now)
        ensures PassesGate(maxAge, s, now)
      {
        AgeAtFirstPoll(b, longest, k, s.createdAt.value, now);
        PassesExactly(maxAge, s, now);
      }
    }
  }

  /** The start-up warning against the truth. It is silent on a gap exactly when
      the interval is under max_age but interval + 2·longest is not; it fires
      without one exactly at equality with instant polls. */
  lemma WarningExactly(interval: int, longest: nat, maxAge: int)
    requires interval > 0 && maxAge > 0
    ensures !CoverageGap(interval, maxAge) && !AllCaught(interval, longest, maxAge) <==>
      interval < maxAge < interval + 2 * longest
    ensures CoverageGap(interval, maxAge) && AllCaught(interval, longest, maxAge) <==>
      interval == maxAge && longest == 0
  {
    AllCaughtExactly(interval, longest, maxAge);
  }
}
