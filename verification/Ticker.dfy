/** The timed loop of cmd/sos-beacon/main.go: one poll at once, then one per
    tick of a ticker whose channel holds a single tick. */
module Ticker {
  import opened Health
  import Schedule

  /** One beacon's loop: when its first poll begins, its interval, and how long
      each poll takes (any durations at all). */
  datatype Timing = Timing(first: int, iv: int, dur: nat -> nat)

  /** The ticker is created when the first poll has ended. */
  function Zero(b: Timing): int { b.first + b.dur(0) }

  function TickTime(b: Timing, n: nat): int {
    if n == 0 then Zero(b) else TickTime(b, n - 1) + b.iv
  }

  /** How many ticks have fired by time x. */
  function TicksBy(b: Timing, x: int): nat
    requires b.iv > 0
    decreases if x < Zero(b) then 0 else x - Zero(b)
  {
    if x < Zero(b) + b.iv then 0 else TicksBy(b, x - b.iv) + 1
  }

  /** When a receiver that last emptied the channel at r and is ready again at
      e gets its next tick: at once if one fired meanwhile, else at the next. */
  function Due(b: Timing, r: int, e: int): int
    requires b.iv > 0
  {
    if TicksBy(b, e) > TicksBy(b, r) then e else TickTime(b, TicksBy(b, e) + 1)
  }

  /** When poll k begins, and when it ends and beats. */
  function Start(b: Timing, k: nat): int
    requires b.iv > 0
  {
    if k == 0 then b.first
    else Due(b, if k == 1 then Zero(b) else Start(b, k - 1), Start(b, k - 1) + b.dur(k - 1))
  }

  function End(b: Timing, k: nat): int
    requires b.iv > 0
  {
    Start(b, k) + b.dur(k)
  }

  /** When the channel was last known empty before poll k + 1. */
  function Emptied(b: Timing, k: nat): int
    requires b.iv > 0
  {
    if k == 0 then Zero(b) else Start(b, k)
  }

  // ----- the closed form is what a one-slot channel does

  lemma {:induction false} TickTimeIs(b: Timing, n: nat)
    ensures TickTime(b, n) == Zero(b) + n * b.iv
  {
    if n > 0 {
      TickTimeIs(b, n - 1);
      Schedule.Distribute(n - 1, 1, b.iv);
    }
  }

  lemma {:induction false} TickOrder(b: Timing, m: nat, n: nat)
    requires b.iv > 0 && m < n
    ensures TickTime(b, m) + b.iv <= TickTime(b, n)
  {
    if m < n - 1 {
      TickOrder(b, m, n - 1);
    }
  }

  lemma {:induction false} TicksByBounds(b: Timing, x: int)
    requires b.iv > 0 && Zero(b) <= x
    ensures TickTime(b, TicksBy(b, x)) <= x < TickTime(b, TicksBy(b, x) + 1)
    decreases x - Zero(b)
  {
    if x >= Zero(b) + b.iv {
      TicksByBounds(b, x - b.iv);
    }
  }

  /** A tick has fired by a time exactly when the count reaches it. */
  lemma FiredBy(b: Timing, n: nat, x: int)
    requires b.iv > 0 && Zero(b) <= x
    ensures TickTime(b, n) <= x <==> n <= TicksBy(b, x)
  {
    TicksByBounds(b, x);
    if n < TicksBy(b, x) {
      TickOrder(b, n, TicksBy(b, x));
    } else if n > TicksBy(b, x) + 1 {
      TickOrder(b, TicksBy(b, x) + 1, n);
    }
  }

  lemma TicksOrdered(b: Timing, x: int, y: int)
    requires b.iv > 0 && Zero(b) <= x <= y
    ensures TicksBy(b, x) <= TicksBy(b, y)
  {
    FiredBy(b, TicksBy(b, x), x);
    FiredBy(b, TicksBy(b, x), y);
  }

  lemma TicksAtTick(b: Timing, n: nat)
    requires b.iv > 0
    ensures Zero(b) <= TickTime(b, n) && TicksBy(b, TickTime(b, n)) == n
  {
    if n > 0 {
      TickOrder(b, 0, n);
    }
    FiredBy(b, n, TickTime(b, n));
    FiredBy(b, n + 1, TickTime(b, n));
  }

  ghost predicate TickIn(b: Timing, r: int, s: int) {
    exists n: nat :: n >= 1 && r < TickTime(b, n) <= s
  }

  /** A tick lies between two times exactly when the count grows. */
  lemma TickInCounts(b: Timing, r: int, s: int)
    requires b.iv > 0 && Zero(b) <= r <= s
    ensures TickIn(b, r, s) <==> TicksBy(b, r) < TicksBy(b, s)
  {
    TicksOrdered(b, r, s);
    FiredBy(b, TicksBy(b, s), s);
    FiredBy(b, TicksBy(b, s), r);
    if n: nat :| n >= 1 && r < TickTime(b, n) <= s {
      FiredBy(b, n, r);
      FiredBy(b, n, s);
    }
  }

  /** The next tick is received at the first moment at which the receiver is
      ready and some tick has fired since the channel was emptied. */
  lemma DueIsFirstChance(b: Timing, r: int, e: int)
    requires b.iv > 0 && Zero(b) <= r <= e
    ensures e <= Due(b, r, e) <= e + b.iv && TickIn(b, r, Due(b, r, e))
    ensures forall s :: e <= s < Due(b, r, e) ==> !TickIn(b, r, s)
    ensures TicksBy(b, r) < TicksBy(b, Due(b, r, e))
  {
    TicksByBounds(b, e);
    TicksOrdered(b, r, e);
    TicksAtTick(b, TicksBy(b, e) + 1);
    TickInCounts(b, r, Due(b, r, e));
    forall s | e <= s < Due(b, r, e)
      ensures !TickIn(b, r, s)
    {
      FiredBy(b, TicksBy(b, e) + 1, s);
      TickInCounts(b, r, s);
    }
  }

  lemma {:induction false} StartsAdvance(b: Timing, k: nat)
    requires b.iv > 0
    ensures Zero(b) <= Emptied(b, k) <= End(b, k)
    ensures k <= TicksBy(b, Emptied(b, k))
    ensures Start(b, k + 1) == Due(b, Emptied(b, k), End(b, k))
    ensures End(b, k) <= Start(b, k + 1) <= End(b, k) + b.iv
  {
    if k > 0 {
      StartsAdvance(b, k - 1);
      DueIsFirstChance(b, Emptied(b, k - 1), End(b, k - 1));
    }
    DueIsFirstChance(b, Emptied(b, k), End(b, k));
  }

  // ----- the loop itself

  /** What the monitor has heard: before each beat of this loop, whatever the
      rest of the process reported since the one before. */
  function Heard(log: seq<Event>, others: seq<seq<Event>>, beats: seq<int>): seq<Event>
    requires |beats| <= |others|
  {
    if beats == [] then log
    else
      var n := |beats| - 1;
      Heard(log, others, beats[..n]) + others[n] + [BeatAt(beats[n])]
  }

  lemma HeardAdds(log: seq<Event>, others: seq<seq<Event>>, beats: seq<int>, t: int)
    requires |beats| < |others|
    ensures Heard(log, others, beats + [t]) == Heard(log, others, beats) + others[|beats|] + [BeatAt(t)]
  {
    assert (beats + [t])[..|beats|] == beats;
  }

  /** The monitor hears every beat of the loop. */
  lemma {:induction false} HeardTells(log: seq<Event>, others: seq<seq<Event>>, beats: seq<int>, k: nat)
    requires k < |beats| <= |others|
    ensures BeatAt(beats[k]) in Heard(log, others, beats)
  {
    var n := |beats| - 1;
    if k < n {
      HeardTells(log, others, beats[..n], k);
    }
  }

  /** The rest of the process reporting to the monitor. */
  method Hear(hm: Monitor, events: seq<Event>, ghost log: seq<Event>)
    requires hm.Follows(log)
    modifies hm
    ensures hm.Follows(log + events)
  {
    assert log + [] == log;
    for i := 0 to |events|
      invariant hm.Follows(log + events[..i])
    {
      match events[i] {
        case BeatAt(t) => hm.Beat(t, log + events[..i]);
        case ReadyAt(t) => hm.Ready(t, log + events[..i]);
      }
      assert log + events[..i + 1] == log + events[..i] + [events[i]];
    }
    assert events[..|events|] == events;
  }

  /** One more poll's end: the others' reports since the last beat, then this
      loop's own beat. */
  method BeatAmong(hm: Monitor, now: int, others: seq<seq<Event>>, beats: seq<int>, ghost log: seq<Event>)
    returns (more: seq<int>)
    requires |beats| < |others| && hm.Follows(Heard(log, others, beats))
    modifies hm
    ensures more == beats + [now] && hm.Follows(Heard(log, others, more))
  {
    ghost var heard := Heard(log, others, beats);
    Hear(hm, others[|beats|], heard);
    hm.Beat(now, heard + others[|beats|]);
    more := beats + [now];
    HeardAdds(log, others, beats, now);
  }

  /** Waiting on the ticker's channel: the slot keeps one of the ticks that
      fired since it was emptied; an empty slot means waiting for the next. */
  method Receive(b: Timing, ghost r: int, ready: int, pending: int) returns (now: int, nextTick: int)
    requires b.iv > 0 && Zero(b) <= r <= ready && pending == TickTime(b, TicksBy(b, r) + 1)
    ensures now == Due(b, r, ready)
    ensures nextTick == TickTime(b, TicksBy(b, now) + 1)
  {
    nextTick := pending;
    var slot := false;
    ghost var n: nat, last: nat := TicksBy(b, r), TicksBy(b, ready);
    TicksOrdered(b, r, ready);
    while nextTick <= ready
      invariant nextTick == TickTime(b, n + 1)
      invariant TicksBy(b, r) <= n <= last
      invariant slot <==> n > TicksBy(b, r)
      decreases ready - nextTick
    {
      slot := true;
      FiredBy(b, n + 1, ready);
      n := n + 1;
      nextTick := nextTick + b.iv;
    }
    FiredBy(b, n + 1, ready);
    now := ready;
    if !slot {
      now := nextTick;
      TicksAtTick(b, n + 1);
      nextTick := nextTick + b.iv;
    }
  }

  /** The ends of the first n polls. */
  ghost function Ends(b: Timing, n: nat): seq<int>
    requires b.iv > 0
  {
    seq(n, k requires 0 <= k < n => End(b, k))
  }

  /** The first poll ends its duration after it began; each next one begins
      within an interval of the last end and ends its duration later. */
  lemma EndsSpaced(b: Timing, n: nat)
    requires b.iv > 0
    ensures n > 0 ==> Ends(b, n)[0] == b.first + b.dur(0)
    ensures forall k: nat :: k + 1 < n ==>
      Ends(b, n)[k] + b.dur(k + 1) <= Ends(b, n)[k + 1] <= Ends(b, n)[k] + b.iv + b.dur(k + 1)
  {
    forall k: nat | k + 1 < n
      ensures End(b, k) + b.dur(k + 1) <= End(b, k + 1) <= End(b, k) + b.iv + b.dur(k + 1)
    {
      StartsAdvance(b, k);
    }
  }

  /** Every beat so far came at the end of its poll, now is the last of them, and
      the ticker's next tick is the first one after the channel was emptied. */
  ghost predicate OnTime(b: Timing, beats: seq<int>, now: int, nextTick: int)
    requires b.iv > 0
  {
    && beats != [] && beats == Ends(b, |beats|)
    && now == End(b, |beats| - 1)
    && nextTick == TickTime(b, TicksBy(b, Emptied(b, |beats| - 1)) + 1)
  }

  /** From one beat to the end of the next poll. */
  method NextPoll(b: Timing, beats: seq<int>, now: int, nextTick: int) returns (end: int, tick: int)
    requires b.iv > 0 && OnTime(b, beats, now, nextTick)
    ensures OnTime(b, beats + [end], end, tick)
  {
    StartsAdvance(b, |beats| - 1);
    end, tick := Receive(b, Emptied(b, |beats| - 1), now, nextTick);
    assert end == Start(b, |beats|) == Emptied(b, |beats|);
    end := end + b.dur(|beats|);
  }

  /** The polls of a loop, with the ticker spelled out: ticks that fire while a
      poll runs fill one slot and the rest are dropped. */
  method PollLoop(hm: Monitor, b: Timing, polls: nat, others: seq<seq<Event>>, ghost log: seq<Event>)
    returns (beats: seq<int>)
    requires hm.Follows(log) && |others| == polls > 0
    modifies hm
    ensures beats == if b.iv > 0 then Ends(b, polls) else [Zero(b)]
    ensures hm.Follows(Heard(log, others, beats))
  {
    var now := b.first + b.dur(0);
    beats := BeatAmong(hm, now, others, [], log);
    if b.iv <= 0 {
      return;
    }
    var nextTick := now + b.iv;
    TicksAtTick(b, 0);
    assert OnTime(b, beats, now, nextTick);
    while |beats| < polls
      invariant |beats| <= polls && OnTime(b, beats, now, nextTick)
      invariant hm.Follows(Heard(log, others, beats))
    {
      now, nextTick := NextPoll(b, beats, now, nextTick);
      beats := BeatAmong(hm, now, others, beats, log);
    }
  }

  /** When a loop launched at this time begins its first poll. */
  function Staggered(launch: int, stagger: int): int {
    if stagger > 0 then launch + stagger else launch
  }

  /** loopBeacon. `polls` is how many polls begin before the context is
      cancelled, none when that happens during the stagger. */
  method LoopBeacon(hm: Monitor, launch: int, stagger: int, iv: int, dur: nat -> nat, polls: nat,
                    others: seq<seq<Event>>, ghost log: seq<Event>)
    returns (beats: seq<int>)
    requires hm.Follows(log) && |others| == polls
    modifies hm
    ensures var b := Timing(Staggered(launch, stagger), iv, dur);
      beats == if polls == 0 then [] else if iv > 0 then Ends(b, polls) else [Zero(b)]
    ensures polls > 0 ==> beats[0] == launch + (if stagger > 0 then stagger else 0) + dur(0)
    ensures forall k: nat :: k + 1 < |beats| ==> beats[k] + dur(k + 1) <= beats[k + 1] <= beats[k] + iv + dur(k + 1)
    ensures hm.Follows(Heard(log, others, beats))
  {
    if polls == 0 {
      return [];
    }
    var now := launch;
    if stagger > 0 {
      now := now + stagger;
    }
    beats := PollLoop(hm, Timing(now, iv, dur), polls, others, log);
    if iv > 0 {
      EndsSpaced(Timing(now, iv, dur), polls);
    }
  }
}
