/** The heartbeat of internal/health/health.go. Each method reads or writes the
    monitor's atomics in one step at a time given by the caller's clock. */
module Health {
  const OK := 200
  const UNAVAILABLE := 503

  datatype Event = ReadyAt(t: int) | BeatAt(t: int)

  /** The time of the newest beat in a log; creation counts as the first. */
  function LastBeat(start: int, log: seq<Event>): int {
    if log == [] then start
    else match log[|log| - 1]
      case BeatAt(t) => t
      case ReadyAt(_) => LastBeat(start, log[..|log| - 1])
  }

  predicate IsReady(log: seq<Event>) {
    exists i | 0 <= i < |log| :: log[i].ReadyAt?
  }

  predicate Healthy(start: int, staleAfter: int, log: seq<Event>, now: int) {
    IsReady(log) && now - LastBeat(start, log) < staleAfter
  }

  class Monitor {
    const staleAfter: int
    const start: int
    var ready: bool
    var lastBeat: int

    ghost predicate Follows(log: seq<Event>)
      reads this
    {
      ready == IsReady(log) && lastBeat == LastBeat(start, log)
    }

    constructor (staleAfter: int, now: int)
      ensures this.staleAfter == staleAfter && start == now && Follows([])
    {
      this.staleAfter, start, ready, lastBeat := staleAfter, now, false, now;
    }

    method Ready(now: int, ghost log: seq<Event>)
      requires Follows(log)
      modifies this
      ensures Follows(log + [ReadyAt(now)])
    {
      ready := true;
      assert (log + [ReadyAt(now)])[|log|] == ReadyAt(now);
      assert (log + [ReadyAt(now)])[..|log|] == log;
    }

    method Beat(now: int, ghost log: seq<Event>)
      requires Follows(log)
      modifies this
      ensures Follows(log + [BeatAt(now)])
    {
      lastBeat := now;
      ghost var after := log + [BeatAt(now)];
      assert forall i :: 0 <= i < |log| ==> after[i] == log[i];
      assert IsReady(log) ==> IsReady(after) by {
        if IsReady(log) {
          var i :| 0 <= i < |log| && log[i].ReadyAt?;
          assert after[i].ReadyAt?;
        }
      }
    }

    method Readyz(ghost log: seq<Event>) returns (code: int)
      requires Follows(log)
      ensures code == if exists i :: 0 <= i < |log| && log[i].ReadyAt? then 200 else 503
    {
      code := if ready then OK else UNAVAILABLE;
    }

    method Healthz(now: int, ghost log: seq<Event>) returns (code: int)
      requires Follows(log)
      ensures code == if Healthy(start, staleAfter, log, now) then 200 else 503
      ensures code == 200 ==> exists i :: 0 <= i < |log| && log[i].ReadyAt?
    {
      var age := now - lastBeat;
      code := if ready && age < staleAfter then OK else UNAVAILABLE;
    }
  }

  /** Events in the order of a clock that never runs back. */
  ghost predicate Ordered(start: int, log: seq<Event>) {
    && (forall i :: 0 <= i < |log| ==> start <= log[i].t)
    && (forall i, j :: 0 <= i < j < |log| ==> log[i].t <= log[j].t)
  }

  lemma {:induction false} LastBeatIsNewest(start: int, log: seq<Event>)
    requires Ordered(start, log)
    ensures LastBeat(start, log) == start || BeatAt(LastBeat(start, log)) in log
    ensures start <= LastBeat(start, log)
    ensures forall x :: BeatAt(x) in log ==> x <= LastBeat(start, log)
  {
    if log != [] {
      var init := log[..|log| - 1];
      LastBeatIsNewest(start, init);
      assert forall e :: e in log <==> e in init || e == log[|log| - 1];
      forall x | BeatAt(x) in log ensures x <= LastBeat(start, log) {
        var i :| 0 <= i < |log| && log[i] == BeatAt(x);
        if i == |log| - 1 {
        } else {
          assert init[i] == BeatAt(x);
        }
      }
    }
  }

  /** With an orderly clock the process is healthy exactly when it is ready and
      something beat (or it started) within the window. */
  lemma HealthyMeans(start: int, staleAfter: int, log: seq<Event>, now: int)
    requires Ordered(start, log)
    ensures Healthy(start, staleAfter, log, now) <==>
      IsReady(log) && (now - start < staleAfter || exists x :: BeatAt(x) in log && now - x < staleAfter)
  {
    LastBeatIsNewest(start, log);
    if Healthy(start, staleAfter, log, now) && LastBeat(start, log) != start {
      assert BeatAt(LastBeat(start, log)) in log;
    }
  }

  /** Once all beats have stopped the process is unhealthy from `staleAfter`
      later on, until the next beat. */
  lemma SilenceIsStale(start: int, staleAfter: int, log: seq<Event>, last: int, now: int)
    requires Ordered(start, log) && start <= last && forall x :: BeatAt(x) in log ==> x <= last
    requires last + staleAfter <= now
    ensures !Healthy(start, staleAfter, log, now)
    ensures staleAfter > 0 && IsReady(log) ==> Healthy(start, staleAfter, log + [BeatAt(now)], now)
  {
    HealthyMeans(start, staleAfter, log, now);
    var again := log + [BeatAt(now)];
    if IsReady(log) {
      var i :| 0 <= i < |log| && log[i].ReadyAt?;
      assert again[i].ReadyAt?;
    }
  }
}
