/** The pacing of internal/delivery/discord.go: a minimum gap between posts. */
module Pacing {
  import opened Core
  import Schedule

  /** One call of pace: when it begins, whether its context is cancelled before
      the wait is over, and how late its stamp is taken after the wait. */
  datatype Call = Call(begin: int, cancelled: bool, late: nat)

  function Wait(minSpacing: int, last: Option<int>, begin: int): int {
    if minSpacing > 0 && last.Some? && begin - last.value < minSpacing
    then minSpacing - (begin - last.value)
    else 0
  }

  /** The stamp a call leaves, if it is not cancelled while waiting. */
  function StampOf(minSpacing: int, last: Option<int>, c: Call): Option<int> {
    var wait := Wait(minSpacing, last, c.begin);
    if wait > 0 && c.cancelled then None else Some(c.begin + wait + c.late)
  }

  function LastOf(stamps: seq<int>): Option<int> {
    if stamps == [] then None else Some(stamps[|stamps| - 1])
  }

  /** The stamps of a run of calls. */
  function Stamps(minSpacing: int, calls: seq<Call>): seq<int> {
    if calls == [] then []
    else
      var before := Stamps(minSpacing, calls[..|calls| - 1]);
      var stamp := StampOf(minSpacing, LastOf(before), calls[|calls| - 1]);
      if stamp.None? then before else before + [stamp.value]
  }

  class Discord {
    const minSpacing: int
    var lastPost: Option<int>

    constructor (minSpacing: int)
      ensures this.minSpacing == minSpacing && lastPost == None
    {
      this.minSpacing, lastPost := minSpacing, None;
    }

    method Pace(c: Call) returns (ok: bool)
      modifies this
      ensures ok <==> StampOf(minSpacing, old(lastPost), c).Some?
      ensures lastPost == if ok then StampOf(minSpacing, old(lastPost), c) else old(lastPost)
    {
      var wait := 0;
      if minSpacing > 0 && lastPost.Some? {
        var elapsed := c.begin - lastPost.value;
        if elapsed < minSpacing {
          wait := minSpacing - elapsed;
        }
      }
      if wait > 0 && c.cancelled {
        return false;
      }
      lastPost := Some(c.begin + wait + c.late);
      return true;
    }

    /** A new sink's calls, one after the other. */
    method PaceAll(calls: seq<Call>) returns (stamps: seq<int>)
      requires lastPost == None
      modifies this
      ensures stamps == Stamps(minSpacing, calls) && lastPost == LastOf(stamps)
    {
      stamps := [];
      for i := 0 to |calls|
        invariant stamps == Stamps(minSpacing, calls[..i]) && lastPost == LastOf(stamps)
      {
        assert calls[..i + 1][..i] == calls[..i];
        var ok := Pace(calls[i]);
        if ok {
          stamps := stamps + [lastPost.value];
        }
      }
      assert calls[..|calls|] == calls;
    }
  }

  ghost predicate Spaced(stamps: seq<int>, gap: int) {
    forall i :: 0 < i < |stamps| ==> stamps[i] - stamps[i - 1] >= gap
  }

  lemma {:induction false} StampsSpaced(minSpacing: int, calls: seq<Call>)
    requires minSpacing > 0
    ensures Spaced(Stamps(minSpacing, calls), minSpacing)
  {
    if calls != [] {
      StampsSpaced(minSpacing, calls[..|calls| - 1]);
    }
  }

  function InWindow(stamps: seq<int>, from: int, length: int): nat {
    if stamps == [] then 0
    else
      var x := stamps[|stamps| - 1];
      InWindow(stamps[..|stamps| - 1], from, length) + if from <= x < from + length then 1 else 0
  }

  lemma {:induction false} WindowFills(stamps: seq<int>, gap: int, from: int, length: int)
    requires gap > 0 && length >= 0 && Spaced(stamps, gap)
    ensures var n := InWindow(stamps, from, length);
      && (n > 0 ==> stamps[|stamps| - 1] >= from + (n - 1) * gap)
      && n * gap < length + gap
  {
    if stamps != [] {
      var init, x := stamps[..|stamps| - 1], stamps[|stamps| - 1];
      WindowFills(init, gap, from, length);
      var n := InWindow(init, from, length);
      if from <= x < from + length {
        assert InWindow(stamps, from, length) == n + 1;
        assert n > 0 ==> x >= init[|init| - 1] + gap;
        assert n * gap == (n - 1) * gap + gap;
        assert (n + 1) * gap == n * gap + gap;
      }
    }
  }

  /** However calls arrive and whichever are cancelled, posts are at least the
      minimum spacing apart, so a half-open window of length L holds at most
      ⌈L/spacing⌉ of them. */
  lemma PacingBound(minSpacing: int, calls: seq<Call>, from: int, length: int)
    requires minSpacing > 0 && length >= 0
    ensures Spaced(Stamps(minSpacing, calls), minSpacing)
    ensures InWindow(Stamps(minSpacing, calls), from, length) <= (length + minSpacing - 1) / minSpacing
  {
    StampsSpaced(minSpacing, calls);
    WindowFills(Stamps(minSpacing, calls), minSpacing, from, length);
    Schedule.DivAtLeast(length + minSpacing - 1, minSpacing, InWindow(Stamps(minSpacing, calls), from, length));
  }

  /** The window counts the stamps in it, each once. */
  lemma {:induction false} WindowCounts(stamps: seq<int>, from: int, length: int)
    ensures InWindow(stamps, from, length) == |set i: nat | i < |stamps| && from <= stamps[i] < from + length|
  {
    var hits := set i: nat | i < |stamps| && from <= stamps[i] < from + length;
    if stamps == [] {
      assert hits == {};
    } else {
      var n := |stamps| - 1;
      WindowCounts(stamps[..n], from, length);
      var before := set i: nat | i < n && from <= stamps[..n][i] < from + length;
      assert hits == if from <= stamps[n] < from + length then before + {n} else before;
    }
  }

  /** A call waits exactly as long as it must: not at all without a spacing,
      without an earlier post or after the gap, else until the gap is over. It
      leaves no stamp exactly when it is cancelled during a wait; otherwise the
      time at which the wait ended, or as much later as it is late. */
  lemma WaitsJustEnough(minSpacing: int, last: Option<int>, c: Call)
    ensures var due := if minSpacing > 0 && last.Some? && c.begin < last.value + minSpacing
                       then last.value + minSpacing else c.begin;
      && Wait(minSpacing, last, c.begin) == due - c.begin >= 0
      && (StampOf(minSpacing, last, c).None? <==> due > c.begin && c.cancelled)
      && (StampOf(minSpacing, last, c).Some? ==> StampOf(minSpacing, last, c).value == due + c.late)
  {
  }

  // ----- one sink after another

  /** The stamps of successive polls to one webhook, each with a sink of its
      own; a new sink knows nothing of the posts before it. */
  function AllStamps(minSpacing: int, runs: seq<seq<Call>>): seq<int> {
    if runs == [] then []
    else AllStamps(minSpacing, runs[..|runs| - 1]) + Stamps(minSpacing, runs[|runs| - 1])
  }

  /** A new sink never waits for its first call. */
  lemma {:induction false} FirstStamp(minSpacing: int, calls: seq<Call>)
    requires calls != []
    ensures Stamps(minSpacing, calls) != [] && Stamps(minSpacing, calls)[0] == calls[0].begin + calls[0].late
  {
    var init := calls[..|calls| - 1];
    if init != [] {
      FirstStamp(minSpacing, init);
    }
  }

  lemma SpacedConcat(a: seq<int>, b: seq<int>, gap: int)
    ensures Spaced(a + b, gap) <==>
      Spaced(a, gap) && Spaced(b, gap) && (a != [] && b != [] ==> b[0] - a[|a| - 1] >= gap)
  {
    var all := a + b;
    if Spaced(all, gap) {
      forall i | 0 < i < |b| ensures b[i] - b[i - 1] >= gap {
        assert all[|a| + i] == b[i] && all[|a| + i - 1] == b[i - 1];
      }
      forall i | 0 < i < |a| ensures a[i] - a[i - 1] >= gap {
        assert all[i] == a[i] && all[i - 1] == a[i - 1];
      }
      if a != [] && b != [] {
        assert all[|a|] == b[0] && all[|a| - 1] == a[|a| - 1];
      }
    }
  }

  /** Run m starts late enough after everything the earlier sinks stamped. */
  ghost predicate StartsClear(minSpacing: int, runs: seq<seq<Call>>, m: nat)
    requires m < |runs|
  {
    var before := AllStamps(minSpacing, runs[..m]);
    before != [] && runs[m] != [] ==> runs[m][0].begin + runs[m][0].late - before[|before| - 1] >= minSpacing
  }

  ghost predicate AllClear(minSpacing: int, runs: seq<seq<Call>>) {
    forall m: nat :: m < |runs| ==> StartsClear(minSpacing, runs, m)
  }

  lemma ClearNext(minSpacing: int, runs: seq<seq<Call>>)
    requires runs != []
    ensures AllClear(minSpacing, runs) <==>
      AllClear(minSpacing, runs[..|runs| - 1]) && StartsClear(minSpacing, runs, |runs| - 1)
  {
    var n := |runs| - 1;
    forall m: nat | m < n
      ensures StartsClear(minSpacing, runs, m) <==> StartsClear(minSpacing, runs[..n], m)
    {
      assert runs[..n][..m] == runs[..m];
    }
  }

  lemma OneMoreSink(minSpacing: int, runs: seq<seq<Call>>)
    requires minSpacing > 0 && runs != []
    ensures Spaced(AllStamps(minSpacing, runs), minSpacing) <==>
      Spaced(AllStamps(minSpacing, runs[..|runs| - 1]), minSpacing) && StartsClear(minSpacing, runs, |runs| - 1)
  {
    var n := |runs| - 1;
    StampsSpaced(minSpacing, runs[n]);
    SpacedConcat(AllStamps(minSpacing, runs[..n]), Stamps(minSpacing, runs[n]), minSpacing);
    if runs[n] != [] {
      FirstStamp(minSpacing, runs[n]);
    }
  }

  /** The minimum gap holds across polls exactly when each poll's first post
      happens to come that much after the last post before it. */
  lemma {:induction false} SpacedAcrossSinks(minSpacing: int, runs: seq<seq<Call>>)
    requires minSpacing > 0
    ensures Spaced(AllStamps(minSpacing, runs), minSpacing) <==> AllClear(minSpacing, runs)
  {
    if runs != [] {
      SpacedAcrossSinks(minSpacing, runs[..|runs| - 1]);
      OneMoreSink(minSpacing, runs);
      ClearNext(minSpacing, runs);
    }
  }

  lemma {:induction false} WindowConcat(a: seq<int>, b: seq<int>, from: int, length: int)
    ensures InWindow(a + b, from, length) == InWindow(a, from, length) + InWindow(b, from, length)
  {
    if b == [] {
      assert a + b == a;
    } else {
      var n := |b| - 1;
      WindowConcat(a, b[..n], from, length);
      assert (a + b)[..|a + b| - 1] == a + b[..n];
    }
  }

  /** Over any polls a half-open window of length L still holds at most
      ⌈L/spacing⌉ posts of each sink. */
  lemma {:induction false} SinksBound(minSpacing: int, runs: seq<seq<Call>>, from: int, length: int)
    requires minSpacing > 0 && length >= 0
    ensures InWindow(AllStamps(minSpacing, runs), from, length) <= |runs| * ((length + minSpacing - 1) / minSpacing)
  {
    if runs != [] {
      var n, most := |runs| - 1, (length + minSpacing - 1) / minSpacing;
      SinksBound(minSpacing, runs[..n], from, length);
      PacingBound(minSpacing, runs[n], from, length);
      WindowConcat(AllStamps(minSpacing, runs[..n]), Stamps(minSpacing, runs[n]), from, length);
      Schedule.Distribute(n, 1, most);
    }
  }

  /** That bound cannot be lowered to one sink's: n sinks can post at one
      instant. */
  lemma {:induction false} SinksAtOnce(minSpacing: int, now: int, n: nat)
    ensures var runs := seq(n, _ => [Call(now, false, 0)]);
      AllStamps(minSpacing, runs) == seq(n, _ => now)
  {
    var runs := seq(n, _ => [Call(now, false, 0)]);
    if n > 0 {
      SinksAtOnce(minSpacing, now, n - 1);
      assert runs[..n - 1] == seq(n - 1, _ => [Call(now, false, 0)]);
      FirstStamp(minSpacing, [Call(now, false, 0)]);
      OneStamp(minSpacing, Call(now, false, 0));
      assert seq(n, _ => now) == seq(n - 1, _ => now) + [now];
    }
  }

  lemma OneStamp(minSpacing: int, c: Call)
    ensures Stamps(minSpacing, [c]) == [c.begin + c.late]
  {
    assert [c][..0] == [];
    assert Stamps(minSpacing, [c][..0]) == [];
  }
}
