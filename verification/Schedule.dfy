/** Interval arithmetic of cmd/sos-beacon/main.go. Durations are int64
    nanoseconds; the one product the program forms is modelled with its
    wrap-around. */
module Schedule {
  import opened Core

  const TWO_63 := 0x8000_0000_0000_0000
  const TWO_64 := 0x1_0000_0000_0000_0000
  const MINUTE := 60_000_000_000

  /** A trimmed poll_interval setting after duration parsing. */
  datatype IntervalSetting = Unset | Every(nanos: int) | Unparsable

  function ResolveInterval(s: IntervalSetting, global: int): Option<int> {
    match s
    case Unset => Some(global)
    case Every(d) => Some(d)
    case Unparsable => None
  }

  /** A beacon's own interval wins over the global one, whichever is longer; one
      that does not parse leaves the beacon without any. */
  lemma OwnIntervalWins(s: IntervalSetting, global: int)
    ensures s == Unset ==> ResolveInterval(s, global) == Some(global)
    ensures forall d :: s == Every(d) ==> ResolveInterval(s, global) == Some(d)
    ensures s == Unparsable ==> ResolveInterval(s, global) == None
  {
  }

  predicate LoopMode(settings: seq<IntervalSetting>, global: int) {
    global > 0 || exists i | 0 <= i < |settings| :: !settings[i].Unset?
  }

  /** The largest interval in effect, or a minute when none is positive. */
  ghost predicate IsMaxInterval(settings: seq<IntervalSetting>, global: int, max: int) {
    && max > 0 && global <= max
    && (forall i :: 0 <= i < |settings| && ResolveInterval(settings[i], global).Some? ==>
          ResolveInterval(settings[i], global).value <= max)
    && (|| max == global
        || (exists i :: 0 <= i < |settings| && ResolveInterval(settings[i], global) == Some(max))
        || (max == MINUTE && global <= 0 &&
            forall i :: 0 <= i < |settings| && ResolveInterval(settings[i], global).Some? ==>
              ResolveInterval(settings[i], global).value <= 0))
  }

  method MaxPollInterval(settings: seq<IntervalSetting>, global: int) returns (max: int)
    ensures IsMaxInterval(settings, global, max)
    ensures max > 0 && global <= max && forall d :: Every(d) in settings ==> d <= max
    ensures max == global || Every(max) in settings
      || (max == 60_000_000_000 && global <= 0 && forall d :: Every(d) in settings ==> d <= 0)
  {
    max := global;
    for i := 0 to |settings|
      invariant global <= max
      invariant forall k :: 0 <= k < i && ResolveInterval(settings[k], global).Some? ==>
        ResolveInterval(settings[k], global).value <= max
      invariant max == global || exists k :: 0 <= k < i && ResolveInterval(settings[k], global) == Some(max)
    {
      var iv := ResolveInterval(settings[i], global);
      if iv.Some? && iv.value > max {
        max := iv.value;
      }
    }
    assert forall d :: Every(d) in settings ==> d <= max;
    assert max == global || Every(max) in settings;
    if max <= 0 {
      max := MINUTE;
    }
  }

  lemma MaxIntervalUnique(settings: seq<IntervalSetting>, global: int, a: int, b: int)
    requires IsMaxInterval(settings, global, a) && IsMaxInterval(settings, global, b)
    ensures a == b
  {
  }

  /** No interval in effect, global or a beacon's own, is positive. */
  predicate NonePositive(settings: seq<IntervalSetting>, global: int) {
    global <= 0 && forall i :: 0 <= i < |settings| ==>
      ResolveInterval(settings[i], global).Some? ==> ResolveInterval(settings[i], global).value <= 0
  }

  /** The process runs once and ends exactly when no interval is configured. */
  lemma OneShotExactly(settings: seq<IntervalSetting>, global: int)
    ensures !LoopMode(settings, global) <==> global <= 0 && forall s :: s in settings ==> s == Unset
  {
    assert forall i :: 0 <= i < |settings| ==> settings[i] in settings;
    if !LoopMode(settings, global) {
      forall s | s in settings ensures s == Unset {
        var i :| 0 <= i < |settings| && settings[i] == s;
      }
    }
  }

  /** Loop mode does not imply a positive interval. It lacks one exactly when the
      global one is not positive, some poll_interval is set, and none that parses
      is positive; that is when the minute is the fallback. */
  lemma LoopModeCanFallBack(settings: seq<IntervalSetting>, global: int, max: int)
    requires IsMaxInterval(settings, global, max)
    ensures LoopMode(settings, global) && NonePositive(settings, global) <==>
      && global <= 0 && (exists i :: 0 <= i < |settings| && !settings[i].Unset?)
      && forall i :: 0 <= i < |settings| && settings[i].Every? ==> settings[i].nanos <= 0
    ensures if NonePositive(settings, global) then max == MINUTE
      else max == global || exists i :: 0 <= i < |settings| && ResolveInterval(settings[i], global) == Some(max)
  {
  }

  // ----- stagger

  /** The int64 that a mathematical product becomes. */
  function Wrap64(x: int): int { (x + TWO_63) % TWO_64 - TWO_63 }

  /** Go's division truncates toward zero. */
  function TruncDiv(x: int, n: int): int
    requires n > 0
  {
    if x >= 0 then x / n else -((-x) / n)
  }

  function StaggerOffset(index: int, count: int, interval: int): int {
    if count <= 1 || interval <= 0 then 0
    else TruncDiv(Wrap64(interval * index), count)
  }

  // ----- floors and products

  lemma MulMonotone(a: int, b: int, c: int)
    requires a >= 0 && b <= c
    ensures a * b <= a * c
  {
  }

  lemma Distribute(a: int, b: int, n: int)
    ensures (a + b) * n == a * n + b * n
  {
  }

  lemma DivMod(x: int, n: int)
    requires n > 0
    ensures x / n * n <= x < x / n * n + n
  {
  }

  lemma DivAtLeast(x: int, n: int, q: int)
    requires n > 0 && x >= q * n
    ensures x / n >= q
  {
    var d := x / n;
    DivMod(x, n);
    if d < q {
      MulMonotone(n, d + 1, q);
      Distribute(d, 1, n);
    }
  }

  lemma DivBelow(x: int, q: int, n: int)
    requires n > 0 && x < q * n
    ensures x / n < q
  {
    var d := x / n;
    DivMod(x, n);
    if d >= q {
      MulMonotone(n, q, d);
    }
  }

  lemma DivGap(w: int, x: int, n: int)
    requires n > 0 && w + n <= x
    ensures w / n < x / n
  {
    var d := w / n;
    DivMod(w, n);
    Distribute(d, 1, n);
    DivAtLeast(x, n, d + 1);
  }

  lemma DivMonotone(a: int, b: int, n: int)
    requires n > 0 && a <= b
    ensures a / n <= b / n
  {
    DivMod(a, n);
    DivAtLeast(b, n, a / n);
  }

  /** The floor of a sum is at least the sum of the floors. */
  lemma DivParts(a: int, b: int, n: int)
    requires n > 0
    ensures a / n + b / n <= (a + b) / n
  {
    DivMod(a, n);
    DivMod(b, n);
    Distribute(a / n, b / n, n);
    DivAtLeast(a + b, n, a / n + b / n);
  }

  lemma DivShift(a: int, q: int, n: int)
    requires n > 0
    ensures (a + q * n) / n == a / n + q
  {
    var d, x := a / n, a + q * n;
    DivMod(a, n);
    Distribute(d, q, n);
    Distribute(d + q, 1, n);
    DivAtLeast(x, n, d + q);
    DivBelow(x, d + q + 1, n);
  }

  // ----- the stagger's arithmetic

  /** Wrapping lands in the int64 range and moves by whole multiples of 2^64. */
  lemma WrapMeans(x: int)
    ensures -0x8000_0000_0000_0000 <= Wrap64(x) < 0x8000_0000_0000_0000
    ensures (x - Wrap64(x)) % 0x1_0000_0000_0000_0000 == 0
  {
    var q := (x + TWO_63) / TWO_64;
    assert x + TWO_63 == q * TWO_64 + (x + TWO_63) % TWO_64;
    assert x - Wrap64(x) == q * TWO_64;
  }

  /** Division toward zero: the remainder is smaller than the divisor and never
      of the other sign. */
  lemma TruncMeans(x: int, n: int)
    requires n > 0
    ensures var r := x - TruncDiv(x, n) * n; -n < r < n && (x >= 0 ==> r >= 0) && (x <= 0 ==> r <= 0)
  {
    DivMod(x, n);
    DivMod(-x, n);
    var q := (-x) / n;
    assert (-q) * n == -(q * n);
  }

  lemma WrapLoses(x: int)
    requires x >= 0
    ensures x < TWO_63 ==> Wrap64(x) == x
    ensures x >= TWO_63 ==> Wrap64(x) <= x - TWO_64
  {
    var q := (x + TWO_63) / TWO_64;
    assert x + TWO_63 == q * TWO_64 + (x + TWO_63) % TWO_64;
    if x >= TWO_63 {
      assert q >= 1;
    }
  }

  lemma TruncAfterWrap(x: int, n: int)
    requires x >= 0 && 0 < n < TWO_63
    ensures TruncDiv(Wrap64(x), n) == x / n <==> x < TWO_63
  {
    var w := Wrap64(x);
    WrapLoses(x);
    if x >= TWO_63 {
      if w < 0 {
        DivAtLeast(-w, n, 0);
        DivAtLeast(x, n, 1);
      } else {
        DivGap(w, x, n);
      }
    }
  }

  /** With int64 inputs the offset is the exact fraction of the interval if and
      only if the product fits. */
  lemma StaggerExact(index: int, count: int, interval: int)
    requires 2 <= count < TWO_63 && 0 <= index < count && 0 < interval < TWO_63
    ensures StaggerOffset(index, count, interval) == interval * index / count <==> interval * index < TWO_63
  {
    MulMonotone(interval, 0, index);
    TruncAfterWrap(interval * index, count);
  }

  /** Even when the product wraps, an offset stays under the interval. */
  lemma StaggerBelowInterval(index: nat, count: nat, interval: int)
    requires index < count && interval > 0
    ensures StaggerOffset(index, count, interval) < interval
  {
    var x := interval * index;
    MulMonotone(interval, 0, index);
    WrapLoses(x);
    var w := Wrap64(x);
    if count > 1 && w >= 0 {
      MulMonotone(interval, index + 1, count);
      assert interval * (index + 1) == x + interval;
      DivBelow(w, interval, count);
    } else if count > 1 {
      DivAtLeast(-w, count, 0);
    }
  }

  /** The spread in terms of the products: x for the lower index, `step` more
      for the higher one, `back` more to come around to the lower one again. */
  lemma SpreadOf(x: int, step: int, back: int, n: int, interval: int, whole: int)
    requires n > 0 && x >= 0 && interval > 0 && step >= interval && back >= interval
    requires step + back == whole == interval * n && x + step < whole
    ensures var a, b := x / n, (x + step) / n;
      0 <= a <= b < interval && b - a >= interval / n && interval - (b - a) >= interval / n
  {
    DivAtLeast(interval, n, 0);
    DivAtLeast(x, n, 0);
    DivParts(x, step, n);
    DivMonotone(interval, step, n);
    DivParts(x + step, back, n);
    DivMonotone(interval, back, n);
    DivShift(x, interval, n);
    DivBelow(x + step, interval, n);
  }

  /** Offsets of equal-interval beacons lie within one interval, grow with the
      index, and keep any two beacons at least ⌊interval/count⌋ apart both ways
      around. */
  lemma StaggerSpread(i: int, j: int, count: int, interval: int)
    requires 2 <= count < TWO_63 && 0 <= i < j < count && 0 < interval
    requires interval * (count - 1) < TWO_63
    ensures var a, b := StaggerOffset(i, count, interval), StaggerOffset(j, count, interval);
      && 0 <= a <= b < interval
      && b - a >= interval / count
      && interval - (b - a) >= interval / count
  {
    Products(i, j, count, interval);
    StaggerExact(i, count, interval);
    StaggerExact(j, count, interval);
    SpreadOf(interval * i, interval * j - interval * i, interval * count - (interval * j - interval * i),
             count, interval, interval * count);
  }

  lemma Products(i: int, j: int, count: int, interval: int)
    requires 0 <= i < j < count && interval > 0
    ensures 0 <= interval * i && interval * i + interval <= interval * j <= interval * (count - 1)
    ensures interval <= interval * (count - 1)
    ensures interval * j + interval <= interval * count
    ensures interval * count - (interval * j - interval * i) >= interval
  {
    MulMonotone(interval, 0, i);
    MulMonotone(interval, i + 1, j);
    MulMonotone(interval, j, count - 1);
    MulMonotone(interval, 1, count - 1);
    assert interval * (i + 1) == interval * i + interval;
    assert interval * count == interval * (count - 1) + interval;
  }
}
