/**
 * RSSI smoothing: a weighted moving average over a bounded per-beacon
 * window of integer RSSI samples (dBm).
 *
 * Smoothed values are represented exactly, in hundredths of a dBm: the
 * source rounds the average to two decimals with `Math.round(x * 100) / 100`,
 * and `Math.round` rounds half up, so the smoothed value is the integer
 * floor(100 * x + 1/2), read as hundredths.
 */
module SignalProcessing {
  import opened Optional

  /** Sum of samples[i] * (i + 1): the oldest sample weighs 1, the newest |samples|. */
  function WeightedSum(samples: seq<int>): int
  {
    if samples == [] then 0
    else WeightedSum(samples[..|samples| - 1]) + samples[|samples| - 1] * |samples|
  }

  /** 1 + 2 + ... + n, the total weight of a window of n samples. */
  function WeightTotal(n: nat): nat
  {
    if n == 0 then 0 else WeightTotal(n - 1) + n
  }

  /** Math.round(100 * num / den), i.e. the integer nearest to 100 * num / den, ties rounded up. */
  function RoundToHundredths(num: int, den: int): (r: int)
    requires den > 0
    ensures (2 * r - 1) * den <= 200 * num < (2 * r + 1) * den
  {
    (200 * num + den) / (2 * den)
  }

  /** The weighted moving average of a window, in hundredths of a dBm; 0 for an empty window. */
  function Wma(samples: seq<int>): (r: int)
    ensures samples == [] ==> r == 0
    ensures samples != [] ==>
      (2 * r - 1) * WeightTotal(|samples|) <= 200 * WeightedSum(samples) < (2 * r + 1) * WeightTotal(|samples|)
    ensures |samples| == 1 ==> r == 100 * samples[0]
  {
    if samples == [] then 0
    else
      assert |samples| == 1 ==> samples[..0] == [];
      RoundToHundredths(WeightedSum(samples), WeightTotal(|samples|))
  }

  /** weightedMovingAverage: the accumulating loop of the source, proved against Wma. */
  method WeightedMovingAverage(values: seq<int>) returns (r: int)
    ensures r == Wma(values)
    ensures values == [] ==> r == 0
  {
    if |values| == 0 {
      return 0;
    }
    var weightedSum := 0;
    var weightTotal := 0;
    var i := 0;
    while i < |values|
      invariant 0 <= i <= |values|
      invariant weightedSum == WeightedSum(values[..i])
      invariant weightTotal == WeightTotal(i)
    {
      var weight := i + 1;
      assert values[..i + 1][..i] == values[..i];
      weightedSum := weightedSum + values[i] * weight;
      weightTotal := weightTotal + weight;
      i := i + 1;
    }
    assert values[..i] == values;
    r := RoundToHundredths(weightedSum, weightTotal);
  }

  lemma MulMonotone(a: int, b: int, n: nat)
    requires a <= b
    ensures a * n <= b * n
  {
  }

  lemma MulCancel(a: int, b: int, n: int)
    requires n > 0 && a * n < b * n
    ensures a < b
  {
  }

  /** A window whose samples all lie in [lo, hi] has a weighted sum between lo and hi times its total weight. */
  lemma {:induction false} WeightedSumBounds(s: seq<int>, lo: int, hi: int)
    requires forall i :: 0 <= i < |s| ==> lo <= s[i] <= hi
    ensures lo * WeightTotal(|s|) <= WeightedSum(s) <= hi * WeightTotal(|s|)
  {
    if s != [] {
      var n := |s|;
      WeightedSumBounds(s[..n - 1], lo, hi);
      MulMonotone(lo, s[n - 1], n);
      MulMonotone(s[n - 1], hi, n);
      assert WeightTotal(n) == WeightTotal(n - 1) + n;
    }
  }

  /** The smoothed value of a non-empty window lies between its smallest and its largest sample. */
  lemma WmaWithinRange(s: seq<int>, lo: int, hi: int)
    requires s != []
    requires forall i :: 0 <= i < |s| ==> lo <= s[i] <= hi
    ensures 100 * lo <= Wma(s) <= 100 * hi
  {
    var w := WeightTotal(|s|);
    var sum := WeightedSum(s);
    var r := RoundToHundredths(sum, w);
    WeightedSumBounds(s, lo, hi);
    assert (2 * r - 1) * w <= 200 * sum < (2 * r + 1) * w;
    RoundedAbove(lo, sum, w, r);
    RoundedBelow(hi, sum, w, r);
  }

  lemma RoundedAbove(lo: int, sum: int, w: int, r: int)
    requires w > 0 && lo * w <= sum && 200 * sum < (2 * r + 1) * w
    ensures 100 * lo <= r
  {
    assert (200 * lo) * w == 200 * (lo * w);
    MulCancel(200 * lo, 2 * r + 1, w);
  }

  lemma RoundedBelow(hi: int, sum: int, w: int, r: int)
    requires w > 0 && sum <= hi * w && (2 * r - 1) * w <= 200 * sum
    ensures r <= 100 * hi
  {
    assert (200 * hi + 1) * w == 200 * (hi * w) + w;
    MulCancel(2 * r - 1, 200 * hi + 1, w);
  }

  /** A window holding one value repeated smooths to exactly that value. */
  lemma WmaOfConstantWindow(s: seq<int>, c: int)
    requires s != []
    requires forall i :: 0 <= i < |s| ==> s[i] == c
    ensures Wma(s) == 100 * c
  {
    WmaWithinRange(s, c, c);
  }

  /** The documented example: samples -70, -65, -60 (weights 1, 2, 3) smooth to -63.33. */
  lemma WmaExample()
    ensures Wma([-70, -65, -60]) == -6333
  {
    assert WeightTotal(3) == 6;
    assert WeightedSum([-70, -65, -60]) == -380 by {
      assert [-70, -65, -60][..2] == [-70, -65];
      assert [-70, -65][..1] == [-70];
      assert [-70][..0] == [];
    }
  }

  /**
   * One step of the sliding window: append the new sample and, once over
   * capacity, drop the oldest.
   */
  function Slide(window: seq<int>, sample: int, capacity: nat): (r: seq<int>)
    ensures |window| <= capacity ==> |r| <= capacity
    ensures |window| < capacity ==> r == window + [sample]
    ensures 0 < capacity == |window| ==> r == window[1..] + [sample]
    ensures 0 < capacity && |window| <= capacity ==> r != [] && r[|r| - 1] == sample
  {
    var grown := window + [sample];
    if |grown| > capacity then grown[1..] else grown
  }

  /** The window after sliding in each of samples in turn. */
  function SlideAll(window: seq<int>, samples: seq<int>, capacity: nat): seq<int>
    decreases |samples|
  {
    if samples == [] then window else SlideAll(Slide(window, samples[0], capacity), samples[1..], capacity)
  }

  /** The last n elements of s, or all of s when it is shorter. */
  function Newest(s: seq<int>, n: nat): seq<int>
  {
    if |s| <= n then s else s[|s| - n..]
  }

  /** Dropping the oldest element of an over-long sequence does not change its newest n. */
  lemma NewestOfTail(t: seq<int>, n: nat)
    requires |t| > n
    ensures Newest(t[1..], n) == Newest(t, n)
  {
  }

  /** Sliding one sample in first does not change the newest elements of what follows. */
  lemma SlideStep(window: seq<int>, x: int, rest: seq<int>, capacity: nat)
    requires 0 < capacity && |window| <= capacity
    ensures Newest(Slide(window, x, capacity) + rest, capacity) == Newest(window + ([x] + rest), capacity)
  {
    var all := window + ([x] + rest);
    if |window| == capacity {
      assert Slide(window, x, capacity) + rest == all[1..];
      NewestOfTail(all, capacity);
    } else {
      assert Slide(window, x, capacity) + rest == all;
    }
  }

  /**
   * However many samples are pushed, a window of positive capacity holds
   * exactly the most recent ones it has room for, oldest first.
   */
  lemma {:induction false} SlideAllKeepsNewest(window: seq<int>, samples: seq<int>, capacity: nat)
    requires 0 < capacity && |window| <= capacity
    ensures SlideAll(window, samples, capacity) == Newest(window + samples, capacity)
    decreases |samples|
  {
    if samples != [] {
      var rest := samples[1..];
      SlideAllKeepsNewest(Slide(window, samples[0], capacity), rest, capacity);
      SlideStep(window, samples[0], rest, capacity);
      assert samples == [samples[0]] + rest;
    }
  }

  /** Per-UUID sliding windows of raw RSSI samples, each holding at most windowSize samples. */
  class RssiSmoother {
    var windows: map<string, seq<int>>
    const windowSize: nat

    ghost predicate Valid()
      reads this
    {
      forall u :: u in windows ==> |windows[u]| <= windowSize
    }

    /** The window of a UUID, empty when the UUID has never been pushed. */
    function WindowOf(uuid: string): seq<int>
      reads this
    {
      if uuid in windows then windows[uuid] else []
    }

    /** The smoothed value of a UUID, None when its window is missing or empty. */
    function Current(uuid: string): Option<int>
      reads this
    {
      if uuid !in windows || windows[uuid] == [] then None else Some(Wma(windows[uuid]))
    }

    constructor (windowSize: nat)
      ensures Valid()
      ensures this.windowSize == windowSize && windows == map[]
    {
      this.windowSize := windowSize;
      windows := map[];
    }

    /** push: slide the UUID's window (creating it if needed) and return its smoothed value. */
    method Push(uuid: string, rssi: int) returns (smoothed: int)
      requires Valid()
      modifies this
      ensures Valid()
      ensures windows == old(windows)[uuid := Slide(old(WindowOf(uuid)), rssi, windowSize)]
      ensures smoothed == Wma(windows[uuid])
      ensures windowSize > 0 ==> Current(uuid) == Some(smoothed)
      ensures forall u :: u != uuid ==> Current(u) == old(Current(u))
    {
      var window: seq<int>;
      if uuid in windows {
        window := windows[uuid];
      } else {
        window := [];
        windows := windows[uuid := window];
      }
      window := window + [rssi];
      if |window| > windowSize {
        window := window[1..];
      }
      windows := windows[uuid := window];
      smoothed := WeightedMovingAverage(window);
    }

    /** clear: forget every window. */
    method Clear()
      requires Valid()
      modifies this
      ensures Valid()
      ensures windows == map[]
      ensures forall u :: Current(u) == None
    {
      windows := map[];
    }

    /** get: the current smoothed value of a UUID, without changing any window. */
    method Get(uuid: string) returns (r: Option<int>)
      requires Valid()
      ensures r == Current(uuid)
      ensures r.None? <==> uuid !in windows || windows[uuid] == []
    {
      if uuid !in windows || |windows[uuid]| == 0 {
        return None;
      }
      var smoothed := WeightedMovingAverage(windows[uuid]);
      r := Some(smoothed);
    }
  }
}
