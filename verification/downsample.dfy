/** Client-side thinning of a series before it is charted (`downsample_data`). */
module Downsample {
  import opened Sequences
  import opened Series
  import opened Decimation

  /** The target the chart renderer passes (`target_points=400`). */
  const ChartTarget: int := 400

  /** The number of positions `0, step, 2 * step, ...` below `n`. */
  function StrideLen(n: nat, step: nat): nat
    requires step >= 1
    decreases n
  {
    if n == 0 then 0 else if n <= step then 1 else 1 + StrideLen(n - step, step)
  }

  /** `StrideLen(n, step)` multiples of `step` lie below `n`, and no more:
      the next multiple reaches `n`. */
  lemma {:induction false} StrideLenBounds(n: nat, step: nat)
    requires step >= 1 && n > 0
    ensures (StrideLen(n, step) - 1) * step < n <= StrideLen(n, step) * step
    decreases n
  {
    if n > step {
      StrideLenBounds(n - step, step);
      Distrib(StrideLen(n, step), step);
    }
  }

  /** The number of kept positions is the ceiling of `n / step`. */
  lemma StrideLenIsCeiling(n: nat, step: nat)
    requires step >= 1
    ensures StrideLen(n, step) == (n + step - 1) / step
  {
    if n > 0 {
      var len := StrideLen(n, step);
      StrideLenBounds(n, step);
      Distrib(len + 1, step);
      FloorDiv(n + step - 1, step, len);
    }
  }

  /** `x / d` is the `q` with `q * d <= x < (q + 1) * d`. */
  lemma FloorDiv(x: int, d: int, q: int)
    requires d > 0 && q * d <= x < (q + 1) * d
    ensures x / d == q
  {
    var r := x / d;
    assert r * d <= x < r * d + d;
    Distrib(r + 1, d);
    MulCancelLt(q, r + 1, d);
    MulCancelLt(r, q + 1, d);
  }

  /** The elements at positions 0, step, 2 * step, ... (`iloc[::step]`). */
  function Stride<T>(s: seq<T>, step: nat): (r: seq<T>)
    requires step >= 1
    ensures |r| == StrideLen(|s|, step)
    ensures forall k :: 0 <= k < |r| ==> k * step < |s| && r[k] == s[k * step]
    decreases |s|
  {
    if |s| == 0 then []
    else if |s| <= step then [s[0]]
    else
      var rest := Stride(s[step..], step);
      ConsStride(s, step, rest);
      [s[0]] + rest
  }

  /** One stride further: `s[0]` in front of the stride of `s[step..]` is the
      stride of `s`. */
  lemma ConsStride<T>(s: seq<T>, step: nat, rest: seq<T>)
    requires step >= 1 && |s| > step
    requires forall k :: 0 <= k < |rest| ==> k * step < |s[step..]| && rest[k] == s[step..][k * step]
    ensures var r := [s[0]] + rest;
      forall k :: 0 <= k < |r| ==> k * step < |s| && r[k] == s[k * step]
  {
    var r := [s[0]] + rest;
    forall k | 0 <= k < |r|
      ensures k * step < |s| && r[k] == s[k * step]
    {
      if k > 0 {
        assert r[k] == rest[k - 1];
        Distrib(k, step);
      }
    }
  }

  /** Thinning for rendering: unchanged when the series is within one and a
      half times the target (`len <= 1.5 * target`, exact over integers as
      `2 * len <= 3 * target`); otherwise every `len / target`-th point from
      the first one on. */
  function Downsample<T>(s: seq<T>, target: int): (r: seq<T>)
    requires target > 0
    ensures 2 * |s| <= 3 * target ==> r == s
    ensures 2 * |s| > 3 * target ==>
      && |r| == StrideLen(|s|, |s| / target)
      && target <= |r| <= 2 * target
      && r[0] == s[0]
      && forall k :: 0 <= k < |r| ==> k * (|s| / target) < |s| && r[k] == s[k * (|s| / target)]
  {
    if 2 * |s| <= 3 * target then s
    else
      var step := |s| / target;
      StepBounds(|s|, target);
      var r := Stride(s, step);
      StrideLenBounds(|s|, step);
      StrideCount(|s|, step, target, |r|);
      r
  }

  /** The stride of a series above the threshold is at least 1 and splits
      `n` into `target` whole strides plus a remainder below `target`. */
  lemma StepBounds(n: int, target: int)
    requires target > 0 && 2 * n > 3 * target
    ensures n / target >= 1
    ensures (n / target) * target <= n < (n / target) * target + target
  {
    var q := n / target;
    assert q * target == n - n % target;
    MulCancelLt(0, q, target);
  }

  /** With stride `n / target`, the number of kept points lies between
      `target` and `2 * target`. */
  lemma StrideCount(n: int, step: int, target: int, m: int)
    requires target > 0 && step >= 1
    requires step * target <= n < step * target + target
    requires (m - 1) * step < n <= m * step
    ensures target <= m <= 2 * target
  {
    MulCancelLe(m, target, step);
    assert target * 1 <= target * step;
    MulCancelLt(m - 1, 2 * target, step);
  }

  lemma MulCancelLe(a: int, b: int, c: int)
    requires c > 0 && a * c >= b * c
    ensures a >= b
  {
  }

  lemma MulCancelLt(a: int, b: int, c: int)
    requires c > 0 && a * c < b * c
    ensures a < b
  {
  }

  lemma Distrib(k: int, step: int)
    ensures k * step == (k - 1) * step + step
  {
  }

  /** Above the threshold, the result holds ⌈n / step⌉ points: every
      position `k * step` below n, none stopped short. */
  lemma DownsampleCount<T>(s: seq<T>, target: int)
    requires target > 0 && 2 * |s| > 3 * target
    ensures var step := |s| / target;
      |Downsample(s, target)| == (|s| + step - 1) / step
  {
    StepBounds(|s|, target);
    StrideLenIsCeiling(|s|, |s| / target);
  }

  /** The series the dashboard charts come from the decimated query, so they
      hold at most 401 rows; at the chart target of 400 that is below the
      1.5 × target threshold, and the chart series is never thinned. */
  lemma ChartSeriesNeverThinned<T>(s: seq<T>)
    ensures Downsample(Decimate(s), ChartTarget) == Decimate(s)
  {
    DecimateBounded(s);
  }

  /** The result is a subsequence of the input: order kept, nothing altered. */
  lemma {:induction false} StrideSubseq<T>(s: seq<T>, step: nat)
    requires step >= 1
    ensures Subseq(Stride(s, step), s)
    decreases |s|
  {
    if |s| == 0 {
    } else if |s| <= step {
      assert Stride(s, step) == [s[0]];
      assert s == [s[0]] + s[1..];
      assert ([s[0]])[1..] == [];
    } else {
      StrideSubseq(s[step..], step);
      SubseqPrepend(Stride(s[step..], step), s[step..], s[1..step]);
      assert s[1..step] + s[step..] == s[1..];
      SubseqCons(s[0], Stride(s[step..], step), s[1..]);
      assert s == [s[0]] + s[1..];
    }
  }

  lemma DownsampleSubseq<T>(s: seq<T>, target: int)
    requires target > 0
    ensures Subseq(Downsample(s, target), s)
  {
    if 2 * |s| <= 3 * target {
      SubseqRefl(s);
    } else {
      StrideSubseq(s, |s| / target);
    }
  }

  /** A thinned chart series is still in time order. */
  lemma DownsampleChronological(s: seq<Sample>, target: int)
    requires target > 0 && Chronological(s)
    ensures Chronological(Downsample(s, target))
  {
    DownsampleSubseq(s, target);
    SubseqChronological(Downsample(s, target), s);
  }

  /** The last input point survives thinning exactly when its position is a
      multiple of the stride: the code does not append it otherwise. */
  lemma DownsampleLastKept<T>(s: seq<T>, target: int)
    requires target > 0 && 2 * |s| > 3 * target
    ensures var step := |s| / target;
      (|Downsample(s, target)| - 1) * step == |s| - 1 <==> (|s| - 1) % step == 0
  {
    var step := |s| / target;
    StepBounds(|s|, target);
    assert Downsample(s, target) == Stride(s, step);
    LastPositionReached(|s|, step);
  }

  /** A stride reaches the last position `n - 1` exactly when the stride
      divides it. */
  lemma LastPositionReached(n: nat, step: nat)
    requires n > 0 && step >= 1
    ensures (StrideLen(n, step) - 1) * step == n - 1 <==> (n - 1) % step == 0
  {
    StrideLenBounds(n, step);
    LastMultiple(n, step, StrideLen(n, step));
  }

  /** When `m` multiples of `step` lie below `n`, the last of them is `n - 1`
      exactly when `step` divides `n - 1`. */
  lemma LastMultiple(n: int, step: int, m: int)
    requires n >= 1 && step >= 1
    requires (m - 1) * step < n <= m * step
    ensures (m - 1) * step == n - 1 <==> (n - 1) % step == 0
  {
    var q := (n - 1) / step;
    assert n - 1 == q * step + (n - 1) % step;
    Distrib(q + 1, step);
    Distrib(m, step);
    MulCancelLt(q, m, step);
    MulCancelLt(m - 1, q + 1, step);
  }

  /** 400 points thinned towards 200 keep every other one, so the result
      ends at position 398, not at the last point 399. */
  lemma DownsampleMayDropLast()
    ensures var s := seq(400, i => i);
      var r := Downsample(s, 200);
      |r| == 200 && r[|r| - 1] == 398 && r[|r| - 1] != s[|s| - 1]
  {
    var s := seq(400, i => i);
    var r := Downsample(s, 200);
    assert 400 / 200 == 2;
    assert r[199] == s[199 * 2];
  }
}
