// The table-driven softmax over exact reals: an exponential interpolated from a
// look-up table, clamped outside it, and normalised.
module Softmax {

  // ---- the table ----

  // Any non-decreasing, non-negative table that ends at exp(0) = 1, over
  // evenly spaced points from xMin to 0.
  ghost predicate IsExpTable(lut: seq<real>, xMin: real) {
    && |lut| >= 2 && xMin < 0.0
    && lut[0] >= 0.0 && lut[|lut| - 1] == 1.0
    && forall i, j :: 0 <= i <= j < |lut| ==> lut[i] <= lut[j]
  }

  function StepOf(lut: seq<real>, xMin: real): real
    requires |lut| >= 2
  {
    (0.0 - xMin) / (|lut| - 1) as real
  }

  // Linear interpolation at a fractional index.
  function Interpolate(lut: seq<real>, idx: real): real
    requires 0.0 <= idx <= (|lut| - 1) as real
  {
    var lo := idx.Floor;
    var hi := if lo + 1 < |lut| - 1 then lo + 1 else |lut| - 1;
    var frac := idx - lo as real;
    Mix(lut[lo], lut[hi], frac)
  }

  function Mix(a: real, b: real, f: real): real {
    a * (1.0 - f) + b * f
  }

  function Index(lut: seq<real>, xMin: real, x: real): (idx: real)
    requires |lut| >= 2 && xMin < 0.0 && xMin <= x <= 0.0
    ensures 0.0 <= idx <= (|lut| - 1) as real
  {
    IndexInTable((|lut| - 1) as real, xMin, x);
    (x - xMin) / StepOf(lut, xMin)
  }

  lemma IndexInTable(n: real, xMin: real, x: real)
    requires n > 0.0 && xMin < 0.0 && xMin <= x <= 0.0
    ensures (0.0 - xMin) / n > 0.0
    ensures 0.0 <= (x - xMin) / ((0.0 - xMin) / n) <= n
  {
    var step := (0.0 - xMin) / n;
    Quotient(-xMin, n, step);
    var idx := (x - xMin) / step;
    assert idx * step == x - xMin;
    QuotientOrder(0.0, idx, step);
    QuotientOrder(idx, n, step);
  }

  lemma Quotient(a: real, n: real, q: real)
    requires n > 0.0 && a > 0.0 && q == a / n
    ensures q > 0.0 && q * n == a && n * q == a
  {
  }

  lemma QuotientOrder(a: real, b: real, step: real)
    requires step > 0.0
    ensures a <= b <==> a * step <= b * step
  {
    if a <= b {
      assert (b - a) * step >= 0.0;
    } else {
      assert (a - b) * step > 0.0;
    }
  }

  function Exp(lut: seq<real>, xMin: real, x: real): real
    requires |lut| >= 2 && xMin < 0.0
  {
    if x > 0.0 then 1.0
    else if x < xMin then 0.0
    else Interpolate(lut, Index(lut, xMin, x))
  }

  lemma Blend(a: real, b: real, f: real)
    ensures Mix(a, b, f) == a + (b - a) * f
  {
    assert a * (1.0 - f) == a - a * f;
    assert (b - a) * f == b * f - a * f;
  }

  lemma MixAtStart(a: real, b: real)
    ensures Mix(a, b, 0.0) == a
  {
  }

  lemma SameCell(a: real, b: real, f: real, g: real)
    requires a <= b && f <= g
    ensures Mix(a, b, f) <= Mix(a, b, g)
  {
    Blend(a, b, f);
    Blend(a, b, g);
    hide Mix;
    Scale(f, g, b - a);
  }

  lemma Scale(f: real, g: real, d: real)
    requires f <= g && d >= 0.0
    ensures d * f <= d * g
  {
    assert d * g - d * f == d * (g - f);
    assert d * (g - f) >= 0.0;
  }

  lemma Between(a: real, b: real, f: real)
    requires a <= b && 0.0 <= f <= 1.0
    ensures a <= Mix(a, b, f) <= b
  {
    SameCell(a, b, 0.0, f);
    SameCell(a, b, f, 1.0);
  }

  // Inside a cell the value lies between the cell's ends.
  lemma InCell(lut: seq<real>, xMin: real, idx: real)
    requires IsExpTable(lut, xMin) && 0.0 <= idx <= (|lut| - 1) as real
    ensures lut[idx.Floor] <= Interpolate(lut, idx)
    ensures idx.Floor + 1 < |lut| ==> Interpolate(lut, idx) <= lut[idx.Floor + 1]
    ensures 0.0 <= Interpolate(lut, idx) <= 1.0
  {
    hide Mix;
    var lo := idx.Floor;
    var hi := if lo + 1 < |lut| - 1 then lo + 1 else |lut| - 1;
    Between(lut[lo], lut[hi], idx - lo as real);
  }

  lemma InterpolateMonotone(lut: seq<real>, xMin: real, p: real, q: real)
    requires IsExpTable(lut, xMin) && 0.0 <= p <= q <= (|lut| - 1) as real
    ensures Interpolate(lut, p) <= Interpolate(lut, q)
  {
    hide Mix;
    if p.Floor == q.Floor {
      var hi := if p.Floor + 1 < |lut| - 1 then p.Floor + 1 else |lut| - 1;
      SameCell(lut[p.Floor], lut[hi], p - p.Floor as real, q - q.Floor as real);
    } else {
      InCell(lut, xMin, p);
      InCell(lut, xMin, q);
    }
  }

  // Monotone on the whole line, the clamps included.
  lemma ExpMonotone(lut: seq<real>, xMin: real, x: real, y: real)
    requires IsExpTable(lut, xMin) && x <= y
    ensures 0.0 <= Exp(lut, xMin, x) <= Exp(lut, xMin, y) <= 1.0
  {
    hide Interpolate;
    if xMin <= x <= 0.0 {
      InCell(lut, xMin, Index(lut, xMin, x));
    }
    if xMin <= y <= 0.0 {
      InCell(lut, xMin, Index(lut, xMin, y));
      if xMin <= x {
        IndexMonotone(lut, xMin, x, y);
        InterpolateMonotone(lut, xMin, Index(lut, xMin, x), Index(lut, xMin, y));
      }
    }
  }

  lemma IndexTimesStep(lut: seq<real>, xMin: real, x: real)
    requires |lut| >= 2 && xMin < 0.0 && xMin <= x <= 0.0
    ensures StepOf(lut, xMin) > 0.0 && Index(lut, xMin, x) * StepOf(lut, xMin) == x - xMin
  {
    IndexInTable((|lut| - 1) as real, xMin, x);
    DivideBack(x - xMin, StepOf(lut, xMin));
  }

  lemma DivideBack(a: real, s: real)
    requires s > 0.0
    ensures a / s * s == a
  {
  }

  lemma IndexMonotone(lut: seq<real>, xMin: real, x: real, y: real)
    requires |lut| >= 2 && xMin < 0.0 && xMin <= x <= y <= 0.0
    ensures Index(lut, xMin, x) <= Index(lut, xMin, y)
  {
    IndexTimesStep(lut, xMin, x);
    IndexTimesStep(lut, xMin, y);
    hide Index, StepOf;
    QuotientOrder(Index(lut, xMin, x), Index(lut, xMin, y), StepOf(lut, xMin));
  }

  // At the table's own points the interpolation returns the table's entries.
  lemma ExpAtPoint(lut: seq<real>, xMin: real, x: real, i: nat)
    requires IsExpTable(lut, xMin) && i < |lut| && x == xMin + i as real * StepOf(lut, xMin)
    ensures xMin <= x <= 0.0 && Exp(lut, xMin, x) == lut[i]
  {
    PointInTable(lut, xMin, x, i);
    IndexTimesStep(lut, xMin, x);
    var idx, step := Index(lut, xMin, x), StepOf(lut, xMin);
    hide Index, StepOf;
    QuotientOrder(idx, i as real, step);
    QuotientOrder(i as real, idx, step);
    assert idx == i as real && idx.Floor == i;
    MixAtStart(lut[i], lut[if i + 1 < |lut| - 1 then i + 1 else |lut| - 1]);
    hide Mix;
  }

  lemma PointInTable(lut: seq<real>, xMin: real, x: real, i: nat)
    requires |lut| >= 2 && xMin < 0.0 && i < |lut| && x == xMin + i as real * StepOf(lut, xMin)
    ensures xMin <= x <= 0.0 && (i == |lut| - 1 ==> x == 0.0)
  {
    var n, step := (|lut| - 1) as real, StepOf(lut, xMin);
    Quotient(-xMin, n, step);
    hide StepOf;
    QuotientOrder(i as real, n, step);
    QuotientOrder(0.0, i as real, step);
  }

  // Between two neighbouring points the exponential is the straight line through
  // their entries; outside the table it is 0 below and 1 above.
  lemma ExpBetweenPoints(lut: seq<real>, xMin: real, x: real, i: nat)
    requires |lut| >= 2 && xMin < 0.0 && i + 1 < |lut|
    ensures var step := -xMin / (|lut| - 1) as real;
            var p := xMin + i as real * step;
            var q := p + step;
            p <= x <= q ==> Exp(lut, xMin, x) * step == lut[i] * (q - x) + lut[i + 1] * (x - p)
    ensures x < xMin ==> Exp(lut, xMin, x) == 0.0
    ensures x > 0.0 ==> Exp(lut, xMin, x) == 1.0
  {
    var step := -xMin / (|lut| - 1) as real;
    assert step == StepOf(lut, xMin);
    var p := xMin + i as real * step;
    PointInTable(lut, xMin, p, i);
    PointInTable(lut, xMin, xMin + (i + 1) as real * step, i + 1);
    assert (i + 1) as real * step == i as real * step + step;
    if p <= x <= p + step {
      IndexTimesStep(lut, xMin, x);
      OnTheLine(lut, Index(lut, xMin, x), i, step, x - p);
    }
  }

  lemma OnTheLine(lut: seq<real>, idx: real, i: nat, step: real, d: real)
    requires i + 1 < |lut| && step > 0.0 && 0.0 <= d <= step && 0.0 <= idx <= (|lut| - 1) as real
    requires idx * step == i as real * step + d
    ensures Interpolate(lut, idx) * step == lut[i] * (step - d) + lut[i + 1] * d
  {
    var f := idx - i as real;
    assert f * step == d;
    QuotientOrder(0.0, f, step);
    QuotientOrder(f, 1.0, step);
    if f == 1.0 {
      assert idx.Floor == i + 1 && d == step;
      MixAtStart(lut[i + 1], lut[if i + 2 < |lut| - 1 then i + 2 else |lut| - 1]);
    } else {
      assert idx.Floor == i;
      MixTimes(lut[i], lut[i + 1], f, step, d);
    }
  }

  lemma MixTimes(a: real, b: real, f: real, step: real, d: real)
    requires f * step == d
    ensures Mix(a, b, f) * step == a * (step - d) + b * d
  {
    assert a * (1.0 - f) * step == a * (step - f * step);
    assert b * f * step == b * (f * step);
  }

  lemma ExpOfZero(lut: seq<real>, xMin: real)
    requires IsExpTable(lut, xMin)
    ensures Exp(lut, xMin, 0.0) == 1.0
  {
    var x := xMin + (|lut| - 1) as real * StepOf(lut, xMin);
    PointInTable(lut, xMin, x, |lut| - 1);
    ExpAtPoint(lut, xMin, x, |lut| - 1);
  }

  // ---- the vector operation ----

  // 2^-14, the smallest normal half-precision number.
  const TINY_F16: real := 1.0 / 16384.0

  function Flush(x: real): real {
    if -TINY_F16 < x < TINY_F16 then 0.0 else x
  }

  function FlushAll(x: seq<real>): (r: seq<real>)
    ensures |r| == |x|
  {
    seq(|x|, i requires 0 <= i < |x| => Flush(x[i]))
  }

  function MaxOf(x: seq<real>): (r: real)
    requires |x| > 0
    ensures r in x && forall i :: 0 <= i < |x| ==> x[i] <= r
  {
    if |x| == 1 then x[0] else
    var rest := MaxOf(x[..|x| - 1]);
    if x[|x| - 1] > rest then x[|x| - 1] else rest
  }

  function Sum(x: seq<real>): real {
    if x == [] then 0.0 else Sum(x[..|x| - 1]) + x[|x| - 1]
  }

  // The clamped exponentials of the differences to the maximum.
  function Weights(lut: seq<real>, xMin: real, x: seq<real>): (r: seq<real>)
    requires |lut| >= 2 && xMin < 0.0 && |x| > 0
    ensures |r| == |x|
  {
    var f := FlushAll(x);
    var top := MaxOf(f);
    seq(|x|, i requires 0 <= i < |x| => Exp(lut, xMin, f[i] - top))
  }

  function SoftmaxHw(lut: seq<real>, xMin: real, x: seq<real>): (r: seq<real>)
    requires |lut| >= 2 && xMin < 0.0 && |x| > 0
    ensures |r| == |x|
  {
    var e := Weights(lut, xMin, x);
    var s := Sum(e);
    if s > 0.0 then seq(|x|, i requires 0 <= i < |x| => e[i] / s) else e
  }

  lemma {:induction false} SumAtLeast(x: seq<real>, k: nat)
    requires k < |x| && forall i :: 0 <= i < |x| ==> x[i] >= 0.0
    ensures Sum(x) >= x[k]
  {
    if k < |x| - 1 {
      SumAtLeast(x[..|x| - 1], k);
    } else if |x| > 1 {
      SumAtLeast(x[..|x| - 1], 0);
    }
  }

  lemma {:induction false} SumScaled(x: seq<real>, y: seq<real>, s: real)
    requires |x| == |y| && s > 0.0 && forall i :: 0 <= i < |x| ==> y[i] * s == x[i]
    ensures Sum(y) * s == Sum(x)
  {
    if x != [] {
      SumScaled(x[..|x| - 1], y[..|x| - 1], s);
    }
  }

  lemma FlushKeepsOrder(x: real, y: real)
    requires x <= y
    ensures Flush(x) <= Flush(y)
  {
  }

  lemma WeightsOrdered(lut: seq<real>, xMin: real, x: seq<real>, i: nat, j: nat)
    requires IsExpTable(lut, xMin) && i < |x| && j < |x| && x[i] <= x[j]
    ensures 0.0 <= Weights(lut, xMin, x)[i] <= Weights(lut, xMin, x)[j] <= 1.0
  {
    hide Exp;
    FlushKeepsOrder(x[i], x[j]);
    var top := MaxOf(FlushAll(x));
    ExpMonotone(lut, xMin, Flush(x[i]) - top, Flush(x[j]) - top);
  }

  // The largest element has weight 1, so the normaliser is at least 1.
  lemma NormaliserAtLeastOne(lut: seq<real>, xMin: real, x: seq<real>)
    requires IsExpTable(lut, xMin) && |x| > 0
    ensures Sum(Weights(lut, xMin, x)) >= 1.0
  {
    hide Exp, Sum;
    var f := FlushAll(x);
    var k :| 0 <= k < |f| && f[k] == MaxOf(f);
    ExpOfZero(lut, xMin);
    var e := Weights(lut, xMin, x);
    assert e[k] == 1.0;
    forall i | 0 <= i < |e| ensures e[i] >= 0.0 {
      WeightsOrdered(lut, xMin, x, i, i);
    }
    SumAtLeast(e, k);
  }

  lemma DivideKeepsOrder(a: real, b: real, s: real)
    requires s > 0.0 && 0.0 <= a <= b
    ensures 0.0 <= a / s <= b / s && a / s * s == a
  {
    var p, q := a / s, b / s;
    assert p * s == a && q * s == b;
    QuotientOrder(0.0, p, s);
    QuotientOrder(p, q, s);
  }

  // For every nonempty vector: no output is negative, they sum to 1, and a
  // larger input never gets a smaller output.
  lemma SoftmaxIsDistribution(lut: seq<real>, xMin: real, x: seq<real>)
    requires IsExpTable(lut, xMin) && |x| > 0
    ensures var r := SoftmaxHw(lut, xMin, x);
            && (forall i :: 0 <= i < |r| ==> 0.0 <= r[i] <= 1.0)
            && Sum(r) == 1.0
            && (forall i, j :: 0 <= i < |x| && 0 <= j < |x| && x[i] <= x[j] ==> r[i] <= r[j])
  {
    hide Weights, Sum;
    var e := Weights(lut, xMin, x);
    var s := Sum(e);
    var r := SoftmaxHw(lut, xMin, x);
    NormaliserAtLeastOne(lut, xMin, x);
    forall i, j | 0 <= i < |x| && 0 <= j < |x| && x[i] <= x[j] ensures 0.0 <= r[i] <= r[j] && r[i] * s == e[i] {
      WeightsOrdered(lut, xMin, x, i, j);
      DivideKeepsOrder(e[i], e[j], s);
    }
    forall i | 0 <= i < |x| ensures r[i] >= 0.0 && r[i] * s == e[i] {
      assert x[i] <= x[i];
    }
    SumScaled(e, r, s);
    UnitQuotient(Sum(r), s);
    forall i | 0 <= i < |r| ensures r[i] <= 1.0 {
      SumAtLeast(r, i);
    }
  }

  // What the outputs are, up to their sum of 1: each is the output of a largest
  // element times the exponential of the difference to it, where magnitudes below
  // 2^-14 count as 0.
  lemma SoftmaxRatios(lut: seq<real>, xMin: real, x: seq<real>, f: seq<real>, k: nat)
    requires IsExpTable(lut, xMin) && |f| == |x| && k < |x|
    requires forall i :: 0 <= i < |x| ==> f[i] == if -1.0 / 16384.0 < x[i] < 1.0 / 16384.0 then 0.0 else x[i]
    requires forall i :: 0 <= i < |x| ==> f[i] <= f[k]
    ensures var r := SoftmaxHw(lut, xMin, x);
            forall i :: 0 <= i < |x| ==> r[i] == r[k] * Exp(lut, xMin, f[i] - f[k])
  {
    hide Exp, Sum, Weights;
    var e := Weights(lut, xMin, x);
    var s, r := Sum(e), SoftmaxHw(lut, xMin, x);
    NormaliserAtLeastOne(lut, xMin, x);
    WeightsAre(lut, xMin, x, f, k);
    ExpOfZero(lut, xMin);
    forall i | 0 <= i < |x| ensures r[i] == r[k] * Exp(lut, xMin, f[i] - f[k]) {
      ShareOfOne(e[i], s);
      assert r[i] == e[i] / s && r[k] == 1.0 / s;
    }
  }

  lemma WeightsAre(lut: seq<real>, xMin: real, x: seq<real>, f: seq<real>, k: nat)
    requires |lut| >= 2 && xMin < 0.0 && |f| == |x| && k < |x|
    requires forall i :: 0 <= i < |x| ==> f[i] == if -1.0 / 16384.0 < x[i] < 1.0 / 16384.0 then 0.0 else x[i]
    requires forall i :: 0 <= i < |x| ==> f[i] <= f[k]
    ensures forall i :: 0 <= i < |x| ==> Weights(lut, xMin, x)[i] == Exp(lut, xMin, f[i] - f[k])
  {
    hide Exp;
    assert FlushAll(x) == f;
    assert MaxOf(f) == f[k];
  }

  lemma ShareOfOne(a: real, s: real)
    requires s > 0.0
    ensures a / s == 1.0 / s * a
  {
  }

  lemma UnitQuotient(q: real, s: real)
    requires s > 0.0 && q * s == s
    ensures q == 1.0
  {
    assert (q - 1.0) * s == 0.0;
  }

  lemma {:induction false} MaxShifts(x: seq<real>, y: seq<real>, c: real)
    requires |x| == |y| > 0 && forall i :: 0 <= i < |x| ==> y[i] == x[i] + c
    ensures MaxOf(y) == MaxOf(x) + c
  {
    if |x| > 1 {
      MaxShifts(x[..|x| - 1], y[..|x| - 1], c);
    }
  }

  // Adding a constant to every input changes nothing, as long as no element is
  // flushed before or after.
  lemma ShiftInvariant(lut: seq<real>, xMin: real, x: seq<real>, y: seq<real>, c: real)
    requires |lut| >= 2 && xMin < 0.0 && |x| == |y| > 0
    requires forall i :: 0 <= i < |x| ==> y[i] == x[i] + c && Flush(x[i]) == x[i] && Flush(y[i]) == y[i]
    ensures SoftmaxHw(lut, xMin, y) == SoftmaxHw(lut, xMin, x)
  {
    hide Exp, Sum, Flush, MaxOf;
    assert FlushAll(x) == x && FlushAll(y) == y;
    MaxShifts(x, y, c);
    var top := MaxOf(x);
    forall i | 0 <= i < |x| ensures y[i] - (top + c) == x[i] - top {
    }
    assert Weights(lut, xMin, y) == Weights(lut, xMin, x);
  }
}
