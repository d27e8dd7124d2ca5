// Per-block INT4 quantisation over exact reals, the block-scaled matrix product,
// and the bound that ties the two together.
module Quantize {
  import opened Arithmetic
  import opened Memory
  import opened Int4
  import opened Mxu
  import opened Mmul

  // ---- rounding and scales ----

  // To the nearest integer, ties to the even one.
  function Round(x: real): (r: int)
    ensures -0.5 <= x - r as real <= 0.5
    ensures x - r as real == 0.5 || x - r as real == -0.5 ==> r % 2 == 0
  {
    var up := (x + 0.5).Floor;
    if up as real == x + 0.5 && up % 2 != 0 then up - 1 else up
  }

  function Abs(x: real): real {
    if x < 0.0 then -x else x
  }

  // A K x N weight matrix, row by row.
  ghost predicate IsMatrix(w: seq<seq<real>>, K: nat, N: nat) {
    |w| == K && forall k :: 0 <= k < K ==> |w[k]| == N
  }

  // The largest magnitude in column c over rows lo..hi.
  function ColumnMax(w: seq<seq<real>>, c: nat, lo: nat, hi: nat): (r: real)
    requires lo <= hi <= |w| && forall k :: 0 <= k < |w| ==> c < |w[k]|
    ensures r >= 0.0 && forall k :: lo <= k < hi ==> Abs(w[k][c]) <= r
    ensures if lo == hi then r == 0.0 else exists k :: lo <= k < hi && Abs(w[k][c]) == r
    decreases hi - lo
  {
    if lo == hi then 0.0 else
    var rest := ColumnMax(w, c, lo, hi - 1);
    if Abs(w[hi - 1][c]) > rest then Abs(w[hi - 1][c]) else rest
  }

  const TINY: real := 0.000000000001

  function ScaleOf(maxAbs: real): real {
    if maxAbs < TINY then 1.0 else maxAbs / 7.0
  }

  function QuantOf(x: real, maxAbs: real): int {
    if maxAbs < TINY then 0 else Clip(Round(x / ScaleOf(maxAbs)), -7, 7)
  }

  // A value no larger than its column's maximum lands in [-7, 7] without the
  // clip acting, and comes back within half a scale.
  lemma QuantError(x: real, maxAbs: real)
    requires Abs(x) <= maxAbs
    ensures ScaleOf(maxAbs) > 0.0
    ensures -7 <= QuantOf(x, maxAbs) <= 7
    ensures maxAbs >= TINY ==> QuantOf(x, maxAbs) == Round(x / ScaleOf(maxAbs))
    ensures Abs(QuantOf(x, maxAbs) as real * ScaleOf(maxAbs) - x) <= ScaleOf(maxAbs) / 2.0
  {
    if maxAbs >= TINY {
      Rounded(x, ScaleOf(maxAbs));
    }
  }

  // The block's largest magnitude uses the whole range: it becomes 7 or -7.
  lemma FullScale(x: real, maxAbs: real)
    requires maxAbs >= TINY && Abs(x) == maxAbs
    ensures QuantOf(x, maxAbs) == if x < 0.0 then -7 else 7
  {
    var s := maxAbs / 7.0;
    assert s * 7.0 == maxAbs && s > 0.0;
    Ratio(x, s, if x < 0.0 then -7.0 else 7.0);
  }

  lemma Ratio(x: real, s: real, q: real)
    requires s > 0.0 && x == q * s
    ensures x / s == q
  {
  }

  lemma Rounded(x: real, s: real)
    requires s > 0.0 && -(7.0 * s) <= x <= 7.0 * s
    ensures -7 <= Round(x / s) <= 7
    ensures -(s / 2.0) <= Round(x / s) as real * s - x <= s / 2.0
  {
    var y := x / s;
    Quotient(x, y, s, 7.0);
    ScaledTo(Round(y) as real - y, 0.5, s, Round(y) as real * s - x);
  }

  lemma Quotient(x: real, y: real, s: real, bound: real)
    requires s > 0.0 && x == y * s && -(bound * s) <= x <= bound * s
    ensures -bound <= y <= bound
  {
    assert (y - bound) * s <= 0.0 && (y + bound) * s >= 0.0;
  }

  lemma Scaled(d: real, bound: real, s: real)
    requires s >= 0.0 && -bound <= d <= bound
    ensures -(bound * s) <= d * s <= bound * s
  {
    assert (bound - d) * s >= 0.0 && (d + bound) * s >= 0.0;
  }

  lemma ScaledTo(d: real, bound: real, s: real, p: real)
    requires s >= 0.0 && -bound <= d <= bound && p == d * s
    ensures -(bound * s) <= p <= bound * s
  {
    Scaled(d, bound, s);
  }

  // ---- sums over reals ----

  ghost function Sum(f: nat -> real, lo: nat, hi: nat): real
    decreases hi - lo
  {
    if lo >= hi then 0.0 else Sum(f, lo, hi - 1) + f(hi - 1)
  }

  lemma {:induction false} SumSplits(f: nat -> real, lo: nat, mid: nat, hi: nat)
    requires lo <= mid <= hi
    ensures Sum(f, lo, hi) == Sum(f, lo, mid) + Sum(f, mid, hi)
    decreases hi - mid
  {
    if mid < hi {
      SumSplits(f, lo, mid, hi - 1);
    }
  }

  lemma {:induction false} SumDistance(f: nat -> real, g: nat -> real, e: nat -> real, lo: nat, hi: nat)
    requires forall k: nat :: lo <= k < hi ==> Abs(f(k) - g(k)) <= e(k)
    ensures Abs(Sum(f, lo, hi) - Sum(g, lo, hi)) <= Sum(e, lo, hi)
    decreases hi - lo
  {
    if lo < hi {
      SumDistance(f, g, e, lo, hi - 1);
      assert Abs(f(hi - 1) - g(hi - 1)) <= e(hi - 1);
    }
  }

  // ---- the quantised matrix ----

  function BlockLo(k: nat, g: nat): nat
    requires g > 0
  {
    MulSign(k / g, g);
    k / g * g
  }

  lemma BlockHolds(k: nat, g: nat)
    requires g > 0
    ensures BlockLo(k, g) <= k < BlockLo(k, g) + g
  {
  }

  // The maximum that scales element (k, c): over k's block of its column.
  function MaxFor(w: seq<seq<real>>, g: nat, k: nat, c: nat): real
    requires g > 0 && k < |w| && forall i :: 0 <= i < |w| ==> c < |w[i]|
  {
    BlockHolds(k, g);
    ColumnMax(w, c, BlockLo(k, g), Min(BlockLo(k, g) + g, |w|))
  }

  function ScaleFor(w: seq<seq<real>>, g: nat, k: nat, c: nat): real
    requires g > 0 && k < |w| && forall i :: 0 <= i < |w| ==> c < |w[i]|
  {
    ScaleOf(MaxFor(w, g, k, c))
  }

  function QuantAt(w: seq<seq<real>>, g: nat, k: nat, c: nat): (q: int)
    requires g > 0 && k < |w| && forall i :: 0 <= i < |w| ==> c < |w[i]|
    ensures -7 <= q <= 7
  {
    QuantOf(w[k][c], MaxFor(w, g, k, c))
  }

  function DequantAt(w: seq<seq<real>>, g: nat, k: nat, c: nat): real
    requires g > 0 && k < |w| && forall i :: 0 <= i < |w| ==> c < |w[i]|
  {
    QuantAt(w, g, k, c) as real * ScaleFor(w, g, k, c)
  }

  lemma ElementError(w: seq<seq<real>>, g: nat, k: nat, c: nat)
    requires g > 0 && k < |w| && forall i :: 0 <= i < |w| ==> c < |w[i]|
    ensures Abs(DequantAt(w, g, k, c) - w[k][c]) <= ScaleFor(w, g, k, c) / 2.0
    ensures ScaleFor(w, g, k, c) > 0.0
  {
    hide QuantOf, ScaleOf, MaxFor;
    MaxBounds(w, g, k, c);
    QuantError(w[k][c], MaxFor(w, g, k, c));
  }

  lemma MaxBounds(w: seq<seq<real>>, g: nat, k: nat, c: nat)
    requires g > 0 && k < |w| && forall i :: 0 <= i < |w| ==> c < |w[i]|
    ensures Abs(w[k][c]) <= MaxFor(w, g, k, c)
  {
    BlockHolds(k, g);
  }

  // ---- the same in terms of the weights alone ----

  // M is the largest magnitude in column c among the rows of k's block.
  ghost predicate IsPeak(w: seq<seq<real>>, g: nat, k: nat, c: nat, M: real)
    requires g > 0 && k < |w| && forall i :: 0 <= i < |w| ==> c < |w[i]|
  {
    && (forall i :: 0 <= i < |w| && i / g == k / g ==> Abs(w[i][c]) <= M)
    && exists i :: 0 <= i < |w| && i / g == k / g && Abs(w[i][c]) == M
  }

  lemma InBlock(i: nat, k: nat, g: nat)
    requires g > 0
    ensures i / g == k / g <==> BlockLo(k, g) <= i < BlockLo(k, g) + g
  {
    var q := k / g;
    if BlockLo(k, g) <= i < BlockLo(k, g) + g {
      DivMod(q, i - q * g, g);
    } else if i / g == q {
      BlockHolds(i, g);
    }
  }

  lemma MaxForIsPeak(w: seq<seq<real>>, g: nat, k: nat, c: nat)
    requires g > 0 && k < |w| && forall i :: 0 <= i < |w| ==> c < |w[i]|
    ensures IsPeak(w, g, k, c, MaxFor(w, g, k, c))
    ensures forall M :: IsPeak(w, g, k, c, M) ==> M == MaxFor(w, g, k, c)
  {
    BlockHolds(k, g);
    var lo, hi := BlockLo(k, g), Min(BlockLo(k, g) + g, |w|);
    forall i | 0 <= i < |w| ensures i / g == k / g <==> lo <= i < hi {
      InBlock(i, k, g);
    }
    hide Abs, BlockLo;
    var j :| lo <= j < hi && Abs(w[j][c]) == ColumnMax(w, c, lo, hi);
    assert j / g == k / g;
  }

  // Every element comes back within a fourteenth of the largest magnitude of its
  // block's column, give or take 10^-12.
  lemma ErrorInWeights(w: seq<seq<real>>, g: nat, k: nat, c: nat, M: real)
    requires g > 0 && k < |w| && (forall i :: 0 <= i < |w| ==> c < |w[i]|) && IsPeak(w, g, k, c, M)
    ensures Abs(DequantAt(w, g, k, c) - w[k][c]) <= M / 14.0 + 0.000000000001
  {
    hide MaxFor, IsPeak, QuantOf, ScaleOf, Abs;
    MaxForIsPeak(w, g, k, c);
    MaxBounds(w, g, k, c);
    PeakError(w[k][c], M);
  }

  lemma PeakError(x: real, maxAbs: real)
    requires Abs(x) <= maxAbs
    ensures Abs(QuantOf(x, maxAbs) as real * ScaleOf(maxAbs) - x) <= maxAbs / 14.0 + 0.000000000001
  {
    QuantError(x, maxAbs);
    if maxAbs >= TINY {
      hide QuantOf, Abs;
      assert ScaleOf(maxAbs) / 2.0 == maxAbs / 14.0;
    } else {
      assert QuantOf(x, maxAbs) as real * ScaleOf(maxAbs) == 0.0;
    }
  }

  // A block's column is quantised to zeros alone exactly when all its weights are
  // smaller than 10^-12 in magnitude.
  lemma ZeroExactly(w: seq<seq<real>>, g: nat, k: nat, c: nat)
    requires g > 0 && k < |w| && forall i :: 0 <= i < |w| ==> c < |w[i]|
    ensures (forall i :: 0 <= i < |w| && i / g == k / g ==> QuantAt(w, g, i, c) == 0) <==>
            forall i :: 0 <= i < |w| && i / g == k / g ==> Abs(w[i][c]) < 0.000000000001
  {
    forall i | 0 <= i < |w| && i / g == k / g ensures MaxFor(w, g, i, c) == MaxFor(w, g, k, c) {
      assert BlockLo(i, g) == BlockLo(k, g);
    }
    MaxForIsPeak(w, g, k, c);
    var top := MaxFor(w, g, k, c);
    var j :| 0 <= j < |w| && j / g == k / g && Abs(w[j][c]) == top;
    hide MaxFor, Abs, BlockLo;
    if top >= TINY {
      FullScale(w[j][c], top);
      assert QuantAt(w, g, j, c) != 0;
    }
  }

  // Otherwise the largest magnitude is quantised to 7 or -7 and comes back
  // exactly; the scale is a seventh of it. A column of zeros has scale 1.
  lemma PeakComesBack(w: seq<seq<real>>, g: nat, k: nat, c: nat)
    requires g > 0 && k < |w| && (forall i :: 0 <= i < |w| ==> c < |w[i]|) && IsPeak(w, g, k, c, Abs(w[k][c]))
    ensures Abs(w[k][c]) >= 0.000000000001 ==>
              && QuantAt(w, g, k, c) == (if w[k][c] < 0.0 then -7 else 7)
              && DequantAt(w, g, k, c) == w[k][c] && 7.0 * ScaleFor(w, g, k, c) == Abs(w[k][c])
    ensures Abs(w[k][c]) < 0.000000000001 ==> ScaleFor(w, g, k, c) == 1.0 && DequantAt(w, g, k, c) == 0.0
  {
    MaxForIsPeak(w, g, k, c);
    hide MaxFor, IsPeak;
    if Abs(w[k][c]) >= TINY {
      FullScale(w[k][c], Abs(w[k][c]));
    }
  }

  // The quantised values row by row, as they are packed.
  function FlatQuant(w: seq<seq<real>>, g: nat, N: nat): (r: seq<int>)
    requires g > 0 && forall i :: 0 <= i < |w| ==> |w[i]| == N
    ensures |r| == |w| * N && forall i :: 0 <= i < |r| ==> IsInt4(r[i])
  {
    MulSign(|w|, N);
    seq(|w| * N, i requires 0 <= i < |w| * N => (RowColumn(i, |w|, N); QuantAt(w, g, i / N, i % N)))
  }

  // ---- the block-scaled product ----

  // Row m of A, element k, times column n of W.
  function Term(a: seq<int>, w: seq<int>, K: nat, N: nat, m: nat, n: nat, k: nat): int {
    At(a, m * K + k) * At(w, k * N + n)
  }

  function RangeDot(a: seq<int>, w: seq<int>, K: nat, N: nat, m: nat, n: nat, lo: nat, hi: nat): int
    decreases hi - lo
  {
    if lo >= hi then 0 else
    RangeDot(a, w, K, N, m, n, lo, hi - 1) + Term(a, w, K, N, m, n, hi - 1)
  }

  function RangeAccumulate(wide: bool, a: seq<int>, w: seq<int>, K: nat, N: nat, m: nat, n: nat, lo: nat, hi: nat): int
    decreases hi - lo
  {
    if lo >= hi then 0 else
    var sum := RangeAccumulate(wide, a, w, K, N, m, n, lo, hi - 1) + Term(a, w, K, N, m, n, hi - 1);
    if wide then sum else Wrap32(sum)
  }

  // Clipping and wrapping never act on a block of at most 2097151 rows.
  lemma {:induction false} BlockIsExact(wide: bool, a: seq<int>, w: seq<int>, K: nat, N: nat, m: nat, n: nat, lo: nat,
                                        hi: nat)
    requires Operands(a, w) && lo <= hi <= lo + EXACT_K
    ensures RangeAccumulate(wide, a, w, K, N, m, n, lo, hi) == RangeDot(a, w, K, N, m, n, lo, hi)
    ensures -1024 * (hi - lo) <= RangeDot(a, w, K, N, m, n, lo, hi) <= 1024 * (hi - lo)
    decreases hi - lo
  {
    hide Term, Operands, At, Wrap32;
    if lo < hi {
      BlockIsExact(wide, a, w, K, N, m, n, lo, hi - 1);
      TermInRange(a, w, K, N, m, n, hi - 1);
      NoWrap(RangeDot(a, w, K, N, m, n, lo, hi));
    }
  }

  lemma TermInRange(a: seq<int>, w: seq<int>, K: nat, N: nat, m: nat, n: nat, k: nat)
    requires Operands(a, w)
    ensures -1024 <= Term(a, w, K, N, m, n, k) <= 1024
  {
    TermBound(At(a, m * K + k), At(w, k * N + n));
  }

  lemma NoWrap(x: int)
    requires IsInt32(x)
    ensures Wrap32(x) == x
  {}

  function BlockStart(b: nat, g: nat, K: nat): nat {
    MulSign(b, g);
    Min(b * g, K)
  }

  // One block's clipped integer sum times the block's scale for the column.
  function BlockPart(wide: bool, a: seq<int>, w: seq<int>, scales: seq<seq<real>>, K: nat, N: nat, g: nat, m: nat,
                     n: nat, b: nat): real
    requires b < |scales| && n < |scales[b]|
  {
    Clip(RangeAccumulate(wide, a, w, K, N, m, n, BlockStart(b, g, K), BlockStart(b + 1, g, K)),
         INT32_MIN, INT32_MAX) as real
      * scales[b][n]
  }

  // The first B blocks of element (m, n).
  function PerBlock(wide: bool, a: seq<int>, w: seq<int>, scales: seq<seq<real>>, K: nat, N: nat, g: nat, m: nat,
                    n: nat, B: nat): real
    requires B <= |scales| && forall b :: 0 <= b < |scales| ==> n < |scales[b]|
  {
    if B == 0 then 0.0 else
    PerBlock(wide, a, w, scales, K, N, g, m, n, B - 1) + BlockPart(wide, a, w, scales, K, N, g, m, n, B - 1)
  }

  function Blocks(K: nat, g: nat): nat
    requires g > 0
  {
    (K + g - 1) / g
  }

  lemma BlocksCover(K: nat, g: nat)
    requires g > 0
    ensures BlockStart(Blocks(K, g), g, K) == K && BlockStart(0, g, K) == 0
  {
    var q := Blocks(K, g);
    assert q * g == K + g - 1 - (K + g - 1) % g;
  }

  lemma BlockOf(k: nat, b: nat, g: nat, K: nat)
    requires g > 0 && BlockStart(b, g, K) <= k < BlockStart(b + 1, g, K)
    ensures k / g == b && BlockStart(b + 1, g, K) - BlockStart(b, g, K) <= g && b < Blocks(K, g)
    ensures BlockLo(k, g) == BlockStart(b, g, K) && Min(BlockLo(k, g) + g, K) == BlockStart(b + 1, g, K)
  {
    assert (b + 1) * g == b * g + g;
    DivMod(b, k - b * g, g);
    var q := Blocks(K, g);
    assert q * g == K + g - 1 - (K + g - 1) % g;
    MulCancel(b, q, g);
  }
}
