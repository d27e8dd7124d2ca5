// End to end: quantise, pack, unpack, multiply block by block. The result is
// the product with the dequantised matrix, and lies within half a scale per
// activation of the product with the original one.
module QuantizedGemm {
  import opened Arithmetic
  import opened Memory
  import opened Int4
  import opened Mxu
  import opened Mmul
  import opened Quantize

  // The scale table: one row per block, one column per output.
  function ScaleGrid(w: seq<seq<real>>, g: nat, N: nat): (r: seq<seq<real>>)
    requires g > 0 && IsMatrix(w, |w|, N)
    ensures |r| == Blocks(|w|, g) && forall b :: 0 <= b < |r| ==> |r[b]| == N
  {
    seq(Blocks(|w|, g), b requires 0 <= b < Blocks(|w|, g) =>
      seq(N, c requires 0 <= c < N => GridAt(w, g, N, b, c)))
  }

  function GridAt(w: seq<seq<real>>, g: nat, N: nat, b: nat, c: nat): real
    requires g > 0 && IsMatrix(w, |w|, N) && b < Blocks(|w|, g) && c < N
  {
    BlockSpan(b, g, |w|);
    ScaleOf(ColumnMax(w, c, BlockStart(b, g, |w|), BlockStart(b + 1, g, |w|)))
  }

  lemma BlockSpan(b: nat, g: nat, K: nat)
    requires g > 0
    ensures BlockStart(b, g, K) <= BlockStart(b + 1, g, K) <= K
    ensures BlockStart(b + 1, g, K) - BlockStart(b, g, K) <= g
  {
    assert (b + 1) * g == b * g + g;
  }

  // Each element is scaled by its block's entry.
  lemma GridScales(w: seq<seq<real>>, g: nat, N: nat, b: nat, k: nat, c: nat)
    requires g > 0 && IsMatrix(w, |w|, N) && c < N
    requires BlockStart(b, g, |w|) <= k < BlockStart(b + 1, g, |w|)
    ensures b < Blocks(|w|, g) && ScaleFor(w, g, k, c) == ScaleGrid(w, g, N)[b][c]
  {
    BlockOf(k, b, g, |w|);
  }

  // Unpacking the packed matrix gives every quantised value back.
  lemma PackedValues(w: seq<seq<real>>, g: nat, N: nat, k: nat, c: nat)
    requires g > 0 && IsMatrix(w, |w|, N) && k < |w| && c < N
    ensures At(Unpack(Pack(FlatQuant(w, g, N))), k * N + c) == QuantAt(w, g, k, c)
  {
    RowMajor(k, c, |w|, N);
    FlatAt(w, g, N, k, c);
    hide Pack, Unpack, FlatQuant, QuantAt;
    UnpackPack(FlatQuant(w, g, N));
  }

  lemma FlatAt(w: seq<seq<real>>, g: nat, N: nat, k: nat, c: nat)
    requires g > 0 && IsMatrix(w, |w|, N) && k < |w| && c < N && k * N + c < |w| * N
    ensures FlatQuant(w, g, N)[k * N + c] == QuantAt(w, g, k, c)
  {
    hide QuantAt;
    RowMajor(k, c, |w|, N);
  }

  ghost function DequantTerms(a: seq<int>, w: seq<seq<real>>, g: nat, N: nat, m: nat, n: nat): nat -> real
    requires g > 0 && IsMatrix(w, |w|, N) && n < N
  {
    (k: nat) => if k < |w| then At(a, m * |w| + k) as real * DequantAt(w, g, k, n) else 0.0
  }

  ghost function ExactTerms(a: seq<int>, w: seq<seq<real>>, N: nat, m: nat, n: nat): nat -> real
    requires IsMatrix(w, |w|, N) && n < N
  {
    (k: nat) => if k < |w| then At(a, m * |w| + k) as real * w[k][n] else 0.0
  }

  ghost function ErrorTerms(a: seq<int>, w: seq<seq<real>>, g: nat, N: nat, m: nat, n: nat): nat -> real
    requires g > 0 && IsMatrix(w, |w|, N) && n < N
  {
    (k: nat) => if k < |w| then Abs(At(a, m * |w| + k) as real) * ScaleFor(w, g, k, n) / 2.0 else 0.0
  }

  // The same bound in terms of the weights: M / 14 and 10^-12, with M the largest
  // magnitude of the block's column.
  ghost function PeakTerms(a: seq<int>, w: seq<seq<real>>, g: nat, N: nat, m: nat, n: nat): nat -> real
    requires g > 0 && IsMatrix(w, |w|, N) && n < N
  {
    (k: nat) =>
      if k < |w| then Abs(At(a, m * |w| + k) as real) * (MaxFor(w, g, k, n) / 14.0 + 0.000000000001) else 0.0
  }

  lemma Distribute(sum: int, x: int, q: int, s: real)
    ensures (sum + x * q) as real * s == sum as real * s + x as real * (q as real * s)
  {
    assert (x * q) as real == x as real * q as real;
  }

  // Activation times dequantised weight, for row k of the reduction.
  function Term(a: seq<int>, w: seq<int>, K: nat, N: nat, m: nat, n: nat, s: real, k: nat): real {
    At(a, m * K + k) as real * (At(w, k * N + n) as real * s)
  }

  lemma LastTerm(a: seq<int>, w: seq<int>, K: nat, N: nat, m: nat, n: nat, lo: nat, hi: nat, s: real)
    requires lo < hi
    ensures RangeDot(a, w, K, N, m, n, lo, hi) as real * s ==
            RangeDot(a, w, K, N, m, n, lo, hi - 1) as real * s + Term(a, w, K, N, m, n, s, hi - 1)
  {
    hide At;
    Distribute(RangeDot(a, w, K, N, m, n, lo, hi - 1), At(a, m * K + (hi - 1)), At(w, (hi - 1) * N + n), s);
  }

  // Within one block the integer sum times the scale is the sum of the scaled terms.
  lemma {:induction false} RangeScaled(a: seq<int>, w: seq<int>, K: nat, N: nat, m: nat, n: nat, lo: nat, hi: nat,
                                       s: real, t: nat -> real)
    requires lo <= hi
    requires forall k: nat :: lo <= k < hi ==> t(k) == Term(a, w, K, N, m, n, s, k)
    ensures RangeDot(a, w, K, N, m, n, lo, hi) as real * s == Sum(t, lo, hi)
    decreases hi - lo
  {
    hide Term;
    if lo < hi {
      hide RangeDot;
      RangeScaled(a, w, K, N, m, n, lo, hi - 1, s, t);
      LastTerm(a, w, K, N, m, n, lo, hi, s);
    } else {
      assert RangeDot(a, w, K, N, m, n, lo, hi) as real == 0.0;
    }
  }

  // t lists the scaled terms of element (m, n), block by block.
  ghost predicate TermsOf(t: nat -> real, a: seq<int>, w: seq<int>, scales: seq<seq<real>>, K: nat, N: nat, g: nat,
                          m: nat, n: nat)
  {
    && (forall b :: 0 <= b < |scales| ==> n < |scales[b]|)
    && (forall b: nat, k: nat :: b < |scales| && BlockStart(b, g, K) <= k < BlockStart(b + 1, g, K) ==>
          t(k) == Term(a, w, K, N, m, n, scales[b][n], k))
  }

  lemma TermsInBlock(t: nat -> real, a: seq<int>, w: seq<int>, scales: seq<seq<real>>, K: nat, N: nat, g: nat, m: nat,
                     n: nat, b: nat)
    requires TermsOf(t, a, w, scales, K, N, g, m, n) && b < |scales|
    ensures n < |scales[b]|
    ensures forall k: nat :: BlockStart(b, g, K) <= k < BlockStart(b + 1, g, K) ==>
              t(k) == Term(a, w, K, N, m, n, scales[b][n], k)
  {
  }

  lemma BlockTerm(wide: bool, a: seq<int>, w: seq<int>, scales: seq<seq<real>>, K: nat, N: nat, g: nat, m: nat, n: nat,
                  b: nat, t: nat -> real)
    requires 0 < g <= EXACT_K && Operands(a, w) && b < |scales| && TermsOf(t, a, w, scales, K, N, g, m, n)
    ensures n < |scales[b]|
    ensures BlockPart(wide, a, w, scales, K, N, g, m, n, b) == Sum(t, BlockStart(b, g, K), BlockStart(b + 1, g, K))
  {
    hide BlockStart, Sum, RangeDot, RangeAccumulate, TermsOf, Term, Operands;
    BlockSpan(b, g, K);
    TermsInBlock(t, a, w, scales, K, N, g, m, n, b);
    BlockSum(wide, a, w, K, N, m, n, BlockStart(b, g, K), BlockStart(b + 1, g, K), scales[b][n], t);
  }

  // The clip leaves a block's sum alone, and the scale distributes over it.
  lemma BlockSum(wide: bool, a: seq<int>, w: seq<int>, K: nat, N: nat, m: nat, n: nat, lo: nat, hi: nat, s: real,
                 t: nat -> real)
    requires Operands(a, w) && lo <= hi <= lo + EXACT_K
    requires forall k: nat :: lo <= k < hi ==> t(k) == Term(a, w, K, N, m, n, s, k)
    ensures Clip(RangeAccumulate(wide, a, w, K, N, m, n, lo, hi), INT32_MIN, INT32_MAX) as real * s == Sum(t, lo, hi)
  {
    hide Sum, RangeDot, RangeAccumulate, Term, Operands;
    RangeScaled(a, w, K, N, m, n, lo, hi, s, t);
    BlockUnclipped(wide, a, w, K, N, m, n, lo, hi);
  }

  lemma BlockUnclipped(wide: bool, a: seq<int>, w: seq<int>, K: nat, N: nat, m: nat, n: nat, lo: nat, hi: nat)
    requires Operands(a, w) && lo <= hi <= lo + EXACT_K
    ensures Clip(RangeAccumulate(wide, a, w, K, N, m, n, lo, hi), INT32_MIN, INT32_MAX) ==
            RangeDot(a, w, K, N, m, n, lo, hi)
  {
    hide RangeDot, RangeAccumulate, Operands;
    BlockIsExact(wide, a, w, K, N, m, n, lo, hi);
  }

  lemma {:induction false} PerBlockIsSum(wide: bool, a: seq<int>, w: seq<int>, scales: seq<seq<real>>,
                                         K: nat, N: nat, g: nat, m: nat, n: nat, B: nat, t: nat -> real)
    requires 0 < g <= EXACT_K && Operands(a, w) && B <= |scales| && TermsOf(t, a, w, scales, K, N, g, m, n)
    ensures PerBlock(wide, a, w, scales, K, N, g, m, n, B) == Sum(t, 0, BlockStart(B, g, K))
  {
    hide TermsOf, BlockPart;
    EveryRow(t, a, w, scales, K, N, g, m, n);
    if B > 0 {
      PerBlockIsSum(wide, a, w, scales, K, N, g, m, n, B - 1, t);
      BlockSpan(B - 1, g, K);
      BlockTerm(wide, a, w, scales, K, N, g, m, n, B - 1, t);
      SumSplits(t, 0, BlockStart(B - 1, g, K), BlockStart(B, g, K));
    }
  }

  lemma EveryRow(t: nat -> real, a: seq<int>, w: seq<int>, scales: seq<seq<real>>, K: nat, N: nat, g: nat, m: nat,
                 n: nat)
    requires TermsOf(t, a, w, scales, K, N, g, m, n)
    ensures forall b :: 0 <= b < |scales| ==> n < |scales[b]|
  {
  }

  lemma TermDistance(x: real, d: real, y: real, s: real, p: real, q: real, e: real)
    requires Abs(d - y) <= s / 2.0 && p == x * d && q == x * y && e == Abs(x) * s / 2.0
    ensures Abs(p - q) <= e
  {
    if x >= 0.0 {
      ScaledTo(d - y, s / 2.0, x, p - q);
      assert s / 2.0 * x == e;
    } else {
      ScaledTo(d - y, s / 2.0, -x, q - p);
      assert s / 2.0 * -x == e;
    }
  }

  // The block-scaled product of the packed weights is the product with the
  // dequantised matrix, and differs from the product with the original matrix
  // by at most the sum of |activation| times half the scale.
  lemma QuantizedProductBound(wide: bool, a: seq<int>, w: seq<seq<real>>, g: nat, N: nat, m: nat, n: nat)
    requires 0 < g <= EXACT_K && IsMatrix(w, |w|, N) && n < N
    requires forall i :: 0 <= i < |a| ==> IsInt8(a[i])
    ensures var r := PerBlock(wide, a, Unpack(Pack(FlatQuant(w, g, N))), ScaleGrid(w, g, N), |w|, N, g, m, n,
            Blocks(|w|, g));
            && r == Sum(DequantTerms(a, w, g, N, m, n), 0, |w|)
            && Abs(r - Sum(ExactTerms(a, w, N, m, n), 0, |w|)) <= Sum(ErrorTerms(a, w, g, N, m, n), 0, |w|)
            && Abs(r - Sum(ExactTerms(a, w, N, m, n), 0, |w|)) <= Sum(PeakTerms(a, w, g, N, m, n), 0, |w|)
  {
    hide Pack, FlatQuant, PerBlock, Sum, Abs;
    TermsAreDequant(a, w, g, N, m, n);
    PerBlockIsSum(wide, a, Unpack(Pack(FlatQuant(w, g, N))), ScaleGrid(w, g, N), |w|, N, g, m, n, Blocks(|w|, g),
                  DequantTerms(a, w, g, N, m, n));
    BlocksCover(|w|, g);
    TermsAreClose(a, w, g, N, m, n);
    TermsAreNear(a, w, g, N, m, n);
  }

  lemma TermsAreDequant(a: seq<int>, w: seq<seq<real>>, g: nat, N: nat, m: nat, n: nat)
    requires g > 0 && IsMatrix(w, |w|, N) && n < N
    ensures TermsOf(DequantTerms(a, w, g, N, m, n), a, Unpack(Pack(FlatQuant(w, g, N))), ScaleGrid(w, g, N), |w|, N, g,
            m, n)
  {
    hide Pack, Unpack, FlatQuant, ScaleGrid, BlockStart, At, QuantAt, ScaleFor;
    var t := DequantTerms(a, w, g, N, m, n);
    forall b: nat, k: nat | b < Blocks(|w|, g) && BlockStart(b, g, |w|) <= k < BlockStart(b + 1, g, |w|)
      ensures t(k) == Term(a, Unpack(Pack(FlatQuant(w, g, N))), |w|, N, m, n, ScaleGrid(w, g, N)[b][n], k)
    {
      BlockSpan(b, g, |w|);
      PackedValues(w, g, N, k, n);
      GridScales(w, g, N, b, k, n);
    }
  }

  lemma TermsAreClose(a: seq<int>, w: seq<seq<real>>, g: nat, N: nat, m: nat, n: nat)
    requires g > 0 && IsMatrix(w, |w|, N) && n < N
    ensures Abs(Sum(DequantTerms(a, w, g, N, m, n), 0, |w|) - Sum(ExactTerms(a, w, N, m, n), 0, |w|))
         <= Sum(ErrorTerms(a, w, g, N, m, n), 0, |w|)
  {
    hide DequantAt, ScaleFor, At;
    var d, x, e := DequantTerms(a, w, g, N, m, n), ExactTerms(a, w, N, m, n), ErrorTerms(a, w, g, N, m, n);
    forall k: nat | 0 <= k < |w| ensures Abs(d(k) - x(k)) <= e(k) {
      ElementError(w, g, k, n);
      TermDistance(At(a, m * |w| + k) as real, DequantAt(w, g, k, n), w[k][n], ScaleFor(w, g, k, n), d(k), x(k), e(k));
    }
    SumDistance(d, x, e, 0, |w|);
  }

  lemma TermsAreNear(a: seq<int>, w: seq<seq<real>>, g: nat, N: nat, m: nat, n: nat)
    requires g > 0 && IsMatrix(w, |w|, N) && n < N
    ensures Abs(Sum(DequantTerms(a, w, g, N, m, n), 0, |w|) - Sum(ExactTerms(a, w, N, m, n), 0, |w|))
         <= Sum(PeakTerms(a, w, g, N, m, n), 0, |w|)
  {
    hide DequantTerms, ExactTerms, PeakTerms, Sum, Abs;
    var d, x, e := DequantTerms(a, w, g, N, m, n), ExactTerms(a, w, N, m, n), PeakTerms(a, w, g, N, m, n);
    forall k: nat | 0 <= k < |w| ensures Abs(d(k) - x(k)) <= e(k) {
      TermIsNear(a, w, g, N, m, n, k);
    }
    SumDistance(d, x, e, 0, |w|);
  }

  lemma TermIsNear(a: seq<int>, w: seq<seq<real>>, g: nat, N: nat, m: nat, n: nat, k: nat)
    requires g > 0 && IsMatrix(w, |w|, N) && n < N && k < |w|
    ensures Abs(DequantTerms(a, w, g, N, m, n)(k) - ExactTerms(a, w, N, m, n)(k)) <= PeakTerms(a, w, g, N, m, n)(k)
  {
    hide DequantAt, MaxFor, At, Abs, IsPeak;
    var x, d, y := At(a, m * |w| + k) as real, DequantAt(w, g, k, n), w[k][n];
    var bound := MaxFor(w, g, k, n) / 14.0 + 0.000000000001;
    MaxForIsPeak(w, g, k, n);
    ErrorInWeights(w, g, k, n, MaxFor(w, g, k, n));
    ScaledDistance(x, d, y, bound, DequantTerms(a, w, g, N, m, n)(k), ExactTerms(a, w, N, m, n)(k),
                   PeakTerms(a, w, g, N, m, n)(k));
  }

  lemma ScaledDistance(x: real, d: real, y: real, bound: real, p: real, q: real, e: real)
    requires Abs(d - y) <= bound && p == x * d && q == x * y && e == Abs(x) * bound
    ensures Abs(p - q) <= e
  {
    TermDistance(x, d, y, 2.0 * bound, p, q, e);
  }

  // ---- the loops that compute these ----

  // One block: a scale per column, and the values it quantises.
  method ScaleBlock(w: seq<seq<real>>, N: nat, g: nat, b: nat, scales: array2<real>, quantized: array2<int>)
    requires g > 0 && IsMatrix(w, |w|, N) && b < Blocks(|w|, g)
    requires scales.Length0 == Blocks(|w|, g) && scales.Length1 == N && quantized.Length0 == |w|
             && quantized.Length1 == N
    modifies scales, quantized
    ensures forall c :: 0 <= c < N ==> scales[b, c] == GridAt(w, g, N, b, c)
    ensures forall i, c :: 0 <= i < scales.Length0 && i != b && 0 <= c < N ==> scales[i, c] == old(scales[i, c])
    ensures forall k, c :: BlockStart(b, g, |w|) <= k < BlockStart(b + 1, g, |w|) && 0 <= c < N ==>
            quantized[k, c] == QuantAt(w, g, k, c)
    ensures forall k, c :: 0 <= k < |w| && 0 <= c < N && !(BlockStart(b, g, |w|) <= k < BlockStart(b + 1, g, |w|)) ==>
              quantized[k, c] == old(quantized[k, c])
  {
    hide ColumnMax, ScaleOf, QuantOf, BlockStart, Blocks;
    BlockSpan(b, g, |w|);
    var lo, hi := BlockStart(b, g, |w|), BlockStart(b + 1, g, |w|);
    for c := 0 to N
      invariant forall j :: 0 <= j < c ==> scales[b, j] == GridAt(w, g, N, b, j)
      invariant forall i, j :: 0 <= i < scales.Length0 && i != b && 0 <= j < N ==> scales[i, j] == old(scales[i, j])
      invariant forall k, j :: lo <= k < hi && 0 <= j < c ==> quantized[k, j] == QuantAt(w, g, k, j)
      invariant forall k, j :: 0 <= k < |w| && 0 <= j < N && !(lo <= k < hi) ==> quantized[k, j] == old(quantized[k, j])
    {
      var maxAbs := ColumnMax(w, c, lo, hi);
      forall k | lo <= k < hi ensures MaxFor(w, g, k, c) == maxAbs {
        BlockOf(k, b, g, |w|);
      }
      scales[b, c] := ScaleOf(maxAbs);
      forall k | lo <= k < hi {
        quantized[k, c] := QuantOf(w[k][c], maxAbs);
      }
    }
  }

  method ScaleBlocks(w: seq<seq<real>>, N: nat, g: nat) returns (scales: array2<real>, quantized: array2<int>)
    requires g > 0 && IsMatrix(w, |w|, N)
    ensures fresh(scales) && scales.Length0 == Blocks(|w|, g) && scales.Length1 == N
    ensures fresh(quantized) && quantized.Length0 == |w| && quantized.Length1 == N
    ensures forall b, c :: 0 <= b < Blocks(|w|, g) && 0 <= c < N ==> scales[b, c] == GridAt(w, g, N, b, c)
    ensures forall k, c :: 0 <= k < |w| && 0 <= c < N ==> quantized[k, c] == QuantAt(w, g, k, c)
  {
    hide QuantAt, GridAt, BlockStart, Blocks;
    BlocksCover(|w|, g);
    scales := new real[Blocks(|w|, g), N]((_, _) => 0.0);
    quantized := new int[|w|, N]((_, _) => 0);
    for b := 0 to Blocks(|w|, g)
      invariant forall i, c :: 0 <= i < b && 0 <= c < N ==> scales[i, c] == GridAt(w, g, N, i, c)
      invariant forall k, c :: 0 <= k < BlockStart(b, g, |w|) && k < |w| && 0 <= c < N ==>
                quantized[k, c] == QuantAt(w, g, k, c)
    {
      BlockSpan(b, g, |w|);
      ScaleBlock(w, N, g, b, scales, quantized);
    }
  }

  method PackRows(w: seq<seq<real>>, N: nat, g: nat, quantized: array2<int>) returns (packed: seq<byte>)
    requires g > 0 && IsMatrix(w, |w|, N) && quantized.Length0 == |w| && quantized.Length1 == N
    requires forall k, c :: 0 <= k < |w| && 0 <= c < N ==> quantized[k, c] == QuantAt(w, g, k, c)
    ensures packed == Pack(FlatQuant(w, g, N))
  {
    hide Pack, QuantAt;
    var K := |w|;
    MulSign(K, N);
    var flat := seq(K * N, i requires 0 <= i < K * N reads quantized => (RowColumn(i, K, N); quantized[i / N, i % N]));
    forall i | 0 <= i < K * N ensures flat[i] == FlatQuant(w, g, N)[i] {
      RowColumn(i, K, N);
    }
    assert flat == FlatQuant(w, g, N);
    packed := Pack(flat);
  }

  method DequantizeBlock(w: seq<seq<real>>, N: nat, g: nat, b: nat, scales: array2<real>, quantized: array2<int>,
                         dequant: array2<real>)
    requires g > 0 && IsMatrix(w, |w|, N) && b < Blocks(|w|, g)
    requires scales.Length0 == Blocks(|w|, g) && scales.Length1 == N && quantized.Length0 == |w|
             && quantized.Length1 == N
    requires dequant.Length0 == |w| && dequant.Length1 == N && dequant != scales
    requires forall c :: 0 <= c < N ==> scales[b, c] == GridAt(w, g, N, b, c)
    requires forall k, c :: 0 <= k < |w| && 0 <= c < N ==> quantized[k, c] == QuantAt(w, g, k, c)
    modifies dequant
    ensures forall k, c :: BlockStart(b, g, |w|) <= k < BlockStart(b + 1, g, |w|) && 0 <= c < N ==>
            dequant[k, c] == DequantAt(w, g, k, c)
    ensures forall k, c :: 0 <= k < |w| && 0 <= c < N && !(BlockStart(b, g, |w|) <= k < BlockStart(b + 1, g, |w|)) ==>
              dequant[k, c] == old(dequant[k, c])
  {
    hide QuantAt, ScaleFor, GridAt, BlockStart, Blocks;
    BlockSpan(b, g, |w|);
    var lo, hi := BlockStart(b, g, |w|), BlockStart(b + 1, g, |w|);
    forall k, c | lo <= k < hi && 0 <= c < N ensures ScaleFor(w, g, k, c) == GridAt(w, g, N, b, c) {
      GridScales(w, g, N, b, k, c);
      GridEntry(w, g, N, b, c);
    }
    forall k, c | lo <= k < hi && 0 <= c < N {
      dequant[k, c] := quantized[k, c] as real * scales[b, c];
    }
  }

  lemma GridEntry(w: seq<seq<real>>, g: nat, N: nat, b: nat, c: nat)
    requires g > 0 && IsMatrix(w, |w|, N) && b < Blocks(|w|, g) && c < N
    ensures ScaleGrid(w, g, N)[b][c] == GridAt(w, g, N, b, c)
  {
    hide GridAt;
  }

  method Dequantize(w: seq<seq<real>>, N: nat, g: nat, scales: array2<real>, quantized: array2<int>)
    returns (dequant: array2<real>)
    requires g > 0 && IsMatrix(w, |w|, N)
    requires scales.Length0 == Blocks(|w|, g) && scales.Length1 == N && quantized.Length0 == |w|
             && quantized.Length1 == N
    requires forall b, c :: 0 <= b < Blocks(|w|, g) && 0 <= c < N ==> scales[b, c] == GridAt(w, g, N, b, c)
    requires forall k, c :: 0 <= k < |w| && 0 <= c < N ==> quantized[k, c] == QuantAt(w, g, k, c)
    ensures fresh(dequant) && dequant.Length0 == |w| && dequant.Length1 == N
    ensures forall k, c :: 0 <= k < |w| && 0 <= c < N ==> dequant[k, c] == DequantAt(w, g, k, c)
  {
    hide QuantAt, DequantAt, GridAt, BlockStart, Blocks;
    BlocksCover(|w|, g);
    dequant := new real[|w|, N]((_, _) => 0.0);
    for b := 0 to Blocks(|w|, g)
      invariant forall k, c :: 0 <= k < BlockStart(b, g, |w|) && k < |w| && 0 <= c < N ==>
                dequant[k, c] == DequantAt(w, g, k, c)
    {
      BlockSpan(b, g, |w|);
      DequantizeBlock(w, N, g, b, scales, quantized, dequant);
    }
  }

  method QuantizeInt4PerBlock(w: seq<seq<real>>, N: nat, g: nat)
    returns (packed: seq<byte>, scales: array2<real>, dequant: array2<real>)
    requires g > 0 && IsMatrix(w, |w|, N)
    ensures packed == Pack(FlatQuant(w, g, N))
    ensures scales.Length0 == Blocks(|w|, g) && scales.Length1 == N
    ensures forall b, c :: 0 <= b < Blocks(|w|, g) && 0 <= c < N ==> scales[b, c] == ScaleGrid(w, g, N)[b][c]
    ensures dequant.Length0 == |w| && dequant.Length1 == N
    ensures forall k, c :: 0 <= k < |w| && 0 <= c < N ==> dequant[k, c] == DequantAt(w, g, k, c)
  {
    hide Pack, FlatQuant, QuantAt, DequantAt, GridAt;
    var quantized;
    scales, quantized := ScaleBlocks(w, N, g);
    packed := PackRows(w, N, g, quantized);
    dequant := Dequantize(w, N, g, scales, quantized);
  }

  // Column tiles of width W; within a tile, block after block is scaled and added.
  method MatmulInt4PerBlock(W: nat, wide: bool, a: seq<int>, packed: seq<byte>, scales: seq<seq<real>>, M: nat, K: nat,
                            N: nat, g: nat)
    returns (result: array2<real>)
    requires W > 0 && g > 0 && |scales| == Blocks(K, g) && forall b :: 0 <= b < |scales| ==> |scales[b]| == N
    ensures fresh(result) && result.Length0 == M && result.Length1 == N
    ensures forall m, n :: 0 <= m < M && 0 <= n < N ==>
              result[m, n] == PerBlock(wide, a, Unpack(packed), scales, K, N, g, m, n, Blocks(K, g))
  {
    hide BlockPart, Unpack;
    var w := Unpack(packed);
    var B := Blocks(K, g);
    result := new real[M, N]((_, _) => 0.0);
    var nStart := 0;
    while nStart < N
      invariant forall m, n :: 0 <= m < M && 0 <= n < N && n < nStart ==>
                result[m, n] == PerBlock(wide, a, w, scales, K, N, g, m, n, B)
      invariant forall m, n :: 0 <= m < M && nStart <= n < N ==> result[m, n] == 0.0
    {
      var nEnd := Min(nStart + W, N);
      for b := 0 to B
        invariant forall m, n :: 0 <= m < M && 0 <= n < nStart ==>
                  result[m, n] == PerBlock(wide, a, w, scales, K, N, g, m, n, B)
        invariant forall m, n :: 0 <= m < M && nStart <= n < nEnd ==>
                  result[m, n] == PerBlock(wide, a, w, scales, K, N, g, m, n, b)
        invariant forall m, n :: 0 <= m < M && nEnd <= n < N ==> result[m, n] == 0.0
      {
        forall m, n | 0 <= m < M && nStart <= n < nEnd {
          result[m, n] := result[m, n] + BlockPart(wide, a, w, scales, K, N, g, m, n, b);
        }
      }
      nStart := nStart + W;
    }
  }
}
