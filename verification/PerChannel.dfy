// Per-channel INT4 quantisation: one scale per column. It is the per-block
// scheme with a single block, and its dequantiser undoes its packing.
module PerChannel {
  import opened Arithmetic
  import opened Memory
  import opened Int4
  import opened Mxu
  import opened Quantize
  import opened QuantizedGemm

  function ChannelMax(w: seq<seq<real>>, N: nat, c: nat): real
    requires IsMatrix(w, |w|, N) && c < N
  {
    ColumnMax(w, c, 0, |w|)
  }

  lemma OneBlock(w: seq<seq<real>>, N: nat, k: nat, c: nat)
    requires IsMatrix(w, |w|, N) && k < |w| && c < N
    ensures MaxFor(w, |w|, k, c) == ChannelMax(w, N, c)
  {
    DivMod(0, k, |w|);
  }

  // What the dequantiser reads back from the packed bytes and the channel's scale
  // is the quantiser's own reference value, within half a scale of the weight.
  lemma ChannelRoundTrip(w: seq<seq<real>>, N: nat, k: nat, c: nat)
    requires IsMatrix(w, |w|, N) && k < |w| && c < N
    ensures var back := At(Unpack(Pack(FlatQuant(w, |w|, N))), k * N + c) as real * ScaleOf(ChannelMax(w, N, c));
            && back == DequantAt(w, |w|, k, c)
            && Abs(back - w[k][c]) <= ScaleOf(ChannelMax(w, N, c)) / 2.0
  {
    hide Pack, Unpack, FlatQuant, QuantAt, At, ScaleOf, ChannelMax, MaxFor;
    OneBlock(w, N, k, c);
    PackedValues(w, |w|, N, k, c);
    ElementError(w, |w|, k, c);
  }

  // Column after column: its scale, and its quantised values.
  method ScaleChannels(w: seq<seq<real>>, N: nat) returns (scales: array<real>, quantized: array2<int>)
    requires |w| > 0 && IsMatrix(w, |w|, N)
    ensures fresh(scales) && scales.Length == N && forall c :: 0 <= c < N ==> scales[c] == ScaleOf(ChannelMax(w, N, c))
    ensures fresh(quantized) && quantized.Length0 == |w| && quantized.Length1 == N
    ensures forall k, c :: 0 <= k < |w| && 0 <= c < N ==> quantized[k, c] == QuantAt(w, |w|, k, c)
  {
    hide ChannelMax, ScaleOf, QuantOf, MaxFor;
    scales := new real[N](_ => 0.0);
    quantized := new int[|w|, N]((_, _) => 0);
    for c := 0 to N
      invariant forall j :: 0 <= j < c ==> scales[j] == ScaleOf(ChannelMax(w, N, j))
      invariant forall k, j :: 0 <= k < |w| && 0 <= j < c ==> quantized[k, j] == QuantAt(w, |w|, k, j)
    {
      forall k | 0 <= k < |w| ensures MaxFor(w, |w|, k, c) == ChannelMax(w, N, c) {
        OneBlock(w, N, k, c);
      }
      scales[c] := ScaleOf(ChannelMax(w, N, c));
      forall k | 0 <= k < |w| {
        quantized[k, c] := QuantOf(w[k][c], ChannelMax(w, N, c));
      }
    }
  }

  method QuantizeInt4PerChannel(w: seq<seq<real>>, N: nat)
    returns (packed: seq<byte>, scales: array<real>, dequant: array2<real>)
    requires |w| > 0 && IsMatrix(w, |w|, N)
    ensures packed == Pack(FlatQuant(w, |w|, N))
    ensures scales.Length == N && forall c :: 0 <= c < N ==> scales[c] == ScaleOf(ChannelMax(w, N, c))
    ensures dequant.Length0 == |w| && dequant.Length1 == N
    ensures forall k, c :: 0 <= k < |w| && 0 <= c < N ==> dequant[k, c] == DequantAt(w, |w|, k, c)
  {
    hide QuantAt, ScaleOf, Pack, FlatQuant, ChannelMax, MaxFor;
    var quantized;
    scales, quantized := ScaleChannels(w, N);
    packed := PackRows(w, N, |w|, quantized);
    forall k, c | 0 <= k < |w| && 0 <= c < N ensures MaxFor(w, |w|, k, c) == ChannelMax(w, N, c) {
      OneBlock(w, N, k, c);
    }
    dequant := new real[|w|, N]((_, _) => 0.0);
    forall k, c | 0 <= k < |w| && 0 <= c < N {
      dequant[k, c] := quantized[k, c] as real * scales[c];
    }
  }

  method DequantizeInt4PerChannel(packed: seq<byte>, scales: seq<real>, K: nat, N: nat) returns (dequant: array2<real>)
    requires K * N <= 2 * |packed| && |scales| == N
    ensures fresh(dequant) && dequant.Length0 == K && dequant.Length1 == N
    ensures forall k, c :: 0 <= k < K && 0 <= c < N ==>
            dequant[k, c] == At(Unpack(packed), k * N + c) as real * scales[c]
  {
    hide Unpack, At;
    dequant := new real[K, N]((_, _) => 0.0);
    forall k, c | 0 <= k < K && 0 <= c < N {
      dequant[k, c] := At(Unpack(packed), k * N + c) as real * scales[c];
    }
  }

  // ---- the per-channel product ----

  lemma {:induction false} RangeFromStart(wide: bool, a: seq<int>, w: seq<int>, K: nat, N: nat, m: nat, n: nat, j: nat)
    ensures RangeAccumulate(wide, a, w, K, N, m, n, 0, j) == Accumulate(wide, a, w, K, N, m, n, j)
  {
    if j > 0 {
      RangeFromStart(wide, a, w, K, N, m, n, j - 1);
    }
  }

  lemma OneBlockSpan(K: nat)
    requires K > 0
    ensures Blocks(K, K) == 1 && BlockStart(0, K, K) == 0 && BlockStart(1, K, K) == K
  {
    DivMod(1, K - 1, K);
  }

  // Scaling the saturated product of a whole column is the per-block product
  // with one block.
  lemma ChannelIsOneBlock(wide: bool, a: seq<int>, packed: seq<int>, w: seq<seq<real>>, N: nat, m: nat, n: nat)
    requires |w| > 0 && IsMatrix(w, |w|, N) && n < N
    ensures Blocks(|w|, |w|) == 1
    ensures Partial(wide, a, packed, |w|, N, m, n) as real * ScaleOf(ChannelMax(w, N, n))
         == PerBlock(wide, a, packed, ScaleGrid(w, |w|, N), |w|, N, |w|, m, n, 1)
  {
    hide ScaleGrid, ChannelMax, ScaleOf, Partial, PerBlock, BlockStart, Blocks;
    OneBlockSpan(|w|);
    GridOfOneBlock(w, N, n);
    OnePart(wide, a, packed, ScaleGrid(w, |w|, N), |w|, N, m, n);
  }

  lemma GridOfOneBlock(w: seq<seq<real>>, N: nat, n: nat)
    requires |w| > 0 && IsMatrix(w, |w|, N) && n < N
    ensures |ScaleGrid(w, |w|, N)| == 1 && ScaleGrid(w, |w|, N)[0][n] == ScaleOf(ChannelMax(w, N, n))
  {
    hide BlockStart, Blocks, ScaleOf, ColumnMax;
    OneBlockSpan(|w|);
  }

  lemma OnePart(wide: bool, a: seq<int>, w: seq<int>, scales: seq<seq<real>>, K: nat, N: nat, m: nat, n: nat)
    requires K > 0 && |scales| == 1 && n < |scales[0]|
    ensures PerBlock(wide, a, w, scales, K, N, K, m, n, 1) == Partial(wide, a, w, K, N, m, n) as real * scales[0][n]
  {
    hide RangeAccumulate, Accumulate, BlockStart;
    OneBlockSpan(K);
    RangeFromStart(wide, a, w, K, N, m, n, K);
    assert PerBlock(wide, a, w, scales, K, N, K, m, n, 0) == 0.0;
  }

  // The per-channel product of the packed weights is the product with the
  // dequantised matrix, within half a scale per activation of the original.
  lemma ChannelProductBound(wide: bool, a: seq<int>, w: seq<seq<real>>, N: nat, m: nat, n: nat)
    requires 0 < |w| <= EXACT_K && IsMatrix(w, |w|, N) && n < N
    requires forall i :: 0 <= i < |a| ==> IsInt8(a[i])
    ensures var packed := Pack(FlatQuant(w, |w|, N));
            var r := Partial(wide, a, Unpack(packed), |w|, N, m, n) as real * ScaleOf(ChannelMax(w, N, n));
            && r == Sum(DequantTerms(a, w, |w|, N, m, n), 0, |w|)
            && Abs(r - Sum(ExactTerms(a, w, N, m, n), 0, |w|)) <= Sum(ErrorTerms(a, w, |w|, N, m, n), 0, |w|)
            && Abs(r - Sum(ExactTerms(a, w, N, m, n), 0, |w|)) <= Sum(PeakTerms(a, w, |w|, N, m, n), 0, |w|)
  {
    hide Partial, Unpack, Pack, FlatQuant, ScaleOf, ChannelMax, Sum, PerBlock, Abs, ScaleGrid, Blocks;
    ChannelIsOneBlock(wide, a, Unpack(Pack(FlatQuant(w, |w|, N))), w, N, m, n);
    QuantizedProductBound(wide, a, w, |w|, N, m, n);
  }

  method MatmulInt4PerChannel(mxu: MatrixUnit, wide: bool, a: seq<int>, packed: seq<byte>, scales: seq<real>, M: nat,
                              K: nat, N: nat)
    returns (result: array2<real>)
    requires mxu.H > 0 && mxu.W > 0 && |scales| == N
    ensures fresh(result) && result.Length0 == M && result.Length1 == N
    ensures forall m, n :: 0 <= m < M && 0 <= n < N ==>
              result[m, n] == Partial(wide, a, Unpack(packed), K, N, m, n) as real * scales[n]
  {
    hide Partial, Unpack;
    var sums := mxu.MatmulInt32(wide, a, Unpack(packed), M, K, N);
    result := new real[M, N]((_, _) => 0.0);
    forall m, n | 0 <= m < M && 0 <= n < N {
      result[m, n] := sums[m, n] as real * scales[n];
    }
  }
}
