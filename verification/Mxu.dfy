// The matrix unit: tiled INT8 x INT4 products accumulated in 32 bits, proved to
// be exact matrix products for every reduction length up to 2097151.
module Mxu {
  import opened Arithmetic
  import opened Memory
  import opened Int4

  const INT32_MAX: int := 0x7FFF_FFFF
  const INT32_MIN: int := -0x8000_0000
  const TWO32: int := 0x1_0000_0000

  // The longest reduction whose sums always fit: 128 * 8 * K stays below 2^31.
  const EXACT_K: nat := 2097151

  predicate IsInt8(v: int) { -128 <= v <= 127 }
  predicate IsInt32(v: int) { INT32_MIN <= v <= INT32_MAX }

  function ToInt8(b: byte): int {
    if b >= 128 then b - 256 else b
  }

  // Missing elements read as zero: short operands are padded.
  function At(s: seq<int>, i: int): int {
    if 0 <= i < |s| then s[i] else 0
  }

  // The first j terms of row m of A (K columns) times column n of W (N columns).
  function Dot(a: seq<int>, w: seq<int>, K: nat, N: nat, m: nat, n: nat, j: nat): int {
    if j == 0 then 0 else
    Dot(a, w, K, N, m, n, j - 1) + At(a, m * K + (j - 1)) * At(w, (j - 1) * N + n)
  }

  function Wrap32(x: int): int {
    (x - INT32_MIN) % TWO32 + INT32_MIN
  }

  // The accumulator of the dot product. `wide` says whether the array library
  // accumulates int32 operands in 64 bits or wraps at 32; the source counts on
  // the former, and the results below hold for both.
  function Accumulate(wide: bool, a: seq<int>, w: seq<int>, K: nat, N: nat, m: nat, n: nat, j: nat): int {
    if j == 0 then 0 else
    var sum := Accumulate(wide, a, w, K, N, m, n, j - 1) + At(a, m * K + (j - 1)) * At(w, (j - 1) * N + n);
    if wide then sum else Wrap32(sum)
  }

  function Clip(x: int, lo: int, hi: int): int {
    if x < lo then lo else if x > hi then hi else x
  }

  function Partial(wide: bool, a: seq<int>, w: seq<int>, K: nat, N: nat, m: nat, n: nat): (r: int)
    ensures IsInt32(r)
  {
    Clip(Accumulate(wide, a, w, K, N, m, n, K), INT32_MIN, INT32_MAX)
  }

  ghost predicate Operands(a: seq<int>, w: seq<int>) {
    (forall i :: 0 <= i < |a| ==> IsInt8(a[i])) && (forall i :: 0 <= i < |w| ==> IsInt4(w[i]))
  }

  lemma TermBound(x: int, y: int)
    requires IsInt8(x) && IsInt4(y)
    ensures -1024 <= x * y <= 1024
  {
    if y >= 0 {
      MulMono(-128, x, y);
      MulMono(x, 127, y);
    } else {
      MulMono(-128, x, -y);
      MulMono(x, 127, -y);
    }
  }

  lemma {:induction false} AccumulateIsDot(wide: bool, a: seq<int>, w: seq<int>, K: nat, N: nat, m: nat, n: nat, j: nat)
    requires Operands(a, w) && j <= EXACT_K
    ensures Accumulate(wide, a, w, K, N, m, n, j) == Dot(a, w, K, N, m, n, j)
    ensures -1024 * j <= Dot(a, w, K, N, m, n, j) <= 1024 * j
  {
    if j > 0 {
      AccumulateIsDot(wide, a, w, K, N, m, n, j - 1);
      TermBound(At(a, m * K + (j - 1)), At(w, (j - 1) * N + n));
    }
  }

  // Saturation never fires, and no partial sum wraps, for K up to 2097151.
  lemma PartialIsExact(wide: bool, a: seq<int>, w: seq<int>, K: nat, N: nat, m: nat, n: nat)
    requires Operands(a, w) && K <= EXACT_K
    ensures Partial(wide, a, w, K, N, m, n) == Dot(a, w, K, N, m, n, K)
  {
    AccumulateIsDot(wide, a, w, K, N, m, n, K);
  }

  lemma {:induction false} ExtremeDot(K: nat, j: nat)
    requires j <= K
    ensures Dot(seq(K, _ => -128), seq(K, _ => -8), K, 1, 0, 0, j) == 1024 * j
  {
    if j > 0 {
      ExtremeDot(K, j - 1);
    }
  }

  // And exactly up to there: one step further the all-minimum operands sum to 2^31.
  lemma ExactUpToLimit(wide: bool, K: nat)
    ensures (forall a, w :: Operands(a, w) ==> Partial(wide, a, w, K, 1, 0, 0) == Dot(a, w, K, 1, 0, 0, K)) <==>
            K <= EXACT_K
  {
    if K <= EXACT_K {
      forall a, w | Operands(a, w) ensures Partial(wide, a, w, K, 1, 0, 0) == Dot(a, w, K, 1, 0, 0, K) {
        PartialIsExact(wide, a, w, K, 1, 0, 0);
      }
    } else {
      var a, w := seq(K, _ => -128), seq(K, _ => -8);
      ExtremeDot(K, K);
      assert Operands(a, w) && Dot(a, w, K, 1, 0, 0, K) > INT32_MAX;
    }
  }

  class MatrixUnit {
    const H: nat
    const W: nat

    constructor (h: nat, w: nat)
      requires h > 0 && w > 0
      ensures H == h && W == w
    {
      H, W := h, w;
    }

    // Tiles of H x W, each a dot product over the whole of K, saturated.
    method MatmulInt32(wide: bool, a: seq<int>, w: seq<int>, M: nat, K: nat, N: nat) returns (result: array2<int>)
      requires H > 0 && W > 0
      ensures fresh(result) && result.Length0 == M && result.Length1 == N
      ensures forall m, n :: 0 <= m < M && 0 <= n < N ==> result[m, n] == Partial(wide, a, w, K, N, m, n)
    {
      result := new int[M, N]((_, _) => 0);
      var mStart := 0;
      while mStart < M
        invariant forall m, n :: 0 <= m < M && m < mStart && 0 <= n < N ==>
                  result[m, n] == Partial(wide, a, w, K, N, m, n)
      {
        var mEnd := Min(mStart + H, M);
        var nStart := 0;
        while nStart < N
          invariant forall m, n :: 0 <= m < M && m < mStart && 0 <= n < N ==>
                    result[m, n] == Partial(wide, a, w, K, N, m, n)
          invariant forall m, n :: mStart <= m < mEnd && 0 <= n < N && n < nStart ==>
                    result[m, n] == Partial(wide, a, w, K, N, m, n)
        {
          var nEnd := Min(nStart + W, N);
          forall m, n | mStart <= m < mEnd && nStart <= n < nEnd {
            result[m, n] := Partial(wide, a, w, K, N, m, n);
          }
          nStart := nStart + W;
        }
        mStart := mStart + H;
      }
    }
  }

  lemma {:induction false} WideIsDot(a: seq<int>, w: seq<int>, K: nat, N: nat, m: nat, n: nat, j: nat)
    ensures Accumulate(true, a, w, K, N, m, n, j) == Dot(a, w, K, N, m, n, j)
  {
    if j > 0 {
      WideIsDot(a, w, K, N, m, n, j - 1);
    }
  }

  // A 64-bit accumulation ends in the nearest 32-bit number, for any operands and length.
  lemma WideSaturates(a: seq<int>, w: seq<int>, K: nat, N: nat, m: nat, n: nat)
    ensures var sum := Dot(a, w, K, N, m, n, K);
            Partial(true, a, w, K, N, m, n) ==
            if sum < -2147483648 then -2147483648 else if sum > 2147483647 then 2147483647 else sum
  {
    WideIsDot(a, w, K, N, m, n, K);
  }

  // A 32-bit one ends in the number that differs from the sum by multiples of 2^32.
  lemma {:induction false} NarrowWraps(a: seq<int>, w: seq<int>, K: nat, N: nat, m: nat, n: nat, j: nat)
    ensures var r := Accumulate(false, a, w, K, N, m, n, j);
            -2147483648 <= r <= 2147483647 && (Dot(a, w, K, N, m, n, j) - r) % 4294967296 == 0
    ensures j == K ==> Partial(false, a, w, K, N, m, n) == Accumulate(false, a, w, K, N, m, n, j)
  {
    if j > 0 {
      NarrowWraps(a, w, K, N, m, n, j - 1);
      var before := Accumulate(false, a, w, K, N, m, n, j - 1);
      var term := At(a, m * K + (j - 1)) * At(w, (j - 1) * N + n);
      WrapsBy(before + term);
      hide Wrap32, At;
      MultiplesAdd(Dot(a, w, K, N, m, n, j - 1) - before, before + term - Wrap32(before + term));
    }
  }

  lemma WrapsBy(x: int)
    ensures -2147483648 <= Wrap32(x) <= 2147483647 && (x - Wrap32(x)) % 4294967296 == 0
  {
  }

  lemma MultiplesAdd(x: int, y: int)
    requires x % 4294967296 == 0 && y % 4294967296 == 0
    ensures (x + y) % 4294967296 == 0
  {
  }
}
