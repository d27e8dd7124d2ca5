// The MMUL instruction over the SRAM: int8 activations and packed int4 weights
// are read from it, and the int32 product is written back little-endian.
module Mmul {
  import opened Arithmetic
  import opened Memory
  import opened Int4
  import opened Mxu
  import opened NpuMemory

  function Int32Bytes(x: int): (r: seq<byte>)
    ensures |r| == 4
  {
    LittleEndian(x % TWO32, 4)
  }

  function Int32Of(b: seq<byte>): int {
    if FromBytes(b) > INT32_MAX then FromBytes(b) - TWO32 else FromBytes(b)
  }

  lemma Int32RoundTrip(x: int)
    requires IsInt32(x)
    ensures Int32Of(Int32Bytes(x)) == x
  {
    assert Pow256(4) == TWO32;
    LittleEndianRoundTrip(x % TWO32, 4);
  }

  // An int32 array as bytes.
  function Block(v: seq<int>): (r: seq<byte>)
    ensures |r| == 4 * |v|
  {
    seq(4 * |v|, i requires 0 <= i < 4 * |v| => Int32Bytes(v[i / 4])[i % 4])
  }

  function ReadInt32(mem: seq<byte>, addr: nat, count: nat): (r: seq<int>)
    requires addr + 4 * count <= |mem|
    ensures |r| == count
  {
    seq(count, i requires 0 <= i < count => Int32Of(mem[addr + 4 * i..addr + 4 * i + 4]))
  }

  lemma BlockReadsBack(mem: seq<byte>, addr: nat, v: seq<int>)
    requires addr + 4 * |v| <= |mem| && forall i :: 0 <= i < |v| ==> IsInt32(v[i])
    ensures ReadInt32(Splice(mem, addr, Block(v)), addr, |v|) == v
  {
    var out := Splice(mem, addr, Block(v));
    forall i | 0 <= i < |v|
      ensures ReadInt32(out, addr, |v|)[i] == v[i]
    {
      var from := addr + 4 * i;
      forall j | 0 <= j < 4 ensures out[from..from + 4][j] == Int32Bytes(v[i])[j] {
        assert (4 * i + j) / 4 == i && (4 * i + j) % 4 == j;
      }
      assert out[from..from + 4] == Int32Bytes(v[i]);
      Int32RoundTrip(v[i]);
    }
  }

  function Activations(mem: seq<byte>, ia: nat, count: nat): (r: seq<int>)
    ensures forall i :: 0 <= i < |r| ==> IsInt8(r[i])
  {
    var b := Slice(mem, ia, count);
    seq(|b|, i requires 0 <= i < |b| => ToInt8(b[i]))
  }

  function Weights(mem: seq<byte>, wa: nat, count: nat): (r: seq<int>)
    ensures forall i :: 0 <= i < |r| ==> IsInt4(r[i])
  {
    Unpack(Slice(mem, wa, (count + 1) / 2))
  }

  lemma RowColumn(i: nat, M: nat, N: nat)
    requires i < M * N
    ensures N > 0 && 0 <= i / N < M && i % N < N && i == (i / N) * N + i % N
  {
    assert i / N * N == i - i % N;
    MulCancel(i / N, M, N);
  }

  lemma RowMajor(m: nat, n: nat, M: nat, N: nat)
    requires m < M && n < N
    ensures m * N + n < M * N && (m * N + n) / N == m && (m * N + n) % N == n
    ensures 0 <= m * N + n
  {
    MulGap(m, M, N);
    MulSign(m, N);
    DivMod(m, n, N);
  }

  // The product, row by row.
  function Product(wide: bool, a: seq<int>, w: seq<int>, M: nat, K: nat, N: nat): (r: seq<int>)
    ensures |r| == M * N && forall i :: 0 <= i < |r| ==> IsInt32(r[i])
  {
    MulSign(M, N);
    seq(M * N, i requires 0 <= i < M * N => (RowColumn(i, M, N); Partial(wide, a, w, K, N, i / N, i % N)))
  }

  datatype Stepped = Next(mem: seq<byte>) | ShapeError | WriteOverflow

  // Too few activation bytes fail the reshape; missing weight bytes read as zero.
  function MmulStep(wide: bool, mem: seq<byte>, M: nat, K: nat, N: nat, ia: nat, wa: nat, oa: nat): Stepped {
    MulSign(M, K);
    MulSign(K, N);
    if |Slice(mem, ia, M * K)| != M * K then ShapeError else
    var r := Product(wide, Activations(mem, ia, M * K), Weights(mem, wa, K * N), M, K, N);
    if oa + 4 * |r| > |mem| then WriteOverflow else Next(Splice(mem, oa, Block(r)))
  }

  method Flatten(result: array2<int>) returns (v: seq<int>)
    ensures var M, N := result.Length0, result.Length1;
            |v| == M * N && forall i :: 0 <= i < M * N ==> 0 < N && 0 <= i / N < M && v[i] == result[i / N, i % N]
  {
    var M, N := result.Length0, result.Length1;
    MulSign(M, N);
    v := seq(M * N, i requires 0 <= i < M * N reads result => (RowColumn(i, M, N); result[i / N, i % N]));
    forall i | 0 <= i < M * N ensures 0 < N && 0 <= i / N < M && v[i] == result[i / N, i % N] {
      RowColumn(i, M, N);
    }
  }

  // The instruction on the SRAM object. On an error nothing is written.
  method Execute(unit: MatrixUnit, wide: bool, sram: Sram, M: nat, K: nat, N: nat, ia: nat, wa: nat, oa: nat)
    returns (ok: bool)
    requires sram.Valid() && unit.H > 0 && unit.W > 0
    modifies sram.data
    ensures match MmulStep(wide, old(sram.data[..]), M, K, N, ia, wa, oa)
            case Next(mem) => ok && sram.data[..] == mem
            case _ => !ok && sram.data[..] == old(sram.data[..])
  {
    ghost var mem := sram.data[..];
    MulSign(M, K);
    MulSign(K, N);
    var act := SliceOf(sram, ia, M * K);
    if |act| != M * K {
      return false;
    }
    var a := seq(|act|, i requires 0 <= i < |act| => ToInt8(act[i]));
    var packed := SliceOf(sram, wa, (K * N + 1) / 2);
    var w := Unpack(packed);
    assert a == Activations(mem, ia, M * K) && w == Weights(mem, wa, K * N);
    var flat := FlatProduct(unit, wide, a, w, M, K, N);
    hide Product, Unpack, Block;
    assert sram.data[..] == mem;
    ok := sram.WriteBytes(oa, Block(flat));
  }

  // The product row by row.
  method FlatProduct(unit: MatrixUnit, wide: bool, a: seq<int>, w: seq<int>, M: nat, K: nat, N: nat)
    returns (flat: seq<int>)
    requires unit.H > 0 && unit.W > 0
    ensures flat == Product(wide, a, w, M, K, N)
  {
    MulSign(M, N);
    var result := unit.MatmulInt32(wide, a, w, M, K, N);
    flat := Flatten(result);
    forall i | 0 <= i < M * N ensures flat[i] == Product(wide, a, w, M, K, N)[i] {
      RowColumn(i, M, N);
    }
  }

  method SliceOf(sram: Sram, addr: nat, n: nat) returns (r: seq<byte>)
    ensures r == Slice(sram.data[..], addr, n)
  {
    var lo, hi := Min(addr, sram.data.Length), Min(addr + n, sram.data.Length);
    r := sram.data[lo..hi];
  }

  // ---- what the instruction computes, in terms of memory alone ----

  function Int8At(mem: seq<byte>, addr: nat): int
    requires addr < |mem|
  {
    ToInt8(mem[addr])
  }

  // The i-th nibble of the packed weights at wa.
  function Int4At(mem: seq<byte>, wa: nat, i: nat): int
    requires wa + i / 2 < |mem|
  {
    SignExtend(if i % 2 == 0 then mem[wa + i / 2] % 16 else mem[wa + i / 2] / 16)
  }

  ghost predicate InMemory(mem: seq<byte>, M: nat, K: nat, N: nat, ia: nat, wa: nat) {
    M * K >= 0 && K * N >= 0 && ia + M * K <= |mem| && wa + (K * N + 1) / 2 <= |mem|
  }

  lemma Indices(M: nat, K: nat, N: nat, m: nat, n: nat, k: nat)
    requires m < M && n < N && k < K
    ensures 0 <= m * K + k < M * K && 0 <= k * N + n < K * N
    ensures (k * N + n) / 2 < (K * N + 1) / 2
  {
    RowMajor(m, k, M, K);
    RowMajor(k, n, K, N);
  }

  // The sum over k of A[m,k] * W[k,n], read straight from memory.
  ghost function MemoryDot(mem: seq<byte>, M: nat, K: nat, N: nat, ia: nat, wa: nat, m: nat, n: nat, j: nat): int
    requires InMemory(mem, M, K, N, ia, wa) && m < M && n < N && j <= K
  {
    if j == 0 then 0 else
    Indices(M, K, N, m, n, j - 1);
    MemoryDot(mem, M, K, N, ia, wa, m, n, j - 1)
      + Int8At(mem, ia + m * K + (j - 1)) * Int4At(mem, wa, (j - 1) * N + n)
  }

  lemma ActivationAt(mem: seq<byte>, ia: nat, count: nat, i: nat)
    requires ia + count <= |mem| && i < count
    ensures At(Activations(mem, ia, count), i) == Int8At(mem, ia + i)
  {}

  lemma WeightAt(mem: seq<byte>, wa: nat, count: nat, i: nat)
    requires wa + (count + 1) / 2 <= |mem| && i < count
    ensures At(Weights(mem, wa, count), i) == Int4At(mem, wa, i)
  {
    var packed := Slice(mem, wa, (count + 1) / 2);
    assert packed[i / 2] == mem[wa + i / 2];
  }

  lemma {:induction false} MemoryDotIsDot(mem: seq<byte>, M: nat, K: nat, N: nat, ia: nat, wa: nat, m: nat, n: nat,
                                          j: nat)
    requires InMemory(mem, M, K, N, ia, wa) && m < M && n < N && j <= K
    ensures Dot(Activations(mem, ia, M * K), Weights(mem, wa, K * N), K, N, m, n, j)
         == MemoryDot(mem, M, K, N, ia, wa, m, n, j)
  {
    if j > 0 {
      MemoryDotIsDot(mem, M, K, N, ia, wa, m, n, j - 1);
      Indices(M, K, N, m, n, j - 1);
      ActivationAt(mem, ia, M * K, m * K + (j - 1));
      WeightAt(mem, wa, K * N, (j - 1) * N + n);
    }
  }

  lemma ElementIsExact(wide: bool, mem: seq<byte>, M: nat, K: nat, N: nat, ia: nat, wa: nat, m: nat, n: nat)
    requires K <= EXACT_K && InMemory(mem, M, K, N, ia, wa) && m < M && n < N
    ensures 0 <= m * N + n < M * N
    ensures Product(wide, Activations(mem, ia, M * K), Weights(mem, wa, K * N), M, K, N)[m * N + n]
         == MemoryDot(mem, M, K, N, ia, wa, m, n, K)
  {
    RowMajor(m, n, M, N);
    PartialIsExact(wide, Activations(mem, ia, M * K), Weights(mem, wa, K * N), K, N, m, n);
    MemoryDotIsDot(mem, M, K, N, ia, wa, m, n, K);
  }

  lemma MmulWrites(wide: bool, mem: seq<byte>, M: nat, K: nat, N: nat, ia: nat, wa: nat, oa: nat)
    requires InMemory(mem, M, K, N, ia, wa) && M * N >= 0 && oa + 4 * (M * N) <= |mem|
    ensures var r := MmulStep(wide, mem, M, K, N, ia, wa, oa);
            var p := Product(wide, Activations(mem, ia, M * K), Weights(mem, wa, K * N), M, K, N);
            && r == Next(Splice(mem, oa, Block(p)))
            && ReadInt32(r.mem, oa, M * N) == p
  {
    var p := Product(wide, Activations(mem, ia, M * K), Weights(mem, wa, K * N), M, K, N);
    BlockReadsBack(mem, oa, p);
  }

  // MMUL is the exact matrix product: for every M, N and every K up to 2097151,
  // element (m, n) of the int32 matrix at oa is the sum over k, and no byte
  // outside that matrix changes.
  lemma MmulIsExact(wide: bool, mem: seq<byte>, M: nat, K: nat, N: nat, ia: nat, wa: nat, oa: nat, m: nat, n: nat)
    requires K <= EXACT_K && InMemory(mem, M, K, N, ia, wa) && m < M && n < N
    requires M * N >= 0 && oa + 4 * (M * N) <= |mem|
    ensures var r := MmulStep(wide, mem, M, K, N, ia, wa, oa);
            && r.Next? && |r.mem| == |mem|
            && (forall i :: 0 <= i < |mem| && !(oa <= i < oa + 4 * (M * N)) ==> r.mem[i] == mem[i])
            && 0 <= m * N + n < M * N
            && ReadInt32(r.mem, oa, M * N)[m * N + n] == MemoryDot(mem, M, K, N, ia, wa, m, n, K)
  {
    MmulWrites(wide, mem, M, K, N, ia, wa, oa);
    ElementIsExact(wide, mem, M, K, N, ia, wa, m, n);
  }
}
