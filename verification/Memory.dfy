// Byte memories: slices as Python takes them, splicing a block into a memory,
// and little-endian words.
module Memory {
  type byte = x: int | 0 <= x < 256

  const SRAM_SIZE: nat := 4 * 1024 * 1024

  function Min(a: int, b: int): int {
    if a < b then a else b
  }

  // mem[a : a + n]: bounds past the end are cut off, not an error.
  function Slice(mem: seq<byte>, a: nat, n: nat): (r: seq<byte>)
    ensures a + n <= |mem| ==> r == mem[a..a + n]
    ensures |r| <= n
  {
    mem[Min(a, |mem|)..Min(a + n, |mem|)]
  }

  function Splice(mem: seq<byte>, a: nat, data: seq<byte>): (r: seq<byte>)
    requires a + |data| <= |mem|
    ensures |r| == |mem|
    ensures forall i :: 0 <= i < |mem| ==> r[i] == if a <= i < a + |data| then data[i - a] else mem[i]
  {
    mem[..a] + data + mem[a + |data|..]
  }

  // Two blocks written end to end are one block.
  lemma SpliceJoins(mem: seq<byte>, a: nat, x: seq<byte>, y: seq<byte>)
    requires a + |x| + |y| <= |mem|
    ensures Splice(Splice(mem, a, x), a + |x|, y) == Splice(mem, a, x + y)
  {
  }

  function LittleEndian(n: nat, len: nat): (r: seq<byte>)
    ensures |r| == len
  {
    if len == 0 then [] else [n % 256] + LittleEndian(n / 256, len - 1)
  }

  function FromBytes(b: seq<byte>): nat {
    if b == [] then 0 else b[0] + 256 * FromBytes(b[1..])
  }

  function Pow256(k: nat): nat {
    if k == 0 then 1 else 256 * Pow256(k - 1)
  }

  lemma {:induction false} LittleEndianRoundTrip(n: nat, len: nat)
    requires n < Pow256(len)
    ensures FromBytes(LittleEndian(n, len)) == n
  {
    if len > 0 {
      LittleEndianRoundTrip(n / 256, len - 1);
      assert LittleEndian(n, len)[1..] == LittleEndian(n / 256, len - 1);
    }
  }

  lemma {:induction false} FromBytesRoundTrip(b: seq<byte>)
    ensures FromBytes(b) < Pow256(|b|)
    ensures LittleEndian(FromBytes(b), |b|) == b
  {
    if b != [] {
      FromBytesRoundTrip(b[1..]);
      var n := FromBytes(b[1..]);
      assert (b[0] + 256 * n) % 256 == b[0] && (b[0] + 256 * n) / 256 == n;
      assert LittleEndian(FromBytes(b), |b|) == [b[0]] + LittleEndian(n, |b| - 1);
      assert b == [b[0]] + b[1..];
    }
  }
}
