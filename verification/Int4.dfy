// INT4 weights, two to a byte: low nibble first, two's complement.
module Int4 {
  import opened Memory

  predicate IsInt4(v: int) { -8 <= v <= 7 }

  function SignExtend(nibble: int): int {
    if nibble > 7 then nibble - 16 else nibble
  }

  function Unpack(packed: seq<byte>): (r: seq<int>)
    ensures |r| == 2 * |packed|
    ensures forall i :: 0 <= i < |r| ==> IsInt4(r[i])
  {
    seq(2 * |packed|, i requires 0 <= i < 2 * |packed| =>
      SignExtend(if i % 2 == 0 then packed[i / 2] % 16 else packed[i / 2] / 16))
  }

  // The nibble of any int8 value: only its low four bits survive.
  function Nibble(v: int): (n: int)
    ensures 0 <= n < 16
  {
    ((if v < 0 then v + 16 else v) % 256) % 16
  }

  function Padded(values: seq<int>): seq<int> {
    if |values| % 2 == 0 then values else values + [0]
  }

  function Pack(values: seq<int>): (r: seq<byte>)
    ensures |r| == (|values| + 1) / 2
  {
    var v := Padded(values);
    seq(|v| / 2, i requires 0 <= i < |v| / 2 => (Nibble(v[2 * i]) + 16 * Nibble(v[2 * i + 1])) as byte)
  }

  lemma NibbleRoundTrip(v: int)
    ensures SignExtend(Nibble(v)) == v <==> IsInt4(v)
  {
  }

  lemma PackedNibble(values: seq<int>, i: nat)
    requires i < |Padded(values)|
    ensures |Unpack(Pack(values))| == |Padded(values)|
    ensures Unpack(Pack(values))[i] == SignExtend(Nibble(Padded(values)[i]))
  {
    hide Nibble, SignExtend;
    var v := Padded(values);
    assert i == 2 * (i / 2) + i % 2;
    NibblePair(Nibble(v[2 * (i / 2)]), Nibble(v[2 * (i / 2) + 1]));
  }

  lemma NibblePair(low: int, high: int)
    requires 0 <= low < 16 && 0 <= high < 16
    ensures (low + 16 * high) % 16 == low && (low + 16 * high) / 16 == high
  {
  }

  // Unpacking gives the packed values back, up to the padding, exactly when
  // every one of them fits in four bits.
  lemma UnpackPack(values: seq<int>)
    ensures Unpack(Pack(values)) == Padded(values) <==> forall i :: 0 <= i < |values| ==> IsInt4(values[i])
  {
    var v := Padded(values);
    var u := Unpack(Pack(values));
    assert |u| == |v|;
    forall i | 0 <= i < |v|
      ensures u[i] == v[i] <==> IsInt4(v[i])
    {
      PackedNibble(values, i);
      NibbleRoundTrip(v[i]);
    }
    hide Pack, Unpack;
    assert forall i :: 0 <= i < |values| ==> v[i] == values[i];
    assert u == v <==> forall i :: 0 <= i < |v| ==> u[i] == v[i];
  }

  lemma NibbleOf(half: int)
    requires 0 <= half < 16
    ensures Nibble(SignExtend(half)) == half
  {
  }

  // Every byte string is the packing of what it unpacks to.
  lemma PackUnpack(packed: seq<byte>)
    ensures Pack(Unpack(packed)) == packed
  {
    var v := Unpack(packed);
    assert Padded(v) == v;
    hide Nibble, SignExtend;
    forall i | 0 <= i < |packed|
      ensures Pack(v)[i] == packed[i]
    {
      assert v[2 * i] == SignExtend(packed[i] % 16) && v[2 * i + 1] == SignExtend(packed[i] / 16);
      NibbleOf(packed[i] % 16);
      NibbleOf(packed[i] / 16);
    }
  }
}
