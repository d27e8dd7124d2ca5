// DMA descriptors: the 64-bit word format and the builder that splits a weight
// load into a chain of them.
module DmaDescriptors {
  import opened Arithmetic
  import opened Memory

  const TWO16: int := 0x1_0000
  const TWO32: int := 0x1_0000_0000
  const TWO64: int := 0x1_0000_0000_0000_0000

  datatype Descriptor = Descriptor(
    dramAddr: int, sramAddr: int, size: int, direction: int, last: bool, channel: int)
  {
    // The checks made on construction.
    predicate Accepted() {
      && 0 <= direction <= 1
      && 0 <= channel <= 3
      && (0 <= size <= 4095 || size == 4096)
      && 0 <= sramAddr < TWO16
      && 0 <= dramAddr < TWO32
    }

    function ActualSize(): int {
      if size == 0 then 4096 else size
    }

    // The size field has no room for 4096 and writes it as 0.
    function Normal(): Descriptor {
      this.(size := if size == 4096 then 0 else size)
    }
  }

  function Encode(d: Descriptor): int {
    (d.dramAddr % TWO32) * TWO32 + (d.sramAddr % TWO16) * TWO16
      + (d.Normal().size % 4096) * 16 + (d.direction % 2) * 8 + (if d.last then 4 else 0) + d.channel % 4
  }

  function Decode(word: int): Descriptor {
    Descriptor((word / TWO32) % TWO32, (word / TWO16) % TWO16, (word / 16) % 4096,
               (word / 8) % 2, (word / 4) % 2 == 1, word % 4)
  }

  // The original joins the fields with shifts and bitwise or; their bit ranges
  // do not overlap, so the word is their sum.
  lemma FieldsDoNotOverlap(dram: bv64, sram: bv64, size: bv64, direction: bv64, last: bv64, channel: bv64)
    ensures ((dram & 0xFFFFFFFF) << 32) | ((sram & 0xFFFF) << 16) | ((size & 0xFFF) << 4)
              | ((direction & 1) << 3) | ((last & 1) << 2) | (channel & 3)
         == ((dram & 0xFFFFFFFF) << 32) + ((sram & 0xFFFF) << 16) + ((size & 0xFFF) << 4)
              + ((direction & 1) << 3) + ((last & 1) << 2) + (channel & 3)
  {
  }

  // Reading back a value built up as q * a + r, a field at a time.
  lemma Field(w: int, a: int, b: int, q: int, r: int)
    requires a > 0 && 0 <= r < b && w / a == q * b + r
    ensures w / (a * b) == q && (w / a) % b == r
  {
    DivDiv(w, a, b);
    DivMod(q, r, b);
  }

  lemma FieldsReadBack(dram: int, sram: int, size: int, direction: int, last: int, channel: int)
    requires 0 <= sram < TWO16 && 0 <= size < 4096 && 0 <= direction < 2 && 0 <= last < 2 && 0 <= channel < 4
    ensures var w := ((((dram * TWO16 + sram) * 4096 + size) * 2 + direction) * 2 + last) * 4 + channel;
            && w / TWO32 == dram && (w / TWO16) % TWO16 == sram && (w / 16) % 4096 == size
            && (w / 8) % 2 == direction && (w / 4) % 2 == last && w % 4 == channel
  {
    var addrs := dram * TWO16 + sram;
    var upTo4 := addrs * 4096 + size;
    var upTo3 := upTo4 * 2 + direction;
    var upTo2 := upTo3 * 2 + last;
    var w := upTo2 * 4 + channel;
    assert w / 4 == upTo2 && w % 4 == channel by { DivMod(upTo2, channel, 4); }
    assert w / 8 == upTo3 && (w / 4) % 2 == last by { Field(w, 4, 2, upTo3, last); }
    assert w / 16 == upTo4 && (w / 8) % 2 == direction by { Field(w, 8, 2, upTo4, direction); }
    assert w / TWO16 == addrs && (w / 16) % 4096 == size by { Field(w, 16, 4096, addrs, size); }
    assert w / TWO32 == dram && (w / TWO16) % TWO16 == sram by { Field(w, TWO16, TWO16, dram, sram); }
  }

  // The word in nested form, field by field from the top.
  function Nested(d: Descriptor): int {
    ((((d.dramAddr * TWO16 + d.sramAddr) * 4096 + d.size) * 2 + d.direction) * 2 + (if d.last then 1 else 0)) * 4
      + d.channel
  }

  lemma DecodeNested(d: Descriptor)
    requires d.Accepted() && d.size < 4096
    ensures Decode(Nested(d)) == d
  {
    FieldsReadBack(d.dramAddr, d.sramAddr, d.size, d.direction, if d.last then 1 else 0, d.channel);
    var w := Nested(d);
    assert (w / TWO32) % TWO32 == d.dramAddr;
  }

  lemma DecodeEncode(d: Descriptor)
    requires d.Accepted()
    ensures Decode(Encode(d)) == d.Normal()
    ensures d.Normal().ActualSize() == d.ActualSize()
    ensures 0 <= Encode(d) < TWO64
  {
    assert Encode(d) == Nested(d.Normal());
    DecodeNested(d.Normal());
  }

  // The documented layout, field by field, for every acceptable descriptor.
  lemma EncodeLayout(d: Descriptor)
    requires d.Accepted()
    ensures var w := Encode(d);
            && w / TWO32 == d.dramAddr && (w / TWO16) % TWO16 == d.sramAddr
            && (w / 16) % 4096 == (if d.size == 4096 then 0 else d.size)
            && (w / 8) % 2 == d.direction && (w / 4) % 2 == (if d.last then 1 else 0) && w % 4 == d.channel
  {
    var n := d.Normal();
    assert Encode(d) == Nested(n);
    FieldsReadBack(n.dramAddr, n.sramAddr, n.size, n.direction, if n.last then 1 else 0, n.channel);
  }

  // Every 64-bit word is the encoding of the descriptor it decodes to, so the
  // codec is a bijection between words and descriptors with a size below 4096.
  lemma EncodeDecode(word: int)
    requires 0 <= word < TWO64
    ensures Decode(word).Accepted() && Decode(word).size < 4096
    ensures Encode(Decode(word)) == word
  {
    DivDiv(word, 4, 2);
    DivDiv(word, 8, 2);
    DivDiv(word, 16, 4096);
    DivDiv(word, TWO16, TWO16);
    var d := Decode(word);
    assert word == (word / 4) * 4 + d.channel;
    assert word / 4 == (word / 8) * 2 + if d.last then 1 else 0;
    assert word / 8 == (word / 16) * 2 + d.direction;
    assert word / 16 == (word / TWO16) * 4096 + d.size;
    assert word / TWO16 == (word / TWO32) * TWO16 + d.sramAddr;
    assert word / TWO32 == d.dramAddr;
  }

  // ---- the chain builder ----

  // For a positive chunk size.
  function Chain(sramBase: int, dramBase: int, total: int, chunk: int): seq<Descriptor>
    requires chunk >= 1
    decreases if total > 0 then total else 0
  {
    if total <= 0 then [] else
    [Descriptor(dramBase, sramBase, Min(chunk, total), 0, total <= chunk, 0)]
      + Chain(sramBase + chunk, dramBase + chunk, total - chunk, chunk)
  }

  // Where the last chunk starts.
  function LastOffset(total: int, chunk: int): int
    requires chunk >= 1
    decreases if total > 0 then total else 0
  {
    if total <= chunk then 0 else chunk + LastOffset(total - chunk, chunk)
  }

  datatype Built = Descriptors(chain: seq<Descriptor>) | ValueError | Endless

  ghost predicate BuiltSoFar(sramBase: int, dramBase: int, total: int, chunk: int,
                             descriptors: seq<Descriptor>, offset: int, left: int)
  {
    && (chunk <= 0 || total <= 0 ==> offset == 0 && left == total && descriptors == [])
    && (chunk >= 1 ==> Chain(sramBase, dramBase, total, chunk)
                       == descriptors + Chain(sramBase + offset, dramBase + offset, left, chunk))
    && (forall d :: d in descriptors ==> d.Accepted())
  }

  lemma OneMore(sramBase: int, dramBase: int, total: int, chunk: int,
                descriptors: seq<Descriptor>, offset: int, left: int, d: Descriptor)
    requires BuiltSoFar(sramBase, dramBase, total, chunk, descriptors, offset, left)
    requires total > 0 && chunk >= 1 && left > 0 && d.Accepted()
    requires d == Descriptor(dramBase + offset, sramBase + offset, Min(chunk, left), 0, left <= chunk, 0)
    ensures BuiltSoFar(sramBase, dramBase, total, chunk,
                       descriptors + [d], offset + Min(chunk, left), left - Min(chunk, left))
  {
    hide Descriptor.Accepted;
    var rest := Chain(sramBase + offset, dramBase + offset, left, chunk);
    var more := Chain(sramBase + offset + chunk, dramBase + offset + chunk, left - chunk, chunk);
    assert rest == [d] + more;
    assert descriptors + rest == descriptors + [d] + more;
  }

  lemma RefusedHere(sramBase: int, dramBase: int, total: int, chunk: int,
                    descriptors: seq<Descriptor>, offset: int, left: int, d: Descriptor)
    requires BuiltSoFar(sramBase, dramBase, total, chunk, descriptors, offset, left) && left > 0
    requires d == Descriptor(dramBase + offset, sramBase + offset, Min(chunk, left), 0, left <= chunk, 0)
    ensures chunk >= 1 ==> d in Chain(sramBase, dramBase, total, chunk)
  {
    if chunk >= 1 {
      assert Chain(sramBase + offset, dramBase + offset, left, chunk)[0] == d;
      assert Chain(sramBase, dramBase, total, chunk)[|descriptors|] == d;
    }
  }

  // A chunk size of 0 never makes progress; a negative one is refused as a size.
  method BuildWeightLoadChain(sramBase: int, dramBase: int, total: int, chunk: int) returns (r: Built)
    ensures total <= 0 ==> r == Descriptors([])
    ensures total > 0 && chunk >= 1 ==>
              r == if (forall d :: d in Chain(sramBase, dramBase, total, chunk) ==> d.Accepted())
                   then Descriptors(Chain(sramBase, dramBase, total, chunk)) else ValueError
    ensures total > 0 && chunk < 0 ==> r == ValueError
    ensures total > 0 && chunk == 0 ==>
              r == if 0 <= sramBase < TWO16 && 0 <= dramBase < TWO32 then Endless else ValueError
  {
    var descriptors := [];
    var left := total;
    var offset := 0;
    while left > 0
      invariant BuiltSoFar(sramBase, dramBase, total, chunk, descriptors, offset, left)
      decreases left
    {
      var size := Min(chunk, left);
      var d := Descriptor(dramBase + offset, sramBase + offset, size, 0, left <= chunk, 0);
      if !d.Accepted() {
        RefusedHere(sramBase, dramBase, total, chunk, descriptors, offset, left, d);
        return ValueError;
      }
      if size == 0 {
        return Endless;
      }
      OneMore(sramBase, dramBase, total, chunk, descriptors, offset, left, d);
      descriptors := descriptors + [d];
      offset := offset + size;
      left := left - size;
    }
    return Descriptors(descriptors);
  }

  // When the builder succeeds: exactly when no chunk is over 4096 bytes and the
  // first and the last chunk start inside the 16-bit and 32-bit address fields.
  lemma {:induction false} ChainAcceptedExactly(sramBase: int, dramBase: int, total: int, chunk: int)
    requires total > 0 && chunk >= 1
    ensures (forall d :: d in Chain(sramBase, dramBase, total, chunk) ==> d.Accepted()) <==>
              && Min(chunk, total) <= 4096
              && 0 <= sramBase && sramBase + LastOffset(total, chunk) < TWO16
              && 0 <= dramBase && dramBase + LastOffset(total, chunk) < TWO32
    ensures LastOffset(total, chunk) >= 0
    decreases total
  {
    var c := Chain(sramBase, dramBase, total, chunk);
    assert c[0] in c;
    if total > chunk {
      var rest := Chain(sramBase + chunk, dramBase + chunk, total - chunk, chunk);
      assert c == [c[0]] + rest;
      ChainAcceptedExactly(sramBase + chunk, dramBase + chunk, total - chunk, chunk);
      assert (forall d :: d in c ==> d.Accepted()) <==> c[0].Accepted() && (forall d :: d in rest ==> d.Accepted());
      assert rest[0] in rest;
    } else {
      assert c == [c[0]] && c[0].size == total;
      assert (forall d :: d in c ==> d.Accepted()) <==> c[0].Accepted();
    }
  }

  lemma {:induction false} LastOffsetClosed(total: int, chunk: int)
    requires total > 0 && chunk >= 1
    ensures LastOffset(total, chunk) == ((total - 1) / chunk) * chunk
    ensures LastOffset(total, chunk) < total <= LastOffset(total, chunk) + chunk
    decreases total
  {
    var q := (total - 1) / chunk;
    if total > chunk {
      LastOffsetClosed(total - chunk, chunk);
      DivMod(q - 1, (total - 1) % chunk, chunk);
      assert (q - 1) * chunk == q * chunk - chunk;
      assert (total - chunk - 1) == (q - 1) * chunk + (total - 1) % chunk;
    } else {
      DivMod(0, total - 1, chunk);
    }
  }

  // Only the last descriptor carries the last flag, and the sizes add up.
  lemma {:induction false} ChainShape(sramBase: int, dramBase: int, total: int, chunk: int)
    requires total > 0 && chunk >= 1
    ensures var c := Chain(sramBase, dramBase, total, chunk);
            && |c| > 0 && c[|c| - 1].last && (forall i :: 0 <= i < |c| - 1 ==> !c[i].last)
            && TotalSize(c) == total
    decreases total
  {
    var c := Chain(sramBase, dramBase, total, chunk);
    if total > chunk {
      var rest := Chain(sramBase + chunk, dramBase + chunk, total - chunk, chunk);
      ChainShape(sramBase + chunk, dramBase + chunk, total - chunk, chunk);
      assert c == [c[0]] + rest && c[1..] == rest;
    } else {
      assert Chain(sramBase + chunk, dramBase + chunk, total - chunk, chunk) == [];
      assert c[1..] == [];
    }
  }

  function TotalSize(c: seq<Descriptor>): int {
    if c == [] then 0 else c[0].size + TotalSize(c[1..])
  }

  // Every descriptor of the chain: chunk after chunk on both sides, the last one
  // shorter and flagged, all loads on channel 0.
  lemma {:induction false} ChainAt(sramBase: int, dramBase: int, total: int, chunk: int, i: nat)
    requires chunk >= 1 && i < |Chain(sramBase, dramBase, total, chunk)|
    ensures var c := Chain(sramBase, dramBase, total, chunk);
            c[i] == Descriptor(dramBase + i * chunk, sramBase + i * chunk, Min(chunk, total - i * chunk), 0,
                               i == |c| - 1, 0)
    decreases total
  {
    var rest := Chain(sramBase + chunk, dramBase + chunk, total - chunk, chunk);
    if i > 0 {
      ChainAt(sramBase + chunk, dramBase + chunk, total - chunk, chunk, i - 1);
      assert i * chunk == (i - 1) * chunk + chunk;
    } else {
      assert 0 * chunk == 0;
    }
  }
}
