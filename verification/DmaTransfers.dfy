// Walking a descriptor chain: the two descriptor instructions as functions on
// memories, and the theorem that a built chain is one block copy.
module DmaTransfers {
  import opened Memory
  import opened DmaDescriptors

  // A chain without a last flag runs off the end of DRAM, where every read is
  // empty and decodes to the same descriptor, which is not the last: unless its
  // transfer is refused, the walk never ends. A refusal leaves the transfers of
  // the descriptors before it done.
  datatype Walked = Done(memory: seq<byte>, count: nat) | Overflow(memory: seq<byte>, count: nat) | RunsOff
  {
    // The same end, n descriptors later.
    function After(n: nat): Walked {
      if RunsOff? then RunsOff else this.(count := count + n)
    }
  }

  function Fetch(dram: seq<byte>, addr: nat): Descriptor {
    Decode(FromBytes(Slice(dram, addr, 8)))
  }

  // DMA_LDD: load each descriptor's bytes into SRAM until one is the last.
  function LoadWalk(sram: seq<byte>, dram: seq<byte>, addr: nat): Walked
    decreases |dram| - addr
  {
    var d := Fetch(dram, addr);
    var data := Slice(dram, d.dramAddr, d.ActualSize());
    if d.sramAddr + |data| > |sram| then Overflow(sram, 0)
    else if addr >= |dram| then RunsOff else
    var s := Splice(sram, d.sramAddr, data);
    if d.last then Done(s, 1) else LoadWalk(s, dram, addr + 8).After(1)
  }

  // A store is refused when SRAM has too few bytes, or when they do not fill the
  // DRAM slice; a single byte fills any slice, an empty one past the end included.
  predicate StoreRefused(sram: seq<byte>, dram: seq<byte>, d: Descriptor) {
    d.sramAddr + d.ActualSize() > |sram| || (d.dramAddr + d.ActualSize() > |dram| && d.ActualSize() != 1)
  }

  function Stored(sram: seq<byte>, dram: seq<byte>, d: Descriptor): (r: seq<byte>)
    requires d.Accepted() && !StoreRefused(sram, dram, d)
    ensures |r| == |dram|
  {
    if d.dramAddr + d.ActualSize() > |dram| then dram
    else Splice(dram, d.dramAddr, Slice(sram, d.sramAddr, d.ActualSize()))
  }

  // DMA_STD: store each descriptor's bytes into DRAM, where the chain itself is.
  function StoreWalk(sram: seq<byte>, dram: seq<byte>, addr: nat): Walked
    decreases |dram| - addr
  {
    var d := Fetch(dram, addr);
    if StoreRefused(sram, dram, d) then Overflow(dram, 0)
    else if addr >= |dram| then RunsOff else
    var m := Stored(sram, dram, d);
    if d.last then Done(m, 1) else StoreWalk(sram, m, addr + 8).After(1)
  }

  // The chain as it lies in DRAM: eight little-endian bytes for each descriptor.
  function ChainBytes(c: seq<Descriptor>): (r: seq<byte>)
    requires forall d :: d in c ==> d.Accepted()
    ensures |r| == 8 * |c|
  {
    if c == [] then [] else
    DecodeEncode(c[0]);
    LittleEndian(Encode(c[0]), 8) + ChainBytes(c[1..])
  }

  ghost predicate StoredAt(dram: seq<byte>, addr: nat, c: seq<Descriptor>) {
    && (forall d :: d in c ==> d.Accepted())
    && addr + 8 * |c| <= |dram|
    && dram[addr..addr + 8 * |c|] == ChainBytes(c)
  }

  lemma FetchStored(dram: seq<byte>, addr: nat, c: seq<Descriptor>)
    requires StoredAt(dram, addr, c) && c != []
    ensures Fetch(dram, addr) == c[0].Normal() && Fetch(dram, addr).ActualSize() == c[0].ActualSize()
    ensures StoredAt(dram, addr + 8, c[1..])
  {
    var word := Encode(c[0]);
    DecodeEncode(c[0]);
    assert dram[addr..addr + 8] == dram[addr..addr + 8 * |c|][..8] == LittleEndian(word, 8);
    assert Pow256(8) == TWO64 by {
      assert Pow256(4) == TWO32;
    }
    LittleEndianRoundTrip(word, 8);
    assert dram[addr + 8..addr + 8 * |c|] == dram[addr..addr + 8 * |c|][8..] == ChainBytes(c[1..]);
  }

  // A chain the walker can follow to its end: in bounds, and flagged as last
  // exactly at the end.
  ghost predicate Walkable(c: seq<Descriptor>, sramSize: nat, dramSize: nat) {
    && c != []
    && (forall i :: 0 <= i < |c| ==>
          && c[i].Accepted()
          && c[i].sramAddr + c[i].ActualSize() <= sramSize && c[i].dramAddr + c[i].ActualSize() <= dramSize
          && (c[i].last <==> i == |c| - 1))
  }

  // What the transfers of a chain amount to, without its encoding.
  ghost function CopyIn(sram: seq<byte>, dram: seq<byte>, c: seq<Descriptor>): (r: seq<byte>)
    requires c != [] ==> Walkable(c, |sram|, |dram|)
    ensures |r| == |sram|
    decreases |c|
  {
    if c == [] then sram else
    CopyIn(Splice(sram, c[0].sramAddr, dram[c[0].dramAddr..c[0].dramAddr + c[0].ActualSize()]), dram, c[1..])
  }

  lemma LoadTurn(sram: seq<byte>, dram: seq<byte>, addr: nat, d: Descriptor)
    requires d.Accepted() && addr < |dram| && Fetch(dram, addr) == d.Normal()
    requires d.sramAddr + d.ActualSize() <= |sram| && d.dramAddr + d.ActualSize() <= |dram|
    ensures var s := Splice(sram, d.sramAddr, dram[d.dramAddr..d.dramAddr + d.ActualSize()]);
            LoadWalk(sram, dram, addr) == if d.last then Done(s, 1) else LoadWalk(s, dram, addr + 8).After(1)
  {
  }

  // The load instruction performs the transfers of any stored chain, in order,
  // and stops after its last descriptor.
  lemma {:induction false} LoadFollowsChain(sram: seq<byte>, dram: seq<byte>, addr: nat, c: seq<Descriptor>)
    requires Walkable(c, |sram|, |dram|) && StoredAt(dram, addr, c)
    ensures LoadWalk(sram, dram, addr) == Done(CopyIn(sram, dram, c), |c|)
    decreases |c|
  {
    FetchStored(dram, addr, c);
    LoadTurn(sram, dram, addr, c[0]);
    if |c| > 1 {
      var s := Splice(sram, c[0].sramAddr, dram[c[0].dramAddr..c[0].dramAddr + c[0].ActualSize()]);
      LoadFollowsChain(s, dram, addr + 8, c[1..]);
    } else {
      assert c[1..] == [];
    }
  }

  // The first descriptor of a built chain and what follows it.
  lemma ChainStep(sramBase: nat, dramBase: nat, total: nat, chunk: nat)
    requires total >= 1 && chunk >= 1
    ensures var c := Chain(sramBase, dramBase, total, chunk);
            && c != [] && c[0].sramAddr == sramBase && c[0].dramAddr == dramBase && c[0].size == Min(chunk, total)
            && c[0].ActualSize() == Min(chunk, total)
            && c[1..] == Chain(sramBase + chunk, dramBase + chunk, total - chunk, chunk)
            && (|c| == 1 <==> total <= chunk)
  {
  }

  lemma CopyInStep(sram: seq<byte>, dram: seq<byte>, c: seq<Descriptor>)
    requires Walkable(c, |sram|, |dram|)
    ensures var m := Splice(sram, c[0].sramAddr, dram[c[0].dramAddr..c[0].dramAddr + c[0].ActualSize()]);
            |m| == |sram| && (|c| == 1 ==> CopyIn(sram, dram, c) == m)
            && (|c| > 1 ==> Walkable(c[1..], |m|, |dram|) && CopyIn(sram, dram, c) == CopyIn(m, dram, c[1..]))
  {
    hide Splice;
    if |c| == 1 {
      assert c[1..] == [];
    } else {
      WalkableTail(c, |sram|, |dram|);
    }
  }

  lemma {:induction false} ChainIsWalkable(sramBase: nat, dramBase: nat, total: nat, chunk: nat, sramSize: nat,
                                           dramSize: nat)
    requires total >= 1 && chunk >= 1
    requires forall d :: d in Chain(sramBase, dramBase, total, chunk) ==> d.Accepted()
    requires sramBase + total <= sramSize && dramBase + total <= dramSize
    ensures Walkable(Chain(sramBase, dramBase, total, chunk), sramSize, dramSize)
    decreases total
  {
    var c := Chain(sramBase, dramBase, total, chunk);
    assert c[0] in c;
    if total > chunk {
      var rest := Chain(sramBase + chunk, dramBase + chunk, total - chunk, chunk);
      assert c == [c[0]] + rest;
      ChainIsWalkable(sramBase + chunk, dramBase + chunk, total - chunk, chunk, sramSize, dramSize);
    } else {
      assert c == [c[0]];
    }
  }

  lemma WalkableTail(c: seq<Descriptor>, sramSize: nat, dramSize: nat)
    requires Walkable(c, sramSize, dramSize) && |c| > 1
    ensures Walkable(c[1..], sramSize, dramSize)
  {
  }

  lemma {:induction false} ChainCopiesIn(sram: seq<byte>, dram: seq<byte>, sramBase: nat, dramBase: nat, total: nat,
                                         chunk: nat)
    requires total >= 1 && chunk >= 1
    requires Walkable(Chain(sramBase, dramBase, total, chunk), |sram|, |dram|)
    requires sramBase + total <= |sram| && dramBase + total <= |dram|
    ensures CopyIn(sram, dram, Chain(sramBase, dramBase, total, chunk))
         == Splice(sram, sramBase, dram[dramBase..dramBase + total])
    decreases total
  {
    hide Splice, CopyIn, Chain, Walkable;
    var c := Chain(sramBase, dramBase, total, chunk);
    ChainStep(sramBase, dramBase, total, chunk);
    WalkableHead(c, |sram|, |dram|);
    CopyInStep(sram, dram, c);
    if total > chunk {
      var x, y := dram[dramBase..dramBase + chunk], dram[dramBase + chunk..dramBase + chunk + (total - chunk)];
      ChainCopiesIn(Splice(sram, sramBase, x), dram, sramBase + chunk, dramBase + chunk, total - chunk, chunk);
      SpliceJoins(sram, sramBase, x, y);
      assert x + y == dram[dramBase..dramBase + total];
    }
  }

  // A DMA load is one memcpy: walking a stored chain ends after exactly its
  // descriptors and copies exactly the bytes asked for.
  lemma LoadIsOneCopy(sram: seq<byte>, dram: seq<byte>, addr: nat, sramBase: nat, dramBase: nat, total: nat, chunk: nat)
    requires total >= 1 && chunk >= 1
    requires StoredAt(dram, addr, Chain(sramBase, dramBase, total, chunk))
    requires sramBase + total <= |sram| && dramBase + total <= |dram|
    ensures LoadWalk(sram, dram, addr)
         == Done(Splice(sram, sramBase, dram[dramBase..dramBase + total]), |Chain(sramBase, dramBase, total, chunk)|)
  {
    ChainIsWalkable(sramBase, dramBase, total, chunk, |sram|, |dram|);
    LoadFollowsChain(sram, dram, addr, Chain(sramBase, dramBase, total, chunk));
    ChainCopiesIn(sram, dram, sramBase, dramBase, total, chunk);
  }

  lemma StoredElsewhere(dram: seq<byte>, addr: nat, c: seq<Descriptor>, at: nat, data: seq<byte>)
    requires StoredAt(dram, addr, c) && at + |data| <= |dram|
    requires at + |data| <= addr || addr + 8 * |c| <= at
    ensures StoredAt(Splice(dram, at, data), addr, c)
  {
    assert Splice(dram, at, data)[addr..addr + 8 * |c|] == dram[addr..addr + 8 * |c|];
  }

  ghost function CopyOut(sram: seq<byte>, dram: seq<byte>, c: seq<Descriptor>): (r: seq<byte>)
    requires c != [] ==> Walkable(c, |sram|, |dram|)
    ensures |r| == |dram|
    decreases |c|
  {
    if c == [] then dram else
    CopyOut(sram, Splice(dram, c[0].dramAddr, sram[c[0].sramAddr..c[0].sramAddr + c[0].ActualSize()]), c[1..])
  }

  lemma StoreTurn(sram: seq<byte>, dram: seq<byte>, addr: nat, d: Descriptor)
    requires d.Accepted() && addr < |dram| && Fetch(dram, addr) == d.Normal()
    requires d.sramAddr + d.ActualSize() <= |sram| && d.dramAddr + d.ActualSize() <= |dram|
    ensures var m := Splice(dram, d.dramAddr, sram[d.sramAddr..d.sramAddr + d.ActualSize()]);
            StoreWalk(sram, dram, addr) == if d.last then Done(m, 1) else StoreWalk(sram, m, addr + 8).After(1)
  {
    hide Splice, Fetch;
    assert Slice(sram, d.sramAddr, d.ActualSize()) == sram[d.sramAddr..d.sramAddr + d.ActualSize()];
  }

  // No transfer writes over a descriptor that is still to be read.
  ghost predicate ClearAhead(c: seq<Descriptor>, addr: nat) {
    forall i :: 0 <= i < |c| - 1 ==>
      c[i].dramAddr + c[i].ActualSize() <= addr + 8 * (i + 1) || addr + 8 * |c| <= c[i].dramAddr
  }

  lemma ClearTail(c: seq<Descriptor>, addr: nat)
    requires ClearAhead(c, addr) && |c| > 1
    ensures ClearAhead(c[1..], addr + 8)
    ensures c[0].dramAddr + c[0].ActualSize() <= addr + 8 || addr + 8 + 8 * |c[1..]| <= c[0].dramAddr
  {
    var rest := c[1..];
    forall i | 0 <= i < |rest| - 1
      ensures rest[i].dramAddr + rest[i].ActualSize() <= addr + 8 + 8 * (i + 1)
              || addr + 8 + 8 * |rest| <= rest[i].dramAddr
    {
      assert rest[i] == c[i + 1];
    }
  }

  // The store instruction performs the transfers of a stored chain, in order, and
  // stops after its last descriptor, although it writes to the memory it reads
  // the chain from.
  lemma {:induction false} StoreFollowsChain(sram: seq<byte>, dram: seq<byte>, addr: nat, c: seq<Descriptor>)
    requires Walkable(c, |sram|, |dram|) && StoredAt(dram, addr, c) && ClearAhead(c, addr)
    ensures StoreWalk(sram, dram, addr) == Done(CopyOut(sram, dram, c), |c|)
    decreases |c|
  {
    hide Fetch, StoreWalk, CopyOut, Splice, ClearAhead, StoredAt, Walkable, StoreRefused, Stored;
    WalkableHead(c, |sram|, |dram|);
    FetchStored(dram, addr, c);
    StoredInside(dram, addr, c);
    StoreTurn(sram, dram, addr, c[0]);
    CopyOutStep(sram, dram, c);
    if |c| > 1 {
      var data := sram[c[0].sramAddr..c[0].sramAddr + c[0].ActualSize()];
      ClearTail(c, addr);
      StoredElsewhere(dram, addr + 8, c[1..], c[0].dramAddr, data);
      StoreFollowsChain(sram, Splice(dram, c[0].dramAddr, data), addr + 8, c[1..]);
    }
  }

  lemma CopyOutStep(sram: seq<byte>, dram: seq<byte>, c: seq<Descriptor>)
    requires Walkable(c, |sram|, |dram|)
    ensures c[0].last <==> |c| == 1
    ensures var m := Splice(dram, c[0].dramAddr, sram[c[0].sramAddr..c[0].sramAddr + c[0].ActualSize()]);
            |m| == |dram| && (|c| == 1 ==> CopyOut(sram, dram, c) == m)
            && (|c| > 1 ==> Walkable(c[1..], |sram|, |m|) && CopyOut(sram, dram, c) == CopyOut(sram, m, c[1..]))
  {
    hide Splice;
    if |c| == 1 {
      assert c[1..] == [];
    } else {
      WalkableTail(c, |sram|, |dram|);
    }
  }

  lemma {:induction false} ChainCopiesOut(sram: seq<byte>, dram: seq<byte>, sramBase: nat, dramBase: nat, total: nat,
                                          chunk: nat)
    requires total >= 1 && chunk >= 1
    requires Walkable(Chain(sramBase, dramBase, total, chunk), |sram|, |dram|)
    requires sramBase + total <= |sram| && dramBase + total <= |dram|
    ensures CopyOut(sram, dram, Chain(sramBase, dramBase, total, chunk))
         == Splice(dram, dramBase, sram[sramBase..sramBase + total])
    decreases total
  {
    hide Splice, CopyOut, Chain, Walkable;
    var c := Chain(sramBase, dramBase, total, chunk);
    ChainStep(sramBase, dramBase, total, chunk);
    WalkableHead(c, |sram|, |dram|);
    CopyOutStep(sram, dram, c);
    if total > chunk {
      var x, y := sram[sramBase..sramBase + chunk], sram[sramBase + chunk..sramBase + chunk + (total - chunk)];
      ChainCopiesOut(sram, Splice(dram, dramBase, x), sramBase + chunk, dramBase + chunk, total - chunk, chunk);
      SpliceJoins(dram, dramBase, x, y);
      assert x + y == sram[sramBase..sramBase + total];
    }
  }

  ghost predicate Within(c: seq<Descriptor>, lo: int, hi: int) {
    forall i :: 0 <= i < |c| ==> lo <= c[i].dramAddr && c[i].dramAddr + c[i].ActualSize() <= hi
  }

  lemma {:induction false} ChainStaysInRange(sramBase: nat, dramBase: nat, total: nat, chunk: nat)
    requires total >= 1 && chunk >= 1
    requires forall d :: d in Chain(sramBase, dramBase, total, chunk) ==> d.Accepted()
    ensures Within(Chain(sramBase, dramBase, total, chunk), dramBase, dramBase + total)
    decreases total
  {
    var c := Chain(sramBase, dramBase, total, chunk);
    assert c[0] in c;
    if total > chunk {
      var rest := Chain(sramBase + chunk, dramBase + chunk, total - chunk, chunk);
      assert c == [c[0]] + rest;
      ChainStaysInRange(sramBase + chunk, dramBase + chunk, total - chunk, chunk);
    } else {
      assert c == [c[0]];
    }
  }

  // A block apart from the chain in DRAM has no transfer on the chain.
  lemma ApartIsClear(addr: nat, sramBase: nat, dramBase: nat, total: nat, chunk: nat)
    requires total >= 1 && chunk >= 1 && forall d :: d in Chain(sramBase, dramBase, total, chunk) ==> d.Accepted()
    requires dramBase + total <= addr || addr + 8 * |Chain(sramBase, dramBase, total, chunk)| <= dramBase
    ensures ClearAhead(Chain(sramBase, dramBase, total, chunk), addr)
  {
    ChainStaysInRange(sramBase, dramBase, total, chunk);
  }

  // The store instruction walks the same chain the other way: it writes the
  // SRAM block back, provided no part of it lands on a descriptor still to be read.
  lemma StoreIsOneCopy(sram: seq<byte>, dram: seq<byte>, addr: nat, sramBase: nat, dramBase: nat, total: nat,
                       chunk: nat)
    requires total >= 1 && chunk >= 1
    requires StoredAt(dram, addr, Chain(sramBase, dramBase, total, chunk))
    requires sramBase + total <= |sram| && dramBase + total <= |dram|
    requires ClearAhead(Chain(sramBase, dramBase, total, chunk), addr)
    ensures StoreWalk(sram, dram, addr)
         == Done(Splice(dram, dramBase, sram[sramBase..sramBase + total]), |Chain(sramBase, dramBase, total, chunk)|)
  {
    ChainIsWalkable(sramBase, dramBase, total, chunk, |sram|, |dram|);
    hide Walkable, ClearAhead, Chain, Splice, StoreWalk, CopyOut;
    StoreFollowsChain(sram, dram, addr, Chain(sramBase, dramBase, total, chunk));
    ChainCopiesOut(sram, dram, sramBase, dramBase, total, chunk);
  }

  // A block apart from the chain is written as one, and leaves the chain in
  // place: loading through it again brings SRAM's bytes back where they were.
  lemma StoreThenLoad(sram: seq<byte>, dram: seq<byte>, addr: nat, sramBase: nat, dramBase: nat, total: nat, chunk: nat)
    requires total >= 1 && chunk >= 1
    requires StoredAt(dram, addr, Chain(sramBase, dramBase, total, chunk))
    requires sramBase + total <= |sram| && dramBase + total <= |dram|
    requires dramBase + total <= addr || addr + 8 * |Chain(sramBase, dramBase, total, chunk)| <= dramBase
    ensures var length, stored := |Chain(sramBase, dramBase, total, chunk)|, StoreWalk(sram, dram, addr);
            && stored == Done(Splice(dram, dramBase, sram[sramBase..sramBase + total]), length)
            && LoadWalk(sram, stored.memory, addr) == Done(sram, length)
  {
    var data := sram[sramBase..sramBase + total];
    ApartIsClear(addr, sramBase, dramBase, total, chunk);
    StoreIsOneCopy(sram, dram, addr, sramBase, dramBase, total, chunk);
    StoredElsewhere(dram, addr, Chain(sramBase, dramBase, total, chunk), dramBase, data);
    hide StoredAt, Chain, StoreWalk, LoadWalk;
    LoadIsOneCopy(sram, Splice(dram, dramBase, data), addr, sramBase, dramBase, total, chunk);
    assert Splice(dram, dramBase, data)[dramBase..dramBase + total] == data;
    SpliceBack(sram, sramBase, total);
  }

  // Every transfer would write what is there already.
  ghost predicate Mirrors(sram: seq<byte>, dram: seq<byte>, c: seq<Descriptor>)
    requires c != [] ==> Walkable(c, |sram|, |dram|)
  {
    forall i :: 0 <= i < |c| ==>
      sram[c[i].sramAddr..c[i].sramAddr + c[i].ActualSize()] == dram[c[i].dramAddr..c[i].dramAddr + c[i].ActualSize()]
  }

  lemma {:induction false} MirrorStores(sram: seq<byte>, dram: seq<byte>, addr: nat, c: seq<Descriptor>)
    requires Walkable(c, |sram|, |dram|) && StoredAt(dram, addr, c) && Mirrors(sram, dram, c)
    ensures StoreWalk(sram, dram, addr) == Done(dram, |c|)
    decreases |c|
  {
    hide Fetch, StoreWalk, Splice, StoredAt, Walkable, Mirrors, StoreRefused, Stored;
    WalkableHead(c, |sram|, |dram|);
    FetchStored(dram, addr, c);
    StoreTurn(sram, dram, addr, c[0]);
    StoredInside(dram, addr, c);
    MirrorsHead(sram, dram, c);
    SpliceBack(dram, c[0].dramAddr, c[0].ActualSize());
    if |c| > 1 {
      WalkableTail(c, |sram|, |dram|);
      MirrorsTail(sram, dram, c);
      MirrorStores(sram, dram, addr + 8, c[1..]);
    }
  }

  lemma WalkableHead(c: seq<Descriptor>, sramSize: nat, dramSize: nat)
    requires Walkable(c, sramSize, dramSize)
    ensures c != [] && c[0].Accepted() && (c[0].last <==> |c| == 1)
    ensures c[0].sramAddr + c[0].ActualSize() <= sramSize && c[0].dramAddr + c[0].ActualSize() <= dramSize
  {
  }

  lemma StoredInside(dram: seq<byte>, addr: nat, c: seq<Descriptor>)
    requires StoredAt(dram, addr, c)
    ensures addr + 8 * |c| <= |dram|
  {
  }

  lemma MirrorsHead(sram: seq<byte>, dram: seq<byte>, c: seq<Descriptor>)
    requires Walkable(c, |sram|, |dram|) && Mirrors(sram, dram, c)
    ensures sram[c[0].sramAddr..c[0].sramAddr + c[0].ActualSize()] ==
            dram[c[0].dramAddr..c[0].dramAddr + c[0].ActualSize()]
  {
  }

  lemma SpliceBack(mem: seq<byte>, a: nat, n: nat)
    requires a + n <= |mem|
    ensures Splice(mem, a, mem[a..a + n]) == mem
  {
  }

  lemma MirrorsTail(sram: seq<byte>, dram: seq<byte>, c: seq<Descriptor>)
    requires Walkable(c, |sram|, |dram|) && |c| > 1
    ensures Walkable(c[1..], |sram|, |dram|)
    ensures Mirrors(sram, dram, c) <==>
            && sram[c[0].sramAddr..c[0].sramAddr + c[0].ActualSize()] ==
                 dram[c[0].dramAddr..c[0].dramAddr + c[0].ActualSize()]
            && Mirrors(sram, dram, c[1..])
  {
    var rest := c[1..];
    if Mirrors(sram, dram, rest) {
      assert forall i :: 0 < i < |c| ==> c[i] == rest[i - 1];
    }
  }

  // A part of two equal blocks is equal.
  lemma EqualParts(a: seq<byte>, b: seq<byte>, at: nat, bt: nat, total: nat, lo: nat, hi: nat)
    requires at + total <= |a| && bt + total <= |b| && lo <= hi <= total && a[at..at + total] == b[bt..bt + total]
    ensures a[at + lo..at + hi] == b[bt + lo..bt + hi]
  {
    PartOfBlock(a, at, total, lo, hi);
    PartOfBlock(b, bt, total, lo, hi);
  }

  lemma PartOfBlock(a: seq<byte>, at: nat, total: nat, lo: nat, hi: nat)
    requires at + total <= |a| && lo <= hi <= total
    ensures a[at + lo..at + hi] == a[at..at + total][lo..hi]
  {
    var p, q := a[at + lo..at + hi], a[at..at + total][lo..hi];
    forall k | 0 <= k < |p| ensures p[k] == q[k] {
    }
  }

  lemma {:induction false} BlockMirrors(sram: seq<byte>, dram: seq<byte>, sramBase: nat, dramBase: nat, total: nat,
                                        chunk: nat)
    requires total >= 1 && chunk >= 1 && sramBase + total <= |sram| && dramBase + total <= |dram|
    requires Walkable(Chain(sramBase, dramBase, total, chunk), |sram|, |dram|)
    requires sram[sramBase..sramBase + total] == dram[dramBase..dramBase + total]
    ensures Mirrors(sram, dram, Chain(sramBase, dramBase, total, chunk))
    decreases total
  {
    hide Mirrors;
    var c := Chain(sramBase, dramBase, total, chunk);
    EqualParts(sram, dram, sramBase, dramBase, total, 0, Min(chunk, total));
    if total > chunk {
      var rest := Chain(sramBase + chunk, dramBase + chunk, total - chunk, chunk);
      assert c[1..] == rest;
      MirrorsTail(sram, dram, c);
      EqualParts(sram, dram, sramBase, dramBase, total, chunk, total);
      hide Walkable, Chain;
      BlockMirrors(sram, dram, sramBase + chunk, dramBase + chunk, total - chunk, chunk);
    } else {
      assert Chain(sramBase + chunk, dramBase + chunk, total - chunk, chunk) == [];
      MirrorsOne(sram, dram, c);
    }
  }

  lemma MirrorsOne(sram: seq<byte>, dram: seq<byte>, c: seq<Descriptor>)
    requires |c| == 1 && Walkable(c, |sram|, |dram|)
    requires sram[c[0].sramAddr..c[0].sramAddr + c[0].ActualSize()] ==
             dram[c[0].dramAddr..c[0].dramAddr + c[0].ActualSize()]
    ensures Mirrors(sram, dram, c)
  {
  }

  // Loading through a chain and storing through it again changes no DRAM byte,
  // wherever the block lies: a store then only writes what is there already.
  lemma LoadThenStore(sram: seq<byte>, dram: seq<byte>, addr: nat, sramBase: nat, dramBase: nat, total: nat, chunk: nat)
    requires total >= 1 && chunk >= 1
    requires StoredAt(dram, addr, Chain(sramBase, dramBase, total, chunk))
    requires sramBase + total <= |sram| && dramBase + total <= |dram|
    ensures var loaded := LoadWalk(sram, dram, addr);
            loaded.Done? && StoreWalk(loaded.memory, dram, addr) ==
              Done(dram, |Chain(sramBase, dramBase, total, chunk)|)
  {
    LoadIsOneCopy(sram, dram, addr, sramBase, dramBase, total, chunk);
    var s := LoadWalk(sram, dram, addr).memory;
    assert s[sramBase..sramBase + total] == dram[dramBase..dramBase + total];
    ChainIsWalkable(sramBase, dramBase, total, chunk, |s|, |dram|);
    hide LoadWalk, StoreWalk, Splice, Chain, Walkable, StoredAt, Mirrors;
    BlockMirrors(s, dram, sramBase, dramBase, total, chunk);
    MirrorStores(s, dram, addr, Chain(sramBase, dramBase, total, chunk));
  }

  // The 16-bit SRAM field keeps every load inside the 4 MB buffer: the overflow
  // check of the SRAM never fires during DMA_LDD.
  lemma {:induction false} LoadsNeverOverflow(sram: seq<byte>, dram: seq<byte>, addr: nat)
    requires |sram| == SRAM_SIZE
    ensures !LoadWalk(sram, dram, addr).Overflow?
    decreases |dram| - addr
  {
    var d := Fetch(dram, addr);
    var data := Slice(dram, d.dramAddr, d.ActualSize());
    assert d.sramAddr < TWO16 && |data| <= 4096;
    if addr < |dram| {
      LoadsNeverOverflow(Splice(sram, d.sramAddr, data), dram, addr + 8);
    }
  }

  // A store that reaches past the end of DRAM is refused, with nothing written,
  // unless it is a single byte, which is dropped; one that fits is refused only when
  // SRAM is too short for it.
  lemma PastTheEnd(sram: seq<byte>, dram: seq<byte>, addr: nat)
    requires addr < |dram|
    ensures var d := Fetch(dram, addr);
            var fits, enough := d.dramAddr + d.ActualSize() <= |dram|, d.sramAddr + d.ActualSize() <= |sram|;
            && (!enough || (!fits && d.ActualSize() >= 2) ==> StoreWalk(sram, dram, addr) == Overflow(dram, 0))
            && (enough && !fits && d.ActualSize() == 1 ==>
                  StoreWalk(sram, dram, addr) ==
                  if d.last then Done(dram, 1) else StoreWalk(sram, dram, addr + 8).After(1))
            && (enough && fits ==>
                  var m := Splice(dram, d.dramAddr, sram[d.sramAddr..d.sramAddr + d.ActualSize()]);
                  StoreWalk(sram, dram, addr) ==
                  if d.last then Done(m, 1) else StoreWalk(sram, m, addr + 8).After(1))
  {
    hide Decode, FromBytes;
  }
}
