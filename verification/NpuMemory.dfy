// The unified SRAM buffer and the DMA engine as objects over byte arrays.
module NpuMemory {
  import opened Memory
  import opened DmaDescriptors
  import opened DmaTransfers

  datatype ReadResult = Read(bytes: seq<byte>) | ReadOverflow

  class Sram {
    const data: array<byte>

    ghost predicate Valid()
      reads this
    {
      data.Length == SRAM_SIZE
    }

    constructor ()
      ensures Valid() && fresh(data) && forall i :: 0 <= i < SRAM_SIZE ==> data[i] == 0
    {
      data := new byte[SRAM_SIZE](_ => 0);
    }

    method ReadBytes(addr: nat, n: nat) returns (r: ReadResult)
      requires Valid()
      ensures r == if addr + n > SRAM_SIZE then ReadOverflow else Read(data[addr..addr + n])
    {
      if addr + n > SRAM_SIZE {
        return ReadOverflow;
      }
      return Read(data[addr..addr + n]);
    }

    // Refused, with nothing written, when the block does not fit.
    method WriteBytes(addr: nat, bytes: seq<byte>) returns (ok: bool)
      requires Valid()
      modifies data
      ensures ok <==> addr + |bytes| <= SRAM_SIZE
      ensures data[..] == if ok then Splice(old(data[..]), addr, bytes) else old(data[..])
    {
      if addr + |bytes| > SRAM_SIZE {
        return false;
      }
      forall i | 0 <= i < |bytes| {
        data[addr + i] := bytes[i];
      }
      return true;
    }
  }

  datatype Stop = Finished | RaisedOverflow | NeverEnds

  // How an execution ended is how the walk ends.
  ghost predicate Ends(w: Walked, stop: Stop, count: nat, memory: seq<byte>) {
    match w
    case Done(m, n) => stop == Finished && count == n && memory == m
    case Overflow(m, n) => stop == RaisedOverflow && count == n && memory == m
    case RunsOff => stop == NeverEnds
  }

  class DmaEngine {
    const sram: Sram
    const dram: array<byte>

    ghost predicate Valid()
      reads this, sram
    {
      sram.Valid() && sram.data != dram
    }

    constructor (sram: Sram, dram: array<byte>)
      requires sram.Valid() && sram.data != dram
      ensures Valid() && this.sram == sram && this.dram == dram
    {
      this.sram := sram;
      this.dram := dram;
    }

    method FetchDescriptor(addr: nat) returns (d: Descriptor)
      ensures d == Fetch(dram[..], addr)
    {
      var lo, hi := Min(addr, dram.Length), Min(addr + 8, dram.Length);
      assert dram[lo..hi] == Slice(dram[..], addr, 8);
      d := Decode(FromBytes(dram[lo..hi]));
    }

    method ExecuteLoad(d: Descriptor) returns (ok: bool)
      requires Valid() && d.Accepted()
      modifies sram.data
      ensures var data := Slice(dram[..], d.dramAddr, d.ActualSize());
              && (ok <==> d.sramAddr + |data| <= SRAM_SIZE)
              && sram.data[..] == if ok then Splice(old(sram.data[..]), d.sramAddr, data) else old(sram.data[..])
    {
      var lo, hi := Min(d.dramAddr, dram.Length), Min(d.dramAddr + d.ActualSize(), dram.Length);
      var data := dram[lo..hi];
      assert data == Slice(dram[..], d.dramAddr, d.ActualSize());
      ok := sram.WriteBytes(d.sramAddr, data);
    }

    method WriteDram(addr: nat, bytes: seq<byte>)
      requires addr + |bytes| <= dram.Length
      modifies dram
      ensures dram[..] == Splice(old(dram[..]), addr, bytes)
    {
      forall i | 0 <= i < |bytes| {
        dram[addr + i] := bytes[i];
      }
    }

    // Raises when the SRAM read overflows, or when the bytes read do not fill the
    // DRAM slice. A single byte is assigned to an empty slice without complaint,
    // and nothing is written.
    method ExecuteStore(d: Descriptor) returns (ok: bool)
      requires Valid() && d.Accepted()
      modifies dram
      ensures ok <==> !StoreRefused(sram.data[..], old(dram[..]), d)
      ensures dram[..] == if ok then Stored(sram.data[..], old(dram[..]), d) else old(dram[..])
    {
      hide Splice;
      var size := d.ActualSize();
      var r := sram.ReadBytes(d.sramAddr, size);
      if r.ReadOverflow? {
        return false;
      }
      if d.dramAddr + size > dram.Length {
        return size == 1;
      }
      assert r.bytes == Slice(sram.data[..], d.sramAddr, size);
      ghost var held := sram.data[..];
      WriteDram(d.dramAddr, r.bytes);
      assert sram.data[..] == held;
      return true;
    }

    // DMA_LDD. On an overflow the descriptors before the refused one have been
    // carried out. Past the end of DRAM one descriptor shows what all the others do.
    method LoadChain(descAddr: nat) returns (stop: Stop, count: nat)
      requires Valid()
      modifies sram.data
      ensures Ends(LoadWalk(old(sram.data[..]), dram[..], descAddr), stop, count, sram.data[..])
    {
      hide Decode, FromBytes, LoadWalk, StoreWalk, Splice, Slice;
      var offset := 0;
      count := 0;
      ghost var goal := LoadWalk(sram.data[..], dram[..], descAddr);
      while descAddr + offset < dram.Length
        invariant Valid()
        invariant Loading(sram.data[..], dram[..], descAddr + offset, count, goal)
        decreases dram.Length - offset
      {
        var d := FetchDescriptor(descAddr + offset);
        LoadOne(sram.data[..], dram[..], descAddr + offset, d, count, goal);
        var ok := ExecuteLoad(d);
        if !ok {
          return RaisedOverflow, count;
        }
        offset := offset + 8;
        count := count + 1;
        if d.last {
          return Finished, count;
        }
      }
      var d := FetchDescriptor(descAddr + offset);
      LoadOne(sram.data[..], dram[..], descAddr + offset, d, count, goal);
      var ok := ExecuteLoad(d);
      return if ok then NeverEnds else RaisedOverflow, count;
    }

    // DMA_STD. The chain is read from the memory the transfers write to.
    method StoreChain(descAddr: nat) returns (stop: Stop, count: nat)
      requires Valid()
      modifies dram
      ensures Ends(StoreWalk(sram.data[..], old(dram[..]), descAddr), stop, count, dram[..])
    {
      hide Decode, FromBytes, LoadWalk, StoreWalk, Stored, StoreRefused;
      var offset := 0;
      count := 0;
      ghost var goal := StoreWalk(sram.data[..], dram[..], descAddr);
      while descAddr + offset < dram.Length
        invariant Valid()
        invariant Storing(sram.data[..], dram[..], descAddr + offset, count, goal)
        decreases dram.Length - offset
      {
        var d := FetchDescriptor(descAddr + offset);
        ghost var held, before := sram.data[..], dram[..];
        StoreOne(held, before, descAddr + offset, d, count, goal);
        var ok := ExecuteStore(d);
        assert sram.data[..] == held;
        if !ok {
          return RaisedOverflow, count;
        }
        assert dram[..] == Stored(held, before, d);
        offset := offset + 8;
        count := count + 1;
        if d.last {
          return Finished, count;
        }
      }
      var d := FetchDescriptor(descAddr + offset);
      StoreOne(sram.data[..], dram[..], descAddr + offset, d, count, goal);
      var ok := ExecuteStore(d);
      return if ok then NeverEnds else RaisedOverflow, count;
    }
  }

  // `n` descriptors done, the walk from here on ends as the whole walk does.
  ghost predicate Loading(sram: seq<byte>, dram: seq<byte>, addr: nat, n: nat, goal: Walked) {
    LoadWalk(sram, dram, addr).After(n) == goal
  }

  ghost predicate Storing(sram: seq<byte>, dram: seq<byte>, addr: nat, n: nat, goal: Walked) {
    StoreWalk(sram, dram, addr).After(n) == goal
  }

  lemma LoadOne(sram: seq<byte>, dram: seq<byte>, addr: nat, d: Descriptor, n: nat, goal: Walked)
    requires Loading(sram, dram, addr, n, goal) && d == Fetch(dram, addr)
    ensures d.Accepted()
    ensures var data := Slice(dram, d.dramAddr, d.ActualSize());
            if d.sramAddr + |data| > |sram| then goal == Overflow(sram, n)
            else if addr >= |dram| then goal == RunsOff
            else if d.last then goal == Done(Splice(sram, d.sramAddr, data), n + 1)
            else Loading(Splice(sram, d.sramAddr, data), dram, addr + 8, n + 1, goal)
  {
  }

  lemma StoreOne(sram: seq<byte>, dram: seq<byte>, addr: nat, d: Descriptor, n: nat, goal: Walked)
    requires Storing(sram, dram, addr, n, goal) && d == Fetch(dram, addr)
    ensures d.Accepted()
    ensures if StoreRefused(sram, dram, d) then goal == Overflow(dram, n)
            else if addr >= |dram| then goal == RunsOff
            else var m := Stored(sram, dram, d);
                 if d.last then goal == Done(m, n + 1) else Storing(sram, m, addr + 8, n + 1, goal)
  {
  }
}
