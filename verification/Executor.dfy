// The executor object: one instruction at a time on its SRAM, and a whole
// program with automatic conversions.
module Executor {
  import opened Memory
  import opened Mmul
  import opened Isa
  import opened NpuMemory
  import opened OpChain
  import opened OpChainMeaning

  // A flag and a memory against the outcome of a run on values.
  ghost predicate Shows(r: Ran, ok: bool, mem: seq<byte>) {
    (ok <==> r.Ran?) && (ok ==> mem == r.mem)
  }

  class GoldenExecutor {
    const sram: Sram
    const units: Units

    constructor (sram: Sram, units: Units)
      ensures this.sram == sram && this.units == units
    {
      this.sram := sram;
      this.units := units;
    }

    method StepInstr(i: Instr) returns (ok: bool)
      requires sram.Valid()
      modifies sram.data
      ensures Shows(Step(units, old(sram.data[..]), i), ok, sram.data[..])
    {
      hide Compute, ChainedBytes, ChainedAddr, SideBytes, SideAddr, WriteAddr;
      if i.Idle() {
        return true;
      }
      ghost var mem := sram.data[..];
      var addr, n := ChainedAddr(i), ChainedBytes(i);
      var x := SliceOf(sram, addr, n);
      if i.op == MMUL {
        if |x| != n {
          return false;
        }
      } else {
        var r := sram.ReadBytes(addr, n);
        if r.ReadOverflow? {
          return false;
        }
      }
      var sideAddr, sideBytes := SideAddr(i), SideBytes(i);
      if i.op == VRESID {
        var r := sram.ReadBytes(sideAddr, sideBytes);
        if r.ReadOverflow? {
          return false;
        }
      }
      var y := SliceOf(sram, sideAddr, sideBytes);
      var v := Compute(units, i, x, y);
      if v.Raises? {
        return false;
      }
      ok := sram.WriteBytes(WriteAddr(i), v.v);
    }

    method Int8ClipOn(src: nat, dst: nat, length: nat) returns (ok: bool)
      requires sram.Valid()
      modifies sram.data
      ensures Shows(RunItem(units, old(sram.data[..]), Int8Clip(src, dst, length)), ok, sram.data[..])
    {
      hide Int8Bytes, Clipped, Int32s;
      ghost var mem := sram.data[..];
      var r := sram.ReadBytes(src, 4 * length);
      if r.ReadOverflow? {
        return false;
      }
      assert r.bytes == mem[src..src + 4 * length];
      ok := sram.WriteBytes(dst, Int8Bytes(Clipped(Int32s(r.bytes))));
    }

    // Raises, here `ok == false`, when the pass refuses the program or an
    // instruction fails. On a supported program the memory outside scratch is
    // that of the typed run.
    method RunOpChain(program: seq<Instr>, scratchBase: nat) returns (ok: bool)
      requires sram.Valid()
      modifies sram.data
      ensures match Insert(program, scratchBase)
              case None => !ok && sram.data[..] == old(sram.data[..])
              case Some(items) => Shows(RunAll(units, old(sram.data[..]), items), ok, sram.data[..])
      ensures forall hi: nat {:trigger Supported(program, scratchBase, hi, SRAM_SIZE)} ::
                units.Wf() && Supported(program, scratchBase, hi, SRAM_SIZE) ==>
                  var typed := TypedRun(units, old(sram.data[..]), program);
                  (ok <==> typed.Ran?) && (ok ==> Same(sram.data[..], typed.mem, scratchBase, hi))
    {
      hide RunItem, Insert, TypedRun, Supported;
      ghost var start := sram.data[..];
      var expanded := InsertDtypeConverters(program, scratchBase);
      if expanded.None? {
        ok := false;
      } else {
        ok := RunItems(expanded.value);
      }
      forall hi: nat | units.Wf() && Supported(program, scratchBase, hi, SRAM_SIZE)
        ensures var typed := TypedRun(units, start, program);
                (ok <==> typed.Ran?) && (ok ==> Same(sram.data[..], typed.mem, scratchBase, hi))
      {
        InsertionPreservesMeaning(units, start, program, scratchBase, hi);
      }
    }

    method RunItems(items: seq<Item>) returns (ok: bool)
      requires sram.Valid()
      modifies sram.data
      ensures Shows(RunAll(units, old(sram.data[..]), items), ok, sram.data[..])
    {
      hide Isa.Step, RunItem;
      ghost var goal := RunAll(units, sram.data[..], items);
      assert items[0..] == items;
      var n := 0;
      while n < |items|
        invariant n <= |items| && RunAll(units, sram.data[..], items[n..]) == goal
      {
        assert items[n..][0] == items[n] && items[n..][1..] == items[n + 1..];
        ghost var before := sram.data[..];
        ok := RunOne(items[n]);
        if !ok {
          return false;
        }
        n := n + 1;
      }
      return true;
    }

    method RunOne(item: Item) returns (ok: bool)
      requires sram.Valid()
      modifies sram.data
      ensures Shows(RunItem(units, old(sram.data[..]), item), ok, sram.data[..])
    {
      hide Isa.Step;
      match item
      case Run(i) => ok := StepInstr(i);
      case Int8Clip(src, dst, length) => ok := Int8ClipOn(src, dst, length);
    }
  }
}
