// What every instruction does to the memory, element by element and by the names
// and defaults of its operands.
module IsaMeaning {
  import opened Memory
  import opened Mxu
  import opened Mmul
  import opened Isa
  import opened OpChain
  import opened OpChainMeaning

  function HalfAt(mem: seq<byte>, a: nat): half
    requires a + 2 <= |mem|
  {
    (mem[a] as int) + 256 * (mem[a + 1] as int)
  }

  function Int32At(mem: seq<byte>, a: nat): int
    requires a + 4 <= |mem|
  {
    Int32Of(mem[a..a + 4])
  }

  // Only bytes a..a+n may differ.
  ghost predicate OnlyAt(mem: seq<byte>, m: seq<byte>, a: nat, n: nat) {
    |m| == |mem| && forall k :: 0 <= k < |mem| && !(a <= k < a + n) ==> m[k] == mem[k]
  }

  lemma WrittenInt32s(mem: seq<byte>, da: nat, v: seq<int>)
    requires da + 4 * |v| <= |mem| && forall j :: 0 <= j < |v| ==> IsInt32(v[j])
    ensures var m := Splice(mem, da, Block(v));
            OnlyAt(mem, m, da, 4 * |v|) && forall j :: 0 <= j < |v| ==> Int32At(m, da + 4 * j) == v[j]
  {
    BlockReadsBack(mem, da, v);
    hide Block, Int32Of;
    var m := Splice(mem, da, Block(v));
    forall j | 0 <= j < |v| ensures Int32At(m, da + 4 * j) == v[j] {
      assert ReadInt32(m, da, |v|)[j] == v[j];
    }
  }

  lemma WrittenHalves(mem: seq<byte>, da: nat, v: seq<half>)
    requires da + 2 * |v| <= |mem|
    ensures var m := Splice(mem, da, HalfBlock(v));
            OnlyAt(mem, m, da, 2 * |v|) && forall j :: 0 <= j < |v| ==> HalfAt(m, da + 2 * j) == v[j]
  {
    var m := Splice(mem, da, HalfBlock(v));
    forall j | 0 <= j < |v| ensures HalfAt(m, da + 2 * j) == v[j] {
      HalfBytes(v, j);
      assert m[da + 2 * j] == HalfBlock(v)[2 * j] && m[da + 2 * j + 1] == HalfBlock(v)[2 * j + 1];
    }
  }

  lemma HalfBytes(v: seq<half>, j: nat)
    requires j < |v|
    ensures HalfBlock(v)[2 * j] == v[j] % 256 && HalfBlock(v)[2 * j + 1] == v[j] / 256
  {
    assert (2 * j + 1) / 2 == j && (2 * j + 1) % 2 == 1;
  }

  lemma ReadInt32s(mem: seq<byte>, a: nat, n: nat)
    requires a + 4 * n <= |mem|
    ensures var x := Int32s(Slice(mem, a, 4 * n));
            |x| == n && forall j :: 0 <= j < n ==> x[j] == Int32At(mem, a + 4 * j)
  {
    hide Int32Of;
    var b := Slice(mem, a, 4 * n);
    forall j | 0 <= j < n ensures b[4 * j..4 * j + 4] == mem[a + 4 * j..a + 4 * j + 4] {
    }
  }

  lemma ReadHalves(mem: seq<byte>, a: nat, n: nat)
    requires a + 2 * n <= |mem|
    ensures var x := Halves(Slice(mem, a, 2 * n));
            |x| == n && forall j :: 0 <= j < n ==> x[j] == HalfAt(mem, a + 2 * j)
  {
  }

  // An instruction that runs writes what it computes at `da`, or raises.
  lemma StepWrites(u: Units, mem: seq<byte>, i: Instr, out: seq<byte>)
    requires !i.Idle() && i.op != MMUL && ChainedAddr(i) + ChainedBytes(i) <= |mem|
    requires i.op == VRESID ==> SideAddr(i) + SideBytes(i) <= |mem|
    requires Compute(u, i, Slice(mem, ChainedAddr(i), ChainedBytes(i)), Slice(mem, SideAddr(i), SideBytes(i))) ==
             Gives(out)
    ensures Step(u, mem, i) ==
            if i.Get("da", 0) + |out| > |mem| then Raised else Ran(Splice(mem, i.Get("da", 0), out))
  {
    hide Compute, ChainedAddr, ChainedBytes, SideAddr, SideBytes, Splice;
  }

  lemma Twice(n: nat)
    ensures 4 * (2 * n) == 8 * n
  {
  }

  ghost function Combined(op: OpCode, x: seq<int>, n: nat): (v: seq<int>)
    requires |x| == 2 * n
    ensures |v| == n && forall j :: 0 <= j < n ==>
              v[j] == Clip(if op == VADD then x[j] + x[n + j] else x[j] * x[n + j], -2147483648, 2147483647)
  {
    seq(n, j requires 0 <= j < n =>
      Clip(if op == VADD then x[j] + x[n + j] else x[j] * x[n + j], -2147483648, 2147483647))
  }

  lemma CombinedComputes(u: Units, i: Instr, x: seq<byte>, y: seq<byte>, n: nat)
    requires (i.op == VADD || i.op == VMUL) && |Int32s(x)| == 2 * n
    ensures var v := Combined(i.op, Int32s(x), n);
            Compute(u, i, x, y) == Gives(Block(v)) && forall j :: 0 <= j < n ==> IsInt32(v[j])
  {
    hide Int32s, Block;
    var a, v := Int32s(x), Combined(i.op, Int32s(x), n);
    if i.op == VADD {
      assert v == Pairwise((a, b) => Saturate(a + b), a);
    } else {
      assert v == Pairwise((a, b) => Saturate(a * b), a);
    }
  }

  lemma PairwiseValues(u: Units, mem: seq<byte>, i: Instr, n: nat, sa: nat) returns (v: seq<int>)
    requires (i.op == VADD || i.op == VMUL) && sa + 8 * n <= |mem|
    ensures |v| == n && forall j :: 0 <= j < n ==> IsInt32(v[j])
    ensures forall j :: 0 <= j < n ==>
              var a, b := Int32At(mem, sa + 4 * j), Int32At(mem, sa + 4 * (n + j));
              v[j] == Clip(if i.op == VADD then a + b else a * b, -2147483648, 2147483647)
    ensures Compute(u, i, Slice(mem, sa, 8 * n), Slice(mem, 0, 0)) == Gives(Block(v))
  {
    hide Int32At, Int32s, Block, Compute, Clip, Slice, Combined;
    Twice(n);
    ReadInt32s(mem, sa, 2 * n);
    var x := Int32s(Slice(mem, sa, 8 * n));
    v := Combined(i.op, x, n);
    CombinedComputes(u, i, Slice(mem, sa, 8 * n), Slice(mem, 0, 0), n);
    hide IsInt32;
    forall j | 0 <= j < n
      ensures v[j] == Clip(if i.op == VADD then Int32At(mem, sa + 4 * j) + Int32At(mem, sa + 4 * (n + j))
                           else Int32At(mem, sa + 4 * j) * Int32At(mem, sa + 4 * (n + j)), -2147483648, 2147483647)
    {
      assert x[j] == Int32At(mem, sa + 4 * j);
      assert x[n + j] == Int32At(mem, sa + 4 * (n + j));
    }
  }

  // VADD and VMUL: two int32 vectors, the second right behind the first.
  lemma PairwiseStep(u: Units, mem: seq<byte>, i: Instr)
    requires i.op == VADD || i.op == VMUL
    ensures var n, sa, da := i.Get("len", 2560), i.Get("sa", 0), i.Get("da", 0);
            match Step(u, mem, i)
            case Raised => sa + 8 * n > |mem| || da + 4 * n > |mem|
            case Ran(m) =>
              && sa + 8 * n <= |mem| && da + 4 * n <= |mem| && OnlyAt(mem, m, da, 4 * n)
              && forall j :: 0 <= j < n ==>
                   var a, b := Int32At(mem, sa + 4 * j), Int32At(mem, sa + 4 * (n + j));
                   Int32At(m, da + 4 * j) == Clip(if i.op == VADD then a + b else a * b, -2147483648, 2147483647)
  {
    hide Int32At, OnlyAt, Block, Splice, Compute, Clip, Slice, Instr.Get;
    var n, sa, da := i.Get("len", 2560), i.Get("sa", 0), i.Get("da", 0);
    if sa + 8 * n <= |mem| {
      var v := PairwiseValues(u, mem, i, n, sa);
      StepWrites(u, mem, i, Block(v));
      hide Step;
      if da + 4 * n <= |mem| {
        WrittenInt32s(mem, da, v);
        forall j | 0 <= j < n
          ensures var a, b := Int32At(mem, sa + 4 * j), Int32At(mem, sa + 4 * (n + j));
                  Int32At(Step(u, mem, i).mem, da + 4 * j) ==
                  Clip(if i.op == VADD then a + b else a * b, -2147483648, 2147483647)
        {
          assert Int32At(Step(u, mem, i).mem, da + 4 * j) == v[j];
        }
      }
    }
  }

  // VCONV: int32 to half.
  lemma ToHalfStep(u: Units, mem: seq<byte>, i: Instr)
    requires i.op == VCONV
    ensures var n, sa, da := i.Get("len", 2560), i.Get("sa", 0), i.Get("da", 0);
            match Step(u, mem, i)
            case Raised => sa + 4 * n > |mem| || da + 2 * n > |mem|
            case Ran(m) =>
              && sa + 4 * n <= |mem| && da + 2 * n <= |mem| && OnlyAt(mem, m, da, 2 * n)
              && forall j :: 0 <= j < n ==> HalfAt(m, da + 2 * j) == u.toF16(Int32At(mem, sa + 4 * j))
  {
    hide Int32At, HalfAt, OnlyAt, Int32s, HalfBlock, Splice, Slice, Instr.Get;
    var n, sa, da := i.Get("len", 2560), i.Get("sa", 0), i.Get("da", 0);
    if sa + 4 * n <= |mem| {
      ReadInt32s(mem, sa, n);
      var v := ToHalves(u, Int32s(Slice(mem, sa, 4 * n)));
      StepWrites(u, mem, i, HalfBlock(v));
      hide Step, Compute;
      if da + 2 * n <= |mem| {
        WrittenHalves(mem, da, v);
        forall j | 0 <= j < n
          ensures HalfAt(Step(u, mem, i).mem, da + 2 * j) == u.toF16(Int32At(mem, sa + 4 * j))
        {
          assert HalfAt(Step(u, mem, i).mem, da + 2 * j) == v[j];
        }
      }
    }
  }

  // VCONV_F16_I32: half to int32.
  lemma ToInt32Step(u: Units, mem: seq<byte>, i: Instr)
    requires u.Wf() && i.op == VCONV_F16_I32
    ensures var n, sa, da := i.Get("len", 2560), i.Get("sa", 0), i.Get("da", 0);
            match Step(u, mem, i)
            case Raised => sa + 2 * n > |mem| || da + 4 * n > |mem|
            case Ran(m) =>
              && sa + 2 * n <= |mem| && da + 4 * n <= |mem| && OnlyAt(mem, m, da, 4 * n)
              && forall j :: 0 <= j < n ==> Int32At(m, da + 4 * j) == u.toI32(HalfAt(mem, sa + 2 * j))
  {
    hide Int32At, HalfAt, OnlyAt, Halves, Block, Splice, Slice, Instr.Get;
    var n, sa, da := i.Get("len", 2560), i.Get("sa", 0), i.Get("da", 0);
    if sa + 2 * n <= |mem| {
      ReadHalves(mem, sa, n);
      var v := ToInt32s(u, Halves(Slice(mem, sa, 2 * n)));
      StepWrites(u, mem, i, Block(v));
      hide Step, Compute;
      if da + 4 * n <= |mem| {
        WrittenInt32s(mem, da, v);
        forall j | 0 <= j < n
          ensures Int32At(Step(u, mem, i).mem, da + 4 * j) == u.toI32(HalfAt(mem, sa + 2 * j))
        {
          assert Int32At(Step(u, mem, i).mem, da + 4 * j) == v[j];
        }
      }
    }
  }

  lemma ResidualComputes(u: Units, i: Instr, x: seq<byte>, y: seq<byte>, v: seq<int>)
    requires i.op == VRESID && |Halves(y)| == |Int32s(x)| == |v|
    requires forall j :: 0 <= j < |v| ==>
               v[j] == Clip(u.truncate(Halves(y)[j]) + Int32s(x)[j], -2147483648, 2147483647)
    ensures Compute(u, i, x, y) == Gives(Block(v)) && forall j :: 0 <= j < |v| ==> IsInt32(v[j])
  {
    hide Int32s, Halves, Block;
    assert v == Residuals(u, Halves(y), Int32s(x));
  }

  // VRESID: a half vector added to an int32 vector, which by default lies 1024
  // bytes behind it.
  lemma ResidualStep(u: Units, mem: seq<byte>, i: Instr)
    requires i.op == VRESID
    ensures var n, sa, da := i.Get("len", 2560), i.Get("sa", 0), i.Get("da", 0);
            var sb := i.Get("sb", sa + 1024);
            match Step(u, mem, i)
            case Raised => sa + 2 * n > |mem| || sb + 4 * n > |mem| || da + 4 * n > |mem|
            case Ran(m) =>
              && sa + 2 * n <= |mem| && sb + 4 * n <= |mem| && da + 4 * n <= |mem| && OnlyAt(mem, m, da, 4 * n)
              && forall j :: 0 <= j < n ==>
                   Int32At(m, da + 4 * j) ==
                   Clip(u.truncate(HalfAt(mem, sa + 2 * j)) + Int32At(mem, sb + 4 * j), -2147483648, 2147483647)
  {
    hide Int32At, HalfAt, OnlyAt, Halves, Int32s, Block, Splice, Compute, Clip, Slice, Instr.Get;
    var n, sa, da := i.Get("len", 2560), i.Get("sa", 0), i.Get("da", 0);
    var sb := i.Get("sb", sa + 1024);
    if sa + 2 * n <= |mem| && sb + 4 * n <= |mem| {
      ReadHalves(mem, sa, n);
      ReadInt32s(mem, sb, n);
      var a, b := Halves(Slice(mem, sa, 2 * n)), Int32s(Slice(mem, sb, 4 * n));
      var v := seq(n, j requires 0 <= j < n => Clip(u.truncate(a[j]) + b[j], -2147483648, 2147483647));
      ResidualComputes(u, i, Slice(mem, sb, 4 * n), Slice(mem, sa, 2 * n), v);
      StepWrites(u, mem, i, Block(v));
      hide Step;
      if da + 4 * n <= |mem| {
        WrittenInt32s(mem, da, v);
        forall j | 0 <= j < n
          ensures Int32At(Step(u, mem, i).mem, da + 4 * j) ==
                  Clip(u.truncate(HalfAt(mem, sa + 2 * j)) + Int32At(mem, sb + 4 * j), -2147483648, 2147483647)
        {
          assert a[j] == HalfAt(mem, sa + 2 * j) && b[j] == Int32At(mem, sb + 4 * j);
          assert Int32At(Step(u, mem, i).mem, da + 4 * j) == v[j];
        }
      }
    }
  }

  // How many half-precision elements an instruction of the special-function unit reads.
  function UnitLength(i: Instr): nat {
    match i.op
    case RMSNORM => i.Get("elements", 0)
    case MAXPOOL => i.Area()
    case AVGPOOL => i.Area()
    case _ => i.Get("len", 2560)
  }

  ghost predicate OfUnit(op: OpCode) {
    op in {SOFTMAX, LAYERNORM, GELU, RELU, ROPE, SILU, MAXPOOL, AVGPOOL, RMSNORM, VRED_MAX, VRED_SUM}
  }

  // The unit gets the vector at `sa` and the remaining operands; its output goes to `da`.
  lemma UnitStep(u: Units, mem: seq<byte>, i: Instr, x: seq<half>)
    requires OfUnit(i.op)
    requires |x| == UnitLength(i)
    requires i.Get("sa", 0) + 2 * |x| <= |mem| ==> forall j :: 0 <= j < |x| ==>
             x[j] == HalfAt(mem, i.Get("sa", 0) + 2 * j)
    ensures var sa, da, n := i.Get("sa", 0), i.Get("da", 0), UnitLength(i);
            var out := u.sfu(i.op, Params(i.Get("pos", 0), i.Get("H", 2), i.Get("W", 2)), x);
            match Step(u, mem, i)
            case Raised =>
              sa + 2 * n > |mem| || (i.op == RMSNORM && n == 0) || out.Raises? || da + 2 * |out.v| > |mem|
            case Ran(m) =>
              && sa + 2 * n <= |mem| && !(i.op == RMSNORM && n == 0)
              && out.Gives? && da + 2 * |out.v| <= |mem| && OnlyAt(mem, m, da, 2 * |out.v|)
              && forall j :: 0 <= j < |out.v| ==> HalfAt(m, da + 2 * j) == out.v[j]
  {
    hide HalfAt, OnlyAt, Halves, HalfBlock, Splice, Slice, Instr.Get, Instr.Area;
    var sa, da := i.Get("sa", 0), i.Get("da", 0);
    if sa + 2 * |x| <= |mem| {
      ReadHalves(mem, sa, |x|);
      assert Halves(Slice(mem, sa, 2 * |x|)) == x;
      var out := u.sfu(i.op, Params(i.Get("pos", 0), i.Get("H", 2), i.Get("W", 2)), x);
      if out.Gives? && da + 2 * |out.v| <= |mem| {
        WrittenHalves(mem, da, out.v);
      }
    }
  }

  lemma IdleStep(u: Units, mem: seq<byte>, i: Instr)
    requires i.op in {NOP, BARRIER, KV_LOAD, KV_STORE}
    ensures Step(u, mem, i) == Ran(mem)
  {
  }

  // MMUL: the matrix instruction at the addresses and dimensions of its operands.
  lemma MatrixStep(u: Units, mem: seq<byte>, i: Instr)
    requires i.op == MMUL
    ensures Step(u, mem, i) ==
      match MmulStep(u.wide, mem, i.Get("M", 1), i.Get("K", 2560), i.Get("N", 2560),
                     i.Get("ia", 0), i.Get("wa", 0), i.Get("oa", 0))
      case Next(m) => Ran(m)
      case _ => Raised
  {
    hide MmulStep, Step;
    MmulStepIsStep(u, mem, i);
  }

  // The inserted clip: int32 to int8, saturating.
  lemma ClipStep(u: Units, mem: seq<byte>, src: nat, dst: nat, n: nat)
    ensures match RunItem(u, mem, Int8Clip(src, dst, n))
            case Raised => src + 4 * n > |mem| || dst + n > |mem|
            case Ran(m) =>
              && src + 4 * n <= |mem| && dst + n <= |mem| && OnlyAt(mem, m, dst, n)
              && forall j :: 0 <= j < n ==>
                   var v := Int32At(mem, src + 4 * j);
                   Int8At(m, dst + j) == if v < -128 then -128 else if v > 127 then 127 else v
  {
    hide Int32At, Int32s, Int8At, Clipped, Int8Bytes, Splice, Slice, OnlyAt;
    if src + 4 * n <= |mem| && dst + n <= |mem| {
      ReadInt32s(mem, src, n);
      assert Slice(mem, src, 4 * n) == mem[src..src + 4 * n];
      var x := Int32s(mem[src..src + 4 * n]);
      WrittenClips(mem, dst, x);
      var m := Splice(mem, dst, Int8Bytes(Clipped(x)));
      assert RunItem(u, mem, Int8Clip(src, dst, n)) == Ran(m);
      hide RunItem;
      forall j | 0 <= j < n
        ensures var v := Int32At(mem, src + 4 * j);
                Int8At(m, dst + j) == if v < -128 then -128 else if v > 127 then 127 else v
      {
        assert x[j] == Int32At(mem, src + 4 * j);
      }
    }
  }

  lemma WrittenClips(mem: seq<byte>, dst: nat, x: seq<int>)
    requires dst + |x| <= |mem|
    ensures var m := Splice(mem, dst, Int8Bytes(Clipped(x)));
            && OnlyAt(mem, m, dst, |x|)
            && forall j :: 0 <= j < |x| ==>
                 Int8At(m, dst + j) == if x[j] < -128 then -128 else if x[j] > 127 then 127 else x[j]
  {
    var m := Splice(mem, dst, Int8Bytes(Clipped(x)));
    forall j | 0 <= j < |x|
      ensures Int8At(m, dst + j) == if x[j] < -128 then -128 else if x[j] > 127 then 127 else x[j]
    {
      assert m[dst + j] == Clipped(x)[j] % 256;
    }
  }
}
