// The instructions that move data through the SRAM, as the executor's `step`
// performs them: read a chained operand and possibly a second one, compute,
// write the result.
module Isa {
  import opened Arithmetic
  import opened Memory
  import opened Int4
  import opened Mxu
  import opened Mmul

  type half = x: int | 0 <= x < 65536

  datatype OpCode =
    | MMUL | SOFTMAX | LAYERNORM | GELU | RELU | ROPE | SILU | MAXPOOL | AVGPOOL | RMSNORM
    | VADD | VMUL | VRED_MAX | VRED_SUM | VCONV | VCONV_F16_I32 | VRESID
    | NOP | BARRIER | KV_LOAD | KV_STORE

  datatype Instr = Instr(op: OpCode, operands: map<string, nat>) {
    function Get(key: string, default: nat): nat {
      if key in operands then operands[key] else default
    }

    function Len(): nat { Get("len", 2560) }
    function M(): nat { Get("M", 1) }
    function K(): nat { Get("K", 2560) }
    function N(): nat { Get("N", 2560) }
    function Area(): nat {
      MulSign(Get("H", 2), Get("W", 2));
      Get("H", 2) * Get("W", 2)
    }

    predicate Idle() {
      op in {NOP, BARRIER, KV_LOAD, KV_STORE}
    }
  }

  // Operands of the special-function unit besides its input vector.
  datatype Params = Params(pos: nat, h: nat, w: nat)

  datatype Computed<T> = Gives(v: T) | Raises

  // The units whose arithmetic is floating point are functions on 16-bit words:
  // any functions, as long as the output has the length the instruction writes.
  datatype Units = Units(
    sfu: (OpCode, Params, seq<half>) -> Computed<seq<half>>,
    toF16: int -> half,
    toI32: half -> int,
    truncate: half -> int,
    wide: bool)
  {
    ghost predicate Wf() {
      && (forall h :: IsInt32(toI32(h)))
      && (forall op, p, x :: sfu(op, p, x).Gives? ==> |sfu(op, p, x).v| == SfuCount(op, p, |x|))
    }
  }

  function SfuCount(op: OpCode, p: Params, n: nat): nat {
    match op
    case ROPE => n / 2 + n / 2 / 8
    case MAXPOOL => MulSign(p.h / 2, p.w / 2); (p.h / 2) * (p.w / 2)
    case AVGPOOL => MulSign(p.h / 2, p.w / 2); (p.h / 2) * (p.w / 2)
    case VRED_MAX => 1
    case VRED_SUM => 1
    case _ => n
  }

  // ---- typed views of bytes ----

  function Halves(b: seq<byte>): (r: seq<half>)
    ensures |r| == |b| / 2
  {
    seq<half>(|b| / 2, i requires 0 <= i < |b| / 2 => (b[2 * i] as int) + 256 * (b[2 * i + 1] as int))
  }

  function HalfBlock(v: seq<half>): (r: seq<byte>)
    ensures |r| == 2 * |v|
  {
    seq<byte>(2 * |v|, i requires 0 <= i < 2 * |v| => if i % 2 == 0 then v[i / 2] % 256 else v[i / 2] / 256)
  }

  function Int32s(b: seq<byte>): (r: seq<int>)
    ensures |r| == |b| / 4
  {
    seq(|b| / 4, i requires 0 <= i < |b| / 4 => Int32Of(b[4 * i..4 * i + 4]))
  }

  function Int8s(b: seq<byte>): (r: seq<int>)
    ensures |r| == |b|
  {
    seq(|b|, i requires 0 <= i < |b| => ToInt8(b[i]))
  }

  function Int8Bytes(v: seq<int>): (r: seq<byte>)
    ensures |r| == |v|
  {
    seq<byte>(|v|, i requires 0 <= i < |v| => v[i] % 256)
  }

  // ---- operands ----

  // Where the operand that a chained producer supplies is read from, and how many bytes.
  function ChainedAddr(i: Instr): nat {
    match i.op
    case MMUL => i.Get("ia", 0)
    case VRESID => i.Get("sb", i.Get("sa", 0) + 1024)
    case _ => i.Get("sa", 0)
  }

  function ChainedBytes(i: Instr): nat {
    match i.op
    case MMUL => MulSign(i.M(), i.K()); i.M() * i.K()
    case RMSNORM => 2 * i.Get("elements", 0)
    case MAXPOOL => 2 * i.Area()
    case AVGPOOL => 2 * i.Area()
    case VADD => 8 * i.Len()
    case VMUL => 8 * i.Len()
    case VCONV => 4 * i.Len()
    case VRESID => 4 * i.Len()
    case _ => 2 * i.Len()
  }

  // The second operand: packed weights, or the residual.
  function SideAddr(i: Instr): nat {
    match i.op
    case MMUL => i.Get("wa", 0)
    case VRESID => i.Get("sa", 0)
    case _ => 0
  }

  function SideBytes(i: Instr): nat {
    match i.op
    case MMUL => MulSign(i.K(), i.N()); (i.K() * i.N() + 1) / 2
    case VRESID => 2 * i.Len()
    case _ => 0
  }

  function WriteAddr(i: Instr): nat {
    if i.op == MMUL then i.Get("oa", 0) else i.Get("da", 0)
  }

  function WrittenBytes(i: Instr): nat {
    match i.op
    case MMUL => MulSign(i.M(), i.N()); 4 * (i.M() * i.N())
    case VADD => 4 * i.Len()
    case VMUL => 4 * i.Len()
    case VCONV => 2 * i.Len()
    case VCONV_F16_I32 => 4 * i.Len()
    case VRESID => 4 * i.Len()
    case _ => 2 * SfuCount(i.op, ParamsOf(i), ChainedBytes(i) / 2)
  }

  function ParamsOf(i: Instr): Params {
    Params(i.Get("pos", 0), i.Get("H", 2), i.Get("W", 2))
  }

  function Saturate(x: int): (r: int)
    ensures IsInt32(r)
  {
    Clip(x, INT32_MIN, INT32_MAX)
  }

  // ---- what each instruction computes from the bytes it read ----

  function Compute(u: Units, i: Instr, x: seq<byte>, y: seq<byte>): Computed<seq<byte>> {
    match i.op
    case MMUL =>
      Gives(Block(Product(u.wide, Int8s(x), Unpack(y), i.M(), i.K(), i.N())))
    case VADD => Gives(Block(Pairwise((a, b) => Saturate(a + b), Int32s(x))))
    case VMUL => Gives(Block(Pairwise((a, b) => Saturate(a * b), Int32s(x))))
    case VCONV => Gives(HalfBlock(ToHalves(u, Int32s(x))))
    case VCONV_F16_I32 => Gives(Block(ToInt32s(u, Halves(x))))
    case VRESID => Gives(Block(Residuals(u, Halves(y), Int32s(x))))
    case _ =>
      if i.op == RMSNORM && i.Get("elements", 0) == 0 then Raises else
      match u.sfu(i.op, ParamsOf(i), Halves(x))
      case Gives(v) => Gives(HalfBlock(v))
      case Raises => Raises
  }

  // The two halves of a vector combined element by element.
  function Pairwise(f: (int, int) -> int, v: seq<int>): (r: seq<int>)
    ensures |r| == |v| / 2
  {
    var n := |v| / 2;
    seq(n, j requires 0 <= j < n => f(v[j], v[n + j]))
  }

  function Residuals(u: Units, a: seq<half>, b: seq<int>): (r: seq<int>)
    ensures |r| == Min(|a|, |b|)
  {
    var n := Min(|a|, |b|);
    seq(n, j requires 0 <= j < n => Saturate(u.truncate(a[j]) + b[j]))
  }

  function ToHalves(u: Units, v: seq<int>): (r: seq<half>)
    ensures |r| == |v|
  {
    seq<half>(|v|, j requires 0 <= j < |v| => u.toF16(v[j]))
  }

  function ToInt32s(u: Units, v: seq<half>): (r: seq<int>)
    ensures |r| == |v|
  {
    seq(|v|, j requires 0 <= j < |v| => u.toI32(v[j]))
  }

  // ---- one instruction on the memory ----

  datatype Ran = Ran(mem: seq<byte>) | Raised

  // The matrix unit slices the memory and fails on a short slice; every other
  // instruction reads through the bounds check of the SRAM.
  predicate ReadFails(op: OpCode, mem: seq<byte>, addr: nat, n: nat) {
    if op == MMUL then |Slice(mem, addr, n)| != n else addr + n > |mem|
  }

  // Given the chained operand's bytes, read the second operand, compute, write.
  function Apply(u: Units, mem: seq<byte>, i: Instr, x: seq<byte>): Ran {
    if i.op == VRESID && SideAddr(i) + SideBytes(i) > |mem| then Raised else
    match Compute(u, i, x, Slice(mem, SideAddr(i), SideBytes(i)))
    case Raises => Raised
    case Gives(v) =>
      if WriteAddr(i) + |v| > |mem| then Raised else Ran(Splice(mem, WriteAddr(i), v))
  }

  function Step(u: Units, mem: seq<byte>, i: Instr): Ran {
    if i.Idle() then Ran(mem)
    else if ReadFails(i.op, mem, ChainedAddr(i), ChainedBytes(i)) then Raised
    else Apply(u, mem, i, Slice(mem, ChainedAddr(i), ChainedBytes(i)))
  }

  lemma Int32sOfBlock(v: seq<int>)
    requires forall i :: 0 <= i < |v| ==> IsInt32(v[i])
    ensures Int32s(Block(v)) == v
  {
    BlockReadsBack(Block(v), 0, v);
    assert Splice(Block(v), 0, Block(v)) == Block(v);
    assert Int32s(Block(v)) == ReadInt32(Block(v), 0, |v|);
  }

  lemma MatrixWrites(u: Units, i: Instr, x: seq<byte>, y: seq<byte>)
    requires i.op == MMUL
    ensures Compute(u, i, x, y).Gives? && |Compute(u, i, x, y).v| == WrittenBytes(i)
  {
    hide Instr.M, Instr.K, Instr.N, Product, Int8s, Block, Unpack;
  }

  lemma VectorWrites(u: Units, i: Instr, x: seq<byte>, y: seq<byte>)
    requires i.op in {VADD, VMUL, VCONV, VCONV_F16_I32, VRESID} && |x| == ChainedBytes(i) && |y| <= SideBytes(i)
    ensures Compute(u, i, x, y).Gives?
    ensures i.op != VRESID || |y| == SideBytes(i) ==> |Compute(u, i, x, y).v| == WrittenBytes(i)
  {
    hide Instr.Len, Saturate, Pairwise, Int32s, Halves, Block, HalfBlock, ToHalves, ToInt32s, Residuals;
    var n := i.Len();
    if i.op == VADD || i.op == VMUL {
      assert |x| == 8 * n && |Int32s(x)| == 2 * n;
    } else if i.op == VCONV {
      assert |x| == 4 * n && |Int32s(x)| == n;
    } else if i.op == VCONV_F16_I32 {
      assert |x| == 2 * n && |Halves(x)| == n;
    } else {
      assert |x| == 4 * n && |Int32s(x)| == n && |Halves(y)| == |y| / 2;
    }
  }

  // The instructions of the special-function unit.
  lemma UnitWrites(u: Units, i: Instr, x: seq<byte>, y: seq<byte>)
    requires u.Wf() && !i.Idle() && i.op !in {MMUL, VADD, VMUL, VCONV, VCONV_F16_I32, VRESID} && |x| == ChainedBytes(i)
    requires Compute(u, i, x, y).Gives?
    ensures |Compute(u, i, x, y).v| == WrittenBytes(i)
  {
    hide Instr.Get, SfuCount, ParamsOf;
  }

  // An instruction writes as many bytes as its operands announce.
  lemma WritesWhatItSays(u: Units, i: Instr, x: seq<byte>, y: seq<byte>)
    requires u.Wf() && !i.Idle() && |x| == ChainedBytes(i) && |y| <= SideBytes(i)
    requires Compute(u, i, x, y).Gives?
    ensures i.op != VRESID || |y| == SideBytes(i) ==> |Compute(u, i, x, y).v| == WrittenBytes(i)
  {
    hide Compute, WrittenBytes, ChainedBytes, SideBytes;
    if i.op == MMUL {
      MatrixWrites(u, i, x, y);
    } else if i.op in {VADD, VMUL, VCONV, VCONV_F16_I32, VRESID} {
      VectorWrites(u, i, x, y);
    } else {
      UnitWrites(u, i, x, y);
    }
  }

  // The MMUL case is the instruction of module Mmul.
  lemma MmulStepIsStep(u: Units, mem: seq<byte>, i: Instr)
    requires i.op == MMUL
    ensures Step(u, mem, i) ==
      match MmulStep(u.wide, mem, i.M(), i.K(), i.N(), ChainedAddr(i), SideAddr(i), WriteAddr(i))
      case Next(m) => Ran(m)
      case _ => Raised
  {
    MulSign(i.M(), i.K());
    MulSign(i.K(), i.N());
    var act := Slice(mem, ChainedAddr(i), ChainedBytes(i));
    var w := Weights(mem, SideAddr(i), i.K() * i.N());
    assert Int8s(act) == Activations(mem, ChainedAddr(i), ChainedBytes(i));
    assert w == Unpack(Slice(mem, SideAddr(i), SideBytes(i)));
    var p := Product(u.wide, Int8s(act), w, i.M(), i.K(), i.N());
    assert Compute(u, i, act, Slice(mem, SideAddr(i), SideBytes(i))) == Gives(Block(p));
  }
}
