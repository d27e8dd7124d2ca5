// The dtype-converter pass: between adjacent instructions whose types disagree
// it inserts conversions through scratch memory and redirects the consumer.
// What the expanded program computes is in OpChainMeaning.dfy.
module OpChain {
  import opened Arithmetic
  import opened Options
  import opened Isa

  datatype DType = Int8 | Fp16 | Int32

  function InputType(op: OpCode): Option<DType> {
    match op
    case MMUL => Some(Int8)
    case VADD => Some(Int32)
    case VMUL => Some(Int32)
    case VRED_MAX => Some(Int32)
    case VRED_SUM => Some(Int32)
    case VCONV => Some(Int32)
    case VRESID => Some(Int32)
    case NOP => None
    case BARRIER => None
    case KV_LOAD => None
    case KV_STORE => None
    case _ => Some(Fp16)
  }

  function OutputType(op: OpCode): Option<DType> {
    match op
    case MMUL => Some(Int32)
    case VADD => Some(Int32)
    case VMUL => Some(Int32)
    case VCONV_F16_I32 => Some(Int32)
    case VRESID => Some(Int32)
    case NOP => None
    case BARRIER => None
    case KV_LOAD => None
    case KV_STORE => None
    case _ => Some(Fp16)
  }

  // The type in which the instruction really reads its chained operand.
  function ReadType(op: OpCode): Option<DType> {
    match op
    case MMUL => Some(Int8)
    case VADD => Some(Int32)
    case VMUL => Some(Int32)
    case VCONV => Some(Int32)
    case VRESID => Some(Int32)
    case NOP => None
    case BARRIER => None
    case KV_LOAD => None
    case KV_STORE => None
    case _ => Some(Fp16)
  }

  // The table is right about every opcode except the two reductions.
  lemma TableMatchesReads(op: OpCode)
    ensures InputType(op) == ReadType(op) <==> op != VRED_MAX && op != VRED_SUM
  {
  }

  // `da or oa`: a `da` of zero counts as missing, an `oa` of zero does not.
  function DstAddr(i: Instr): Option<nat> {
    if "da" in i.operands && i.operands["da"] != 0 then Some(i.operands["da"])
    else if "oa" in i.operands then Some(i.operands["oa"])
    else None
  }

  // When the address the pass takes for the result is where the result goes.
  lemma DstAddrIsWriteAddr(i: Instr)
    ensures DstAddr(i) == Some(WriteAddr(i)) <==>
              if "da" in i.operands && i.operands["da"] != 0 then i.op == MMUL ==> i.operands["da"] == i.Get("oa", 0)
              else "oa" in i.operands && (i.op == MMUL || i.operands["oa"] == 0)
  {
  }

  function SetSrc(i: Instr, addr: nat): Instr {
    match i.op
    case MMUL => i.(operands := i.operands["ia" := addr])
    case VRESID => i.(operands := i.operands["sb" := addr])
    case _ => i.(operands := i.operands["sa" := addr])
  }

  // How many elements the pass believes an instruction produces; a missing
  // `len` counts as 0 here, while execution takes it as 2560.
  function ElementCount(i: Instr): nat {
    match i.op
    case MMUL => MulSign(i.M(), i.N()); i.M() * i.N()
    case RMSNORM => i.Get("elements", 0)
    case _ => i.Get("len", 0)
  }

  function RoundUp64(n: nat): nat {
    (n + 63) / 64 * 64
  }

  datatype Item = Run(i: Instr) | Int8Clip(src: nat, dst: nat, length: nat)

  datatype Kind = Direct | ToFp16 | ToInt32 | ToInt8 | Unsupported

  function KindOf(prev: OpCode, next: OpCode): Kind {
    var o, i := OutputType(prev), InputType(next);
    if o == None || i == None || o == i then Direct
    else if o == Some(Int32) && i == Some(Fp16) then ToFp16
    else if o == Some(Fp16) && i == Some(Int32) then ToInt32
    else if o == Some(Fp16) && i == Some(Int8) then ToInt8
    else Unsupported
  }

  function Conv(op: OpCode, src: nat, dst: nat, length: nat): Instr {
    Instr(op, map["sa" := src, "da" := dst, "len" := length])
  }

  // The items inserted for one instruction, and the scratch they take.
  function Bridge(kind: Kind, i: Instr, src: nat, length: nat, scratch: nat): seq<Item> {
    match kind
    case ToFp16 => [Run(Conv(VCONV, src, scratch, length)), Run(SetSrc(i, scratch))]
    case ToInt32 => [Run(Conv(VCONV_F16_I32, src, scratch, length)), Run(SetSrc(i, scratch))]
    case ToInt8 =>
      var slot8 := scratch + RoundUp64(length * 4);
      [Run(Conv(VCONV_F16_I32, src, scratch, length)), Int8Clip(scratch, slot8, length), Run(SetSrc(i, slot8))]
    case _ => [Run(i)]
  }

  function Taken(kind: Kind, length: nat): nat {
    match kind
    case ToFp16 => RoundUp64(length * 2)
    case ToInt32 => RoundUp64(length * 4)
    case ToInt8 => RoundUp64(length * 4) + RoundUp64(length)
    case _ => 0
  }

  function Expand(prev: Instr, rest: seq<Instr>, scratch: nat): Option<seq<Item>>
    decreases |rest|
  {
    if rest == [] then Some([]) else
    var i := rest[0];
    var kind := KindOf(prev.op, i.op);
    if kind == Direct then
      match Expand(i, rest[1..], scratch)
      case None => None
      case Some(items) => Some([Run(i)] + items)
    else if DstAddr(prev) == None || kind == Unsupported then None
    else
      match Expand(i, rest[1..], scratch + Taken(kind, ElementCount(prev)))
      case None => None
      case Some(items) => Some(Bridge(kind, i, DstAddr(prev).value, ElementCount(prev), scratch) + items)
  }

  function Insert(program: seq<Instr>, scratch: nat): Option<seq<Item>> {
    if program == [] then Some([]) else
    match Expand(program[0], program[1..], scratch)
    case None => None
    case Some(items) => Some([Run(program[0])] + items)
  }

  function Joined(front: seq<Item>, back: Option<seq<Item>>): Option<seq<Item>> {
    match back
    case None => None
    case Some(items) => Some(front + items)
  }

  // After n instructions, what is still to be expanded completes the result.
  ghost predicate Built(program: seq<Instr>, base: nat, n: nat, expanded: seq<Item>, scratch: nat)
    requires n <= |program|
  {
    if n == 0 then expanded == [] && scratch == base
    else Insert(program, base) == Joined(expanded, Expand(program[n - 1], program[n..], scratch))
  }

  lemma BuiltStep(program: seq<Instr>, base: nat, n: nat, expanded: seq<Item>, scratch: nat)
    requires 0 < n < |program| && Built(program, base, n, expanded, scratch)
    ensures var prev, i := program[n - 1], program[n];
            var kind := KindOf(prev.op, i.op);
            if kind == Direct then Built(program, base, n + 1, expanded + [Run(i)], scratch)
            else if DstAddr(prev) == None || kind == Unsupported then Insert(program, base) == None
            else Built(program, base, n + 1,
              expanded + Bridge(kind, i, DstAddr(prev).value, ElementCount(prev), scratch),
                       scratch + Taken(kind, ElementCount(prev)))
  {
    var prev, i := program[n - 1], program[n];
    var kind := KindOf(prev.op, i.op);
    assert program[n..][0] == i && program[n..][1..] == program[n + 1..];
    var bridge := if kind == Direct || DstAddr(prev) == None then [Run(i)]
                  else Bridge(kind, i, DstAddr(prev).value, ElementCount(prev), scratch);
    forall items: seq<Item> ensures expanded + (bridge + items) == expanded + bridge + items {}
  }

  // The pass itself, one instruction at a time.
  method InsertDtypeConverters(program: seq<Instr>, scratchBase: nat) returns (r: Option<seq<Item>>)
    ensures r == Insert(program, scratchBase)
  {
    var expanded: seq<Item> := [];
    var scratch: nat := scratchBase;
    var n := 0;
    while n < |program|
      invariant n <= |program| && Built(program, scratchBase, n, expanded, scratch)
    {
      var i := program[n];
      if n == 0 {
        expanded := [Run(i)];
      } else {
        BuiltStep(program, scratchBase, n, expanded, scratch);
        var prev := program[n - 1];
        var kind := KindOf(prev.op, i.op);
        if kind == Direct {
          expanded := expanded + [Run(i)];
        } else {
          if DstAddr(prev) == None || kind == Unsupported {
            return None;
          }
          expanded := expanded + Bridge(kind, i, DstAddr(prev).value, ElementCount(prev), scratch);
          scratch := scratch + Taken(kind, ElementCount(prev));
        }
      }
      n := n + 1;
    }
    assert program[n..] == [] && expanded + [] == expanded;
    return Some(expanded);
  }

  function Width(t: DType): nat {
    match t
    case Int8 => 1
    case Fp16 => 2
    case Int32 => 4
  }

  // How many elements an instruction writes, and how many it reads of its chained operand.
  function Produced(i: Instr): int {
    match i.op
    case MMUL => i.M() * i.N()
    case VADD => i.Len()
    case VMUL => i.Len()
    case VCONV => i.Len()
    case VCONV_F16_I32 => i.Len()
    case VRESID => i.Len()
    case _ => SfuCount(i.op, ParamsOf(i), ChainedBytes(i) / 2)
  }

  function Consumed(i: Instr): int {
    match i.op
    case MMUL => i.M() * i.K()
    case VADD => 2 * i.Len()
    case VMUL => 2 * i.Len()
    case RMSNORM => i.Get("elements", 0)
    case MAXPOOL => i.Area()
    case AVGPOOL => i.Area()
    case _ => i.Len()
  }

  // The types of the table are those of what goes in and out: the bytes an
  // instruction writes, and those it reads of its chained operand, are whole
  // elements of them.
  lemma TypesAreWidths(i: Instr)
    ensures OutputType(i.op).None? <==> i.Idle()
    ensures OutputType(i.op).Some? ==> WrittenBytes(i) == Width(OutputType(i.op).value) * Produced(i)
    ensures ReadType(i.op).None? <==> i.Idle()
    ensures ReadType(i.op).Some? ==> ChainedBytes(i) == Width(ReadType(i.op).value) * Consumed(i)
  {
    hide SfuCount, ParamsOf, Instr.M, Instr.K, Instr.N, Instr.Len, Instr.Area, Instr.Get;
  }

  // No more scratch is taken than alignment asks for.
  lemma RoundUpIsLeast(n: nat, m: nat)
    requires m >= n && m % 64 == 0
    ensures n <= RoundUp64(n) <= m && RoundUp64(n) % 64 == 0
  {
  }

  // The count the pass goes by is what the instruction writes, except for a missing
  // `len`, and for the opcodes that change the number of elements.
  lemma CountExactly(i: Instr)
    requires i.op !in {ROPE, MAXPOOL, AVGPOOL, VRED_MAX, VRED_SUM} && !i.Idle()
    ensures ElementCount(i) == Produced(i) <==> i.op == MMUL || i.op == RMSNORM || "len" in i.operands
  {
    hide Instr.M, Instr.N, Instr.K, Instr.Area;
  }
}
