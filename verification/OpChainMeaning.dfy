// Why the inserted converters are right: running the expanded program agrees,
// outside scratch, with running the original one where every mismatched
// consumer reads its operand through a typed conversion.
module OpChainMeaning {
  import opened Memory
  import opened Mxu
  import opened Mmul
  import opened Isa
  import opened OpChain
  import opened Options

  // ---- running the expanded program ----

  function Clipped(v: seq<int>): (r: seq<int>)
    ensures |r| == |v|
  {
    seq(|v|, i requires 0 <= i < |v| => Clip(v[i], -128, 127))
  }

  function RunItem(u: Units, mem: seq<byte>, item: Item): Ran {
    match item
    case Run(i) => Step(u, mem, i)
    case Int8Clip(src, dst, length) =>
      if src + 4 * length > |mem| || dst + length > |mem| then Raised
      else Ran(Splice(mem, dst, Int8Bytes(Clipped(Int32s(mem[src..src + 4 * length])))))
  }

  function RunAll(u: Units, mem: seq<byte>, items: seq<Item>): Ran
    decreases |items|
  {
    if items == [] then Ran(mem) else
    match RunItem(u, mem, items[0])
    case Raised => Raised
    case Ran(m) => RunAll(u, m, items[1..])
  }

  lemma {:induction false} RunAllJoins(u: Units, mem: seq<byte>, front: seq<Item>, back: seq<Item>)
    ensures RunAll(u, mem, front + back) ==
            match RunAll(u, mem, front) case Raised => Raised case Ran(m) => RunAll(u, m, back)
    decreases |front|
  {
    if front == [] {
      assert front + back == back;
    } else {
      assert (front + back)[1..] == front[1..] + back;
      match RunItem(u, mem, front[0])
      case Raised =>
      case Ran(m) => RunAllJoins(u, m, front[1..], back);
    }
  }

  // ---- running the original program with typed operand reads ----

  // Which conversion is chosen: none for instructions without types or of equal ones,
  // otherwise one from the type that is written to the type that is read; from int32
  // to int8 there is none.
  lemma ConvertsBetweenTypes(prev: OpCode, next: OpCode, n: nat)
    ensures var kind, o, i := KindOf(prev, next), OutputType(prev), InputType(next);
            && (kind == Direct <==> o.None? || i.None? || o == i)
            && (kind == Unsupported <==> o == Some(Int32) && i == Some(DType.Int8))
            && (Converts(kind) ==>
                  && o.Some? && i.Some?
                  && SrcBytes(kind, n) == Width(o.value) * n && DstBytes(kind, n) == Width(i.value) * n)
  {
  }

  // Bytes of n elements before and after a conversion.
  function SrcBytes(kind: Kind, n: nat): nat {
    if kind == ToFp16 then 4 * n else 2 * n
  }

  function DstBytes(kind: Kind, n: nat): nat {
    match kind
    case ToFp16 => 2 * n
    case ToInt32 => 4 * n
    case _ => n
  }

  predicate Converts(kind: Kind) {
    kind == ToFp16 || kind == ToInt32 || kind == ToInt8
  }

  // A buffer of one type as a buffer of another.
  function Converted(u: Units, kind: Kind, b: seq<byte>): seq<byte> {
    match kind
    case ToFp16 => HalfBlock(ToHalves(u, Int32s(b)))
    case ToInt32 => Block(ToInt32s(u, Halves(b)))
    case _ => Int8Bytes(Clipped(ToInt32s(u, Halves(b))))
  }

  // How many elements of the converted type the consumer reads.
  function Elements(kind: Kind, i: Instr): nat {
    match kind
    case ToFp16 => ChainedBytes(i) / 2
    case ToInt32 => ChainedBytes(i) / 4
    case _ => ChainedBytes(i)
  }

  function TypedStep(u: Units, mem: seq<byte>, prev: OpCode, i: Instr): Ran {
    var kind := KindOf(prev, i.op);
    if !Converts(kind) then Step(u, mem, i) else
    var n := SrcBytes(kind, Elements(kind, i));
    if ChainedAddr(i) + n > |mem| then Raised
    else Apply(u, mem, i, Converted(u, kind, mem[ChainedAddr(i)..ChainedAddr(i) + n]))
  }

  function TypedRest(u: Units, mem: seq<byte>, prev: OpCode, rest: seq<Instr>): Ran
    decreases |rest|
  {
    if rest == [] then Ran(mem) else
    match TypedStep(u, mem, prev, rest[0])
    case Raised => Raised
    case Ran(m) => TypedRest(u, m, rest[0].op, rest[1..])
  }

  function TypedRun(u: Units, mem: seq<byte>, program: seq<Instr>): Ran {
    if program == [] then Ran(mem) else
    match Step(u, mem, program[0])
    case Raised => Raised
    case Ran(m) => TypedRest(u, m, program[0].op, program[1..])
  }

  // ---- what the pass supports ----

  predicate Disjoint(a: nat, n: nat, lo: nat, hi: nat) {
    n == 0 || a + n <= lo || hi <= a
  }

  // The operands an instruction reads from memory as they are stay clear of scratch.
  predicate ReadsClear(i: Instr, kind: Kind, lo: nat, hi: nat) {
    !i.Idle() ==>
      && (!Converts(kind) ==> Disjoint(ChainedAddr(i), ChainedBytes(i), lo, hi))
      && Disjoint(SideAddr(i), SideBytes(i), lo, hi)
  }

  // A link of a linear chain: the consumer reads where the producer wrote, no
  // more elements than the producer announces, from memory outside scratch.
  predicate Link(prev: Instr, i: Instr, kind: Kind, lo: nat, hi: nat, size: nat) {
    var count := ElementCount(prev);
    && DstAddr(prev) == Some(ChainedAddr(i))
    && i.op != VRED_MAX && i.op != VRED_SUM
    && Elements(kind, i) <= count
    && ChainedAddr(i) + SrcBytes(kind, count) <= size
    && Disjoint(ChainedAddr(i), SrcBytes(kind, count), lo, hi)
  }

  predicate SupportedRest(prev: Instr, rest: seq<Instr>, scratch: nat, lo: nat, hi: nat, size: nat)
    decreases |rest|
  {
    if rest == [] then lo <= scratch <= hi <= size else
    var i := rest[0];
    var kind := KindOf(prev.op, i.op);
    && kind != Unsupported
    && ReadsClear(i, kind, lo, hi)
    && (Converts(kind) ==> Link(prev, i, kind, lo, hi, size))
    && SupportedRest(i, rest[1..],
         if kind == Direct then scratch else scratch + Taken(kind, ElementCount(prev)), lo, hi, size)
  }

  // Scratch is [lo, hi), allocated from lo upwards.
  predicate Supported(program: seq<Instr>, lo: nat, hi: nat, size: nat) {
    program != [] ==>
      ReadsClear(program[0], Direct, lo, hi) && SupportedRest(program[0], program[1..], lo, lo, hi, size)
  }

  // ---- memories that agree outside scratch ----

  ghost predicate Same(a: seq<byte>, b: seq<byte>, lo: nat, hi: nat) {
    |a| == |b| && forall i :: 0 <= i < |a| && !(lo <= i < hi) ==> a[i] == b[i]
  }

  ghost predicate Agree(a: Ran, b: Ran, lo: nat, hi: nat) {
    (a.Raised? <==> b.Raised?) && (a.Ran? ==> Same(a.mem, b.mem, lo, hi))
  }

  lemma SliceSame(a: seq<byte>, b: seq<byte>, lo: nat, hi: nat, from: nat, n: nat)
    requires Same(a, b, lo, hi) && Disjoint(from, n, lo, hi)
    ensures Slice(a, from, n) == Slice(b, from, n)
  {
  }

  lemma SpliceSame(a: seq<byte>, b: seq<byte>, lo: nat, hi: nat, at: nat, v: seq<byte>)
    requires Same(a, b, lo, hi) && at + |v| <= |a|
    ensures Same(Splice(a, at, v), Splice(b, at, v), lo, hi)
  {
  }

  lemma ScratchWrite(a: seq<byte>, b: seq<byte>, lo: nat, hi: nat, at: nat, v: seq<byte>)
    requires Same(a, b, lo, hi) && lo <= at && at + |v| <= hi <= |a|
    ensures Same(Splice(a, at, v), b, lo, hi)
  {
  }

  // Redirecting the chained operand changes nothing else about an instruction.
  lemma SetSrcKeeps(u: Units, i: Instr, addr: nat)
    requires !i.Idle()
    ensures var j := SetSrc(i, addr);
            && j.op == i.op && ChainedAddr(j) == addr && ChainedBytes(j) == ChainedBytes(i)
            && SideAddr(j) == SideAddr(i) && SideBytes(j) == SideBytes(i) && WriteAddr(j) == WriteAddr(i)
            && forall x, y :: Compute(u, j, x, y) == Compute(u, i, x, y)
  {
    var j := SetSrc(i, addr);
    assert "ia"[0] == 'i' && "sb"[0] == 's' && "sa"[0] == 's' && "sb"[1] == 'b' && "sa"[1] == 'a';
    assert "wa"[0] == 'w' && "oa"[0] == 'o' && "da"[0] == 'd' && "M"[0] == 'M' && "K"[0] == 'K' && "N"[0] == 'N';
    assert "len"[0] == 'l' && "elements"[0] == 'e' && "pos"[0] == 'p' && "H"[0] == 'H' && "W"[0] == 'W';
    assert j.M() == i.M() && j.K() == i.K() && j.N() == i.N() && j.Len() == i.Len();
    assert ParamsOf(j) == ParamsOf(i) && j.Get("elements", 0) == i.Get("elements", 0);
  }

  lemma ApplySame(u: Units, a: seq<byte>, b: seq<byte>, lo: nat, hi: nat, i: Instr, j: Instr, x: seq<byte>)
    requires Same(a, b, lo, hi) && Disjoint(SideAddr(i), SideBytes(i), lo, hi)
    requires j.op == i.op && SideAddr(j) == SideAddr(i) && SideBytes(j) == SideBytes(i) && WriteAddr(j) == WriteAddr(i)
    requires forall x, y :: Compute(u, j, x, y) == Compute(u, i, x, y)
    ensures Agree(Apply(u, a, j, x), Apply(u, b, i, x), lo, hi)
  {
    SliceSame(a, b, lo, hi, SideAddr(i), SideBytes(i));
    match Compute(u, i, x, Slice(b, SideAddr(i), SideBytes(i)))
    case Raises =>
    case Gives(v) =>
      if WriteAddr(i) + |v| <= |a| {
        SpliceSame(a, b, lo, hi, WriteAddr(i), v);
      }
  }

  lemma DirectStep(u: Units, a: seq<byte>, b: seq<byte>, lo: nat, hi: nat, i: Instr)
    requires Same(a, b, lo, hi) && ReadsClear(i, Direct, lo, hi)
    ensures Agree(Step(u, a, i), Step(u, b, i), lo, hi)
  {
    if !i.Idle() {
      SliceSame(a, b, lo, hi, ChainedAddr(i), ChainedBytes(i));
      ApplySame(u, a, b, lo, hi, i, i, Slice(a, ChainedAddr(i), ChainedBytes(i)));
    }
  }

  // ---- conversions ----

  // Conversion works element by element, so it commutes with taking a prefix.
  lemma Int32sPrefix(b: seq<byte>, n: nat)
    requires 4 * n <= |b|
    ensures Int32s(b[..4 * n]) == Int32s(b)[..n]
  {
    forall i | 0 <= i < n ensures Int32s(b[..4 * n])[i] == Int32s(b)[i] {
      assert b[..4 * n][4 * i..4 * i + 4] == b[4 * i..4 * i + 4];
    }
  }

  lemma HalvesPrefix(b: seq<byte>, n: nat)
    requires 2 * n <= |b|
    ensures Halves(b[..2 * n]) == Halves(b)[..n]
  {
  }

  lemma BlocksPrefix(v: seq<int>, h: seq<half>, n: nat)
    ensures n <= |v| ==> Block(v[..n]) == Block(v)[..4 * n] && Int8Bytes(v[..n]) == Int8Bytes(v)[..n]
    ensures n <= |h| ==> HalfBlock(h[..n]) == HalfBlock(h)[..2 * n]
  {
    if n <= |v| {
      assert forall i :: 0 <= i < 4 * n ==> Block(v[..n])[i] == Block(v)[i];
    }
  }

  lemma ConvertedPrefix(u: Units, kind: Kind, b: seq<byte>, count: nat, n: nat)
    requires Converts(kind) && |b| == SrcBytes(kind, count) && n <= count
    ensures SrcBytes(kind, n) <= |b| && DstBytes(kind, n) <= |Converted(u, kind, b)|
    ensures Converted(u, kind, b)[..DstBytes(kind, n)] == Converted(u, kind, b[..SrcBytes(kind, n)])
  {
    match kind
    case ToFp16 =>
      var v := ToHalves(u, Int32s(b));
      Int32sPrefix(b, n);
      assert ToHalves(u, Int32s(b)[..n]) == v[..n];
      BlocksPrefix([], v, n);
    case ToInt32 =>
      var v := ToInt32s(u, Halves(b));
      HalvesPrefix(b, n);
      assert ToInt32s(u, Halves(b)[..n]) == v[..n];
      BlocksPrefix(v, [], n);
    case ToInt8 =>
      var v := ToInt32s(u, Halves(b));
      HalvesPrefix(b, n);
      assert ToInt32s(u, Halves(b)[..n]) == v[..n];
      assert Clipped(v[..n]) == Clipped(v)[..n];
      BlocksPrefix(Clipped(v), [], n);
  }

  lemma ConvOperands(op: OpCode, src: nat, dst: nat, count: nat)
    requires op == VCONV || op == VCONV_F16_I32
    ensures var i := Conv(op, src, dst, count);
            && i.op == op && !i.Idle() && ChainedAddr(i) == src && WriteAddr(i) == dst && SideBytes(i) == 0
            && ChainedBytes(i) == (if op == VCONV then 4 * count else 2 * count)
            && WrittenBytes(i) == if op == VCONV then 2 * count else 4 * count
  {
    assert "sa"[0] != "da"[0] && "sa"[0] != "len"[0] && "da"[0] != "len"[0];
  }

  lemma OneOperandStep(u: Units, mem: seq<byte>, i: Instr, v: seq<byte>)
    requires !i.Idle() && i.op != MMUL && i.op != VRESID && SideBytes(i) == 0
    requires ChainedAddr(i) + ChainedBytes(i) <= |mem| && WriteAddr(i) + |v| <= |mem|
    requires Compute(u, i, mem[ChainedAddr(i)..ChainedAddr(i) + ChainedBytes(i)], []) == Gives(v)
    ensures Step(u, mem, i) == Ran(Splice(mem, WriteAddr(i), v))
  {
    assert Slice(mem, SideAddr(i), 0) == [];
  }

  // The inserted conversion instruction writes the converted buffer.
  lemma ConvToFp16(u: Units, mem: seq<byte>, src: nat, dst: nat, count: nat)
    requires src + 4 * count <= |mem| && dst + 2 * count <= |mem|
    ensures var v := Converted(u, ToFp16, mem[src..src + 4 * count]);
            |v| == 2 * count && Step(u, mem, Conv(VCONV, src, dst, count)) == Ran(Splice(mem, dst, v))
  {
    ConvOperands(VCONV, src, dst, count);
    OneOperandStep(u, mem, Conv(VCONV, src, dst, count), Converted(u, ToFp16, mem[src..src + 4 * count]));
  }

  lemma ConvToInt32(u: Units, mem: seq<byte>, src: nat, dst: nat, count: nat)
    requires src + 2 * count <= |mem| && dst + 4 * count <= |mem|
    ensures var v := Converted(u, ToInt32, mem[src..src + 2 * count]);
            |v| == 4 * count && Step(u, mem, Conv(VCONV_F16_I32, src, dst, count)) == Ran(Splice(mem, dst, v))
  {
    hide Step, Conv, Splice, Halves, Block;
    ConvOperands(VCONV_F16_I32, src, dst, count);
    OneOperandStep(u, mem, Conv(VCONV_F16_I32, src, dst, count), Converted(u, ToInt32, mem[src..src + 2 * count]));
  }

  // Going through an int32 buffer and the int8 clip is the direct conversion.
  lemma ClipItem(u: Units, mem: seq<byte>, b: seq<byte>, src: nat, dst: nat, count: nat)
    requires u.Wf() && |b| == 2 * count && src + 4 * count <= |mem| && dst + count <= |mem|
    requires mem[src..src + 4 * count] == Converted(u, ToInt32, b)
    ensures |Converted(u, ToInt8, b)| == count
    ensures RunItem(u, mem, Int8Clip(src, dst, count)) == Ran(Splice(mem, dst, Converted(u, ToInt8, b)))
  {
    hide Int32s, Halves, Block, Splice, Slice, Clipped, Int8Bytes;
    Int32sOfBlock(ToInt32s(u, Halves(b)));
  }

  // ---- one link ----

  // A consumer reading the front of a converted buffer placed in scratch does
  // what the typed step does.
  lemma Redirected(u: Units, a: seq<byte>, b: seq<byte>, lo: nat, hi: nat, i: Instr, kind: Kind, slot: nat, count: nat)
    requires u.Wf() && !i.Idle() && Converts(kind) && Same(a, b, lo, hi) && Disjoint(SideAddr(i), SideBytes(i), lo, hi)
    requires DstBytes(kind, Elements(kind, i)) == ChainedBytes(i) && Elements(kind, i) <= count
    requires ChainedAddr(i) + SrcBytes(kind, count) <= |b|
    requires var v := Converted(u, kind, b[ChainedAddr(i)..ChainedAddr(i) + SrcBytes(kind, count)]);
             slot + |v| <= |a| && a[slot..slot + |v|] == v
    ensures ChainedAddr(i) + SrcBytes(kind, Elements(kind, i)) <= |b|
    ensures var x := Converted(u, kind, b[ChainedAddr(i)..ChainedAddr(i) + SrcBytes(kind, Elements(kind, i))]);
            Agree(Step(u, a, SetSrc(i, slot)), Apply(u, b, i, x), lo, hi)
  {
    hide Isa.Compute, Isa.SideBytes, Isa.SideAddr, Isa.ChainedBytes, Isa.ChainedAddr, SetSrc, Converted, Disjoint,
      Apply, Elements;
    var n := Elements(kind, i);
    var src := b[ChainedAddr(i)..ChainedAddr(i) + SrcBytes(kind, count)];
    var v := Converted(u, kind, src);
    SetSrcKeeps(u, i, slot);
    ConvertedPrefix(u, kind, src, count, n);
    assert src[..SrcBytes(kind, n)] == b[ChainedAddr(i)..ChainedAddr(i) + SrcBytes(kind, n)];
    assert a[slot..slot + ChainedBytes(i)] == v[..DstBytes(kind, n)];
    ApplySame(u, a, b, lo, hi, i, SetSrc(i, slot), v[..DstBytes(kind, n)]);
  }

  // A typed operand is read in whole elements, off the two reductions.
  lemma WholeReads(i: Instr)
    requires i.op != VRED_MAX && i.op != VRED_SUM && InputType(i.op).Some?
    ensures !i.Idle()
    ensures InputType(i.op) == Some(Fp16) ==> ChainedBytes(i) % 2 == 0
    ensures InputType(i.op) == Some(Int32) ==> ChainedBytes(i) % 4 == 0
  {
    hide ChainedBytes, Consumed, ReadType, InputType, Instr.Idle;
    TableMatchesReads(i.op);
    TypesAreWidths(i);
    WholeMultiple(Consumed(i));
  }

  lemma WholeMultiple(n: int)
    ensures 2 * n % 2 == 0 && 4 * n % 4 == 0
  {
  }

  // The consumers of each conversion read whole elements.
  lemma WholeElements(prev: OpCode, i: Instr)
    requires Converts(KindOf(prev, i.op)) && i.op != VRED_MAX && i.op != VRED_SUM
    ensures !i.Idle() && DstBytes(KindOf(prev, i.op), Elements(KindOf(prev, i.op), i)) == ChainedBytes(i)
  {
    WholeReads(i);
    hide ChainedBytes, Instr.Idle;
  }

  lemma RunTwo(u: Units, mem: seq<byte>, x: Item, y: Item, m: seq<byte>)
    requires RunItem(u, mem, x) == Ran(m)
    ensures RunAll(u, mem, [x, y]) == RunItem(u, m, y)
  {
    assert [x, y][1..] == [y] && [y][1..] == [];
    assert RunAll(u, m, [y]) == RunItem(u, m, y);
  }

  lemma RunThree(u: Units, mem: seq<byte>, x: Item, y: Item, z: Item, m: seq<byte>)
    requires RunItem(u, mem, x) == Ran(m)
    ensures RunAll(u, mem, [x, y, z]) == RunAll(u, m, [y, z])
  {
    assert [x, y, z][1..] == [y, z];
  }

  ghost predicate BridgeReady(u: Units, a: seq<byte>, b: seq<byte>, lo: nat, hi: nat, prev: Instr, i: Instr,
                              kind: Kind, scratch: nat)
  {
    && u.Wf() && Same(a, b, lo, hi) && lo <= scratch && scratch + Taken(kind, ElementCount(prev)) <= hi <= |b|
    && kind == KindOf(prev.op, i.op) && Converts(kind)
    && ReadsClear(i, kind, lo, hi) && Link(prev, i, kind, lo, hi, |b|)
  }

  function ConvOp(kind: Kind): OpCode {
    if kind == ToFp16 then VCONV else VCONV_F16_I32
  }

  lemma ConvWrites(u: Units, a: seq<byte>, kind: Kind, src: nat, dst: nat, count: nat)
    requires (kind == ToFp16 || kind == ToInt32) && src + SrcBytes(kind, count) <= |a|
             && dst + DstBytes(kind, count) <= |a|
    ensures var v := Converted(u, kind, a[src..src + SrcBytes(kind, count)]);
            && |v| == DstBytes(kind, count)
            && RunItem(u, a, Run(Conv(ConvOp(kind), src, dst, count))) == Ran(Splice(a, dst, v))
  {
    hide Isa.Step, Converted, Conv;
    if kind == ToFp16 {
      ConvToFp16(u, a, src, dst, count);
    } else {
      ConvToInt32(u, a, src, dst, count);
    }
  }

  lemma SplicedSlot(a: seq<byte>, dst: nat, v: seq<byte>)
    requires dst + |v| <= |a|
    ensures Splice(a, dst, v)[dst..dst + |v|] == v
  {
  }

  // What the conversion instruction leaves in its slot, seen from both memories.
  lemma ConvStepSame(u: Units, a: seq<byte>, b: seq<byte>, lo: nat, hi: nat, kind: Kind, src: nat, dst: nat, count: nat)
    requires (kind == ToFp16 || kind == ToInt32) && Same(a, b, lo, hi)
    requires src + SrcBytes(kind, count) <= |b| && Disjoint(src, SrcBytes(kind, count), lo, hi)
    requires lo <= dst && dst + DstBytes(kind, count) <= hi <= |b|
    ensures var v := Converted(u, kind, b[src..src + SrcBytes(kind, count)]);
            && |v| == DstBytes(kind, count)
            && RunItem(u, a, Run(Conv(ConvOp(kind), src, dst, count))) == Ran(Splice(a, dst, v))
            && Same(Splice(a, dst, v), b, lo, hi)
            && Splice(a, dst, v)[dst..dst + |v|] == v
  {
    hide RunItem, Converted, Disjoint, Conv, Same;
    assert |a| == |b| by { SameSize(a, b, lo, hi); }
    SliceSame(a, b, lo, hi, src, SrcBytes(kind, count));
    ConvWrites(u, a, kind, src, dst, count);
    var v := Converted(u, kind, b[src..src + SrcBytes(kind, count)]);
    SplicedSlot(a, dst, v);
    ScratchWrite(a, b, lo, hi, dst, v);
  }

  lemma SameSize(a: seq<byte>, b: seq<byte>, lo: nat, hi: nat)
    requires Same(a, b, lo, hi)
    ensures |a| == |b|
  {
  }

  lemma TypedStepIs(u: Units, b: seq<byte>, prev: OpCode, i: Instr, kind: Kind)
    requires kind == KindOf(prev, i.op) && Converts(kind)
    requires ChainedAddr(i) + SrcBytes(kind, Elements(kind, i)) <= |b|
    ensures TypedStep(u, b, prev, i)
         == Apply(u, b, i, Converted(u, kind, b[ChainedAddr(i)..ChainedAddr(i) + SrcBytes(kind, Elements(kind, i))]))
  {
    hide Isa.Step, Apply, Compute, Converted, KindOf, Elements, ChainedBytes, ChainedAddr, SideBytes, SideAddr;
  }

  lemma OneConversion(u: Units, a: seq<byte>, b: seq<byte>, lo: nat, hi: nat, prev: Instr, i: Instr, kind: Kind,
                      scratch: nat)
    requires BridgeReady(u, a, b, lo, hi, prev, i, kind, scratch) && (kind == ToFp16 || kind == ToInt32)
    ensures Agree(RunAll(u, a, Bridge(kind, i, ChainedAddr(i), ElementCount(prev), scratch)),
            TypedStep(u, b, prev.op, i), lo, hi)
  {
    hide Isa.Step, Isa.Apply, Isa.Compute, Isa.ChainedBytes, Isa.ChainedAddr, Isa.SideBytes, Isa.SideAddr, KindOf,
         ElementCount, DstAddr, Disjoint, Converted, TypedStep, SetSrc, Conv;
    var count, src := ElementCount(prev), ChainedAddr(i);
    var v := Converted(u, kind, b[src..src + SrcBytes(kind, count)]);
    ConvStepSame(u, a, b, lo, hi, kind, src, scratch, count);
    WholeElements(prev.op, i);
    Redirected(u, Splice(a, scratch, v), b, lo, hi, i, kind, scratch, count);
    TypedStepIs(u, b, prev.op, i, kind);
    RunTwo(u, a, Run(Conv(ConvOp(kind), src, scratch, count)), Run(SetSrc(i, scratch)), Splice(a, scratch, v));
  }

  lemma ClipStepSame(u: Units, a: seq<byte>, b: seq<byte>, lo: nat, hi: nat, x: seq<byte>, src: nat, dst: nat,
                     count: nat)
    requires u.Wf() && Same(a, b, lo, hi) && |x| == 2 * count && src + 4 * count <= |a|
    requires a[src..src + 4 * count] == Converted(u, ToInt32, x)
    requires lo <= dst && dst + count <= hi <= |b|
    ensures var v := Converted(u, ToInt8, x);
            && |v| == count
            && RunItem(u, a, Int8Clip(src, dst, count)) == Ran(Splice(a, dst, v))
            && Same(Splice(a, dst, v), b, lo, hi)
            && Splice(a, dst, v)[dst..dst + |v|] == v
  {
    ClipItem(u, a, x, src, dst, count);
    ScratchWrite(a, b, lo, hi, dst, Converted(u, ToInt8, x));
  }

  lemma TwoConversions(u: Units, a: seq<byte>, b: seq<byte>, lo: nat, hi: nat, prev: Instr, i: Instr, scratch: nat)
    requires BridgeReady(u, a, b, lo, hi, prev, i, ToInt8, scratch)
    ensures Agree(RunAll(u, a, Bridge(ToInt8, i, ChainedAddr(i), ElementCount(prev), scratch)),
            TypedStep(u, b, prev.op, i), lo, hi)
  {
    hide Isa.Step, Isa.Apply, Isa.Compute, Isa.ChainedBytes, Isa.ChainedAddr, Isa.SideBytes, Isa.SideAddr, KindOf,
         ElementCount, DstAddr, Disjoint, Converted, TypedStep, SetSrc, Conv, RunAll, Splice, RoundUp64;
    RoundedUp(ElementCount(prev) * 4);
    RoundedUp(ElementCount(prev));
    var count, src := ElementCount(prev), ChainedAddr(i);
    var slot8 := scratch + RoundUp64(count * 4);
    var x := b[src..src + count * 2];
    ConvStepSame(u, a, b, lo, hi, ToInt32, src, scratch, count);
    var a4 := Splice(a, scratch, Converted(u, ToInt32, x));
    ClipStepSame(u, a4, b, lo, hi, x, scratch, slot8, count);
    var a1 := Splice(a4, slot8, Converted(u, ToInt8, x));
    WholeElements(prev.op, i);
    Redirected(u, a1, b, lo, hi, i, ToInt8, slot8, count);
    TypedStepIs(u, b, prev.op, i, ToInt8);
    RunThree(u, a, Run(Conv(VCONV_F16_I32, src, scratch, count)), Int8Clip(scratch, slot8, count),
      Run(SetSrc(i, slot8)), a4);
    RunTwo(u, a4, Int8Clip(scratch, slot8, count), Run(SetSrc(i, slot8)), a1);
  }

  // ---- the whole program ----

  lemma RunOne(u: Units, mem: seq<byte>, item: Item, rest: seq<Item>)
    ensures RunAll(u, mem, [item] + rest) ==
            match RunItem(u, mem, item)
            case Raised => Raised
            case Ran(m) => RunAll(u, m, rest)
  {
    assert ([item] + rest)[1..] == rest;
  }

  lemma {:induction false} ScratchOnlyGrows(prev: Instr, rest: seq<Instr>, scratch: nat, lo: nat, hi: nat, size: nat)
    requires SupportedRest(prev, rest, scratch, lo, hi, size)
    ensures scratch <= hi <= size
    decreases |rest|
  {
    if rest != [] {
      var kind := KindOf(prev.op, rest[0].op);
      ScratchOnlyGrows(rest[0], rest[1..],
        if kind == Direct then scratch else scratch + Taken(kind, ElementCount(prev)), lo, hi, size);
    }
  }

  lemma {:induction false} SupportedExpands(prev: Instr, rest: seq<Instr>, scratch: nat, lo: nat, hi: nat, size: nat)
    requires SupportedRest(prev, rest, scratch, lo, hi, size)
    ensures Expand(prev, rest, scratch).Some?
    decreases |rest|
  {
    hide KindOf, ElementCount, Taken, DstAddr, Elements, Disjoint, ReadsClear, Bridge;
    if rest != [] {
      var kind := KindOf(prev.op, rest[0].op);
      SupportedExpands(rest[0], rest[1..],
        if kind == Direct then scratch else scratch + Taken(kind, ElementCount(prev)), lo, hi, size);
    }
  }

  lemma TypedStepLength(u: Units, b: seq<byte>, prev: OpCode, i: Instr)
    ensures TypedStep(u, b, prev, i).Ran? ==> |TypedStep(u, b, prev, i).mem| == |b|
  {
    hide Isa.Compute, Isa.ChainedBytes, Isa.ChainedAddr, Isa.SideBytes, Isa.SideAddr, KindOf, Converted, Elements;
  }

  // The items of one instruction against its typed step, whatever the kind.
  lemma BridgeAgrees(u: Units, a: seq<byte>, b: seq<byte>, lo: nat, hi: nat, prev: Instr, i: Instr, scratch: nat)
    requires u.Wf() && Same(a, b, lo, hi) && lo <= scratch && KindOf(prev.op, i.op) != Unsupported
    requires scratch + Taken(KindOf(prev.op, i.op), ElementCount(prev)) <= hi <= |b|
    requires ReadsClear(i, KindOf(prev.op, i.op), lo, hi)
    requires Converts(KindOf(prev.op, i.op)) ==> Link(prev, i, KindOf(prev.op, i.op), lo, hi, |b|)
    ensures KindOf(prev.op, i.op) != Direct ==> DstAddr(prev) == Some(ChainedAddr(i))
    ensures Agree(RunAll(u, a, Bridge(KindOf(prev.op, i.op), i, ChainedAddr(i), ElementCount(prev), scratch)),
                  TypedStep(u, b, prev.op, i), lo, hi)
    ensures TypedStep(u, b, prev.op, i).Ran? ==> |TypedStep(u, b, prev.op, i).mem| == |b|
  {
    TypedStepLength(u, b, prev.op, i);
    hide Isa.Step, Isa.Apply, Isa.Compute, Isa.ChainedBytes, Isa.ChainedAddr, Isa.SideBytes, Isa.SideAddr, KindOf,
         ElementCount, DstAddr, Disjoint;
    var kind := KindOf(prev.op, i.op);
    if kind == Direct {
      DirectStep(u, a, b, lo, hi, i);
      RunOne(u, a, Run(i), []);
    } else if kind == ToInt8 {
      TwoConversions(u, a, b, lo, hi, prev, i, scratch);
    } else {
      OneConversion(u, a, b, lo, hi, prev, i, kind, scratch);
    }
  }

  lemma {:induction false} RestAgrees(u: Units, a: seq<byte>, b: seq<byte>, lo: nat, hi: nat, prev: Instr,
                                      rest: seq<Instr>, scratch: nat)
    requires u.Wf() && Same(a, b, lo, hi) && lo <= scratch && SupportedRest(prev, rest, scratch, lo, hi, |b|)
    ensures Expand(prev, rest, scratch).Some?
    ensures Agree(RunAll(u, a, Expand(prev, rest, scratch).value), TypedRest(u, b, prev.op, rest), lo, hi)
    decreases |rest|
  {
    hide Isa.Step, Isa.Apply, Isa.Compute, Isa.ChainedBytes, Isa.ChainedAddr, Isa.SideBytes, Isa.SideAddr, KindOf,
         ElementCount, DstAddr, Link, ReadsClear, TypedStep, RunItem, Disjoint;
    SupportedExpands(prev, rest, scratch, lo, hi, |b|);
    if rest != [] {
      var i := rest[0];
      var kind := KindOf(prev.op, i.op);
      var next := if kind == Direct then scratch else scratch + Taken(kind, ElementCount(prev));
      ScratchOnlyGrows(i, rest[1..], next, lo, hi, |b|);
      SupportedExpands(i, rest[1..], next, lo, hi, |b|);
      BridgeAgrees(u, a, b, lo, hi, prev, i, scratch);
      var bridge := Bridge(kind, i, ChainedAddr(i), ElementCount(prev), scratch);
      var items := Expand(i, rest[1..], next).value;
      assert Expand(prev, rest, scratch).value == bridge + items;
      RunAllJoins(u, a, bridge, items);
      match TypedStep(u, b, prev.op, i)
      case Raised =>
      case Ran(m) => RestAgrees(u, RunAll(u, a, bridge).mem, m, lo, hi, i, rest[1..], next);
    }
  }

  // Converter insertion preserves meaning: the pass succeeds on a supported
  // program, and the expanded program fails exactly when the typed run does,
  // and otherwise leaves every byte outside scratch as the typed run leaves it.
  lemma InsertionPreservesMeaning(u: Units, mem: seq<byte>, program: seq<Instr>, lo: nat, hi: nat)
    requires u.Wf() && Supported(program, lo, hi, |mem|)
    ensures Insert(program, lo).Some?
    ensures Agree(RunAll(u, mem, Insert(program, lo).value), TypedRun(u, mem, program), lo, hi)
  {
    if program != [] {
      SupportedExpands(program[0], program[1..], lo, lo, hi, |mem|);
      var items := Expand(program[0], program[1..], lo).value;
      DirectStep(u, mem, mem, lo, hi, program[0]);
      RunOne(u, mem, Run(program[0]), items);
      match Step(u, mem, program[0])
      case Raised =>
      case Ran(m) => RestAgrees(u, m, m, lo, hi, program[0], program[1..], lo);
    }
  }

  // ---- when the consumer's slot holds its operand ----

  // The inserted items of a bridge: all but the consumer itself.
  function Prepares(kind: Kind, i: Instr, src: nat, count: nat, scratch: nat): (r: seq<Item>)
    ensures Converts(kind) ==>
            Bridge(kind, i, src, count, scratch) == r + [Run(SetSrc(i, SlotOf(kind, count, scratch)))]
  {
    var b := Bridge(kind, i, src, count, scratch);
    b[..|b| - 1]
  }

  // Where the consumer is sent to read.
  function SlotOf(kind: Kind, count: nat, scratch: nat): nat {
    if kind == ToInt8 then scratch + RoundUp64(count * 4) else scratch
  }

  // Source and scratch lie inside a memory of the size, clear of each other, with
  // room for n elements.
  predicate RoomFor(kind: Kind, src: nat, count: nat, scratch: nat, n: nat, size: nat) {
    var most := if n < count then count else n;
    var end := SlotOf(kind, count, scratch) + DstBytes(kind, most);
    && src + SrcBytes(kind, most) <= size && end <= size
    && (src + SrcBytes(kind, most) <= scratch || end <= src)
  }

  // v lies in the slot, and everything behind it is as before.
  ghost predicate Left(m: seq<byte>, mem: seq<byte>, slot: nat, v: seq<byte>) {
    && |m| == |mem| && slot + |v| <= |m| && m[slot..slot + |v|] == v
    && forall k :: slot + |v| <= k < |m| ==> m[k] == mem[k]
  }

  lemma SpliceLeaves(mem: seq<byte>, mid: seq<byte>, slot: nat, v: seq<byte>)
    requires |mid| == |mem| && slot + |v| <= |mem| && forall k :: slot + |v| <= k < |mem| ==> mid[k] == mem[k]
    ensures Left(Splice(mid, slot, v), mem, slot, v)
  {
  }

  lemma PreparedByOne(u: Units, kind: Kind, src: nat, slot: nat, count: nat, mem: seq<byte>)
    requires (kind == ToFp16 || kind == ToInt32) && src + SrcBytes(kind, count) <= |mem|
             && slot + DstBytes(kind, count) <= |mem|
    ensures var r := RunAll(u, mem, [Run(Conv(ConvOp(kind), src, slot, count))]);
            var v := Converted(u, kind, mem[src..src + SrcBytes(kind, count)]);
            r.Ran? && |v| == DstBytes(kind, count) && Left(r.mem, mem, slot, v)
  {
    hide Isa.Step, Converted, Conv, RunItem, Left;
    var only := Run(Conv(ConvOp(kind), src, slot, count));
    ConvWrites(u, mem, kind, src, slot, count);
    SpliceLeaves(mem, mem, slot, Converted(u, kind, mem[src..src + SrcBytes(kind, count)]));
    RunOne(u, mem, only, []);
    assert [only] + [] == [only];
  }

  lemma PreparedByTwo(u: Units, src: nat, slot4: nat, slot: nat, count: nat, mem: seq<byte>)
    requires u.Wf() && src + 2 * count <= |mem| && slot4 + 4 * count <= slot && slot + count <= |mem|
    ensures var r := RunAll(u, mem, [Run(Conv(VCONV_F16_I32, src, slot4, count)), Int8Clip(slot4, slot, count)]);
            var v := Converted(u, ToInt8, mem[src..src + 2 * count]);
            r.Ran? && |v| == count && Left(r.mem, mem, slot, v)
  {
    hide Isa.Step, Converted, Conv, RunItem, Left;
    var x := mem[src..src + 2 * count];
    ConvWrites(u, mem, ToInt32, src, slot4, count);
    var m := Splice(mem, slot4, Converted(u, ToInt32, x));
    SplicedSlot(mem, slot4, Converted(u, ToInt32, x));
    ClipItem(u, m, x, slot4, slot, count);
    SpliceLeaves(mem, m, slot, Converted(u, ToInt8, x));
    RunTwo(u, mem, Run(Conv(VCONV_F16_I32, src, slot4, count)), Int8Clip(slot4, slot, count), m);
  }

  // What the items leave: the converted buffer in the slot, nothing behind it.
  lemma Prepared(u: Units, kind: Kind, i: Instr, src: nat, count: nat, scratch: nat, n: nat, mem: seq<byte>)
    requires u.Wf() && Converts(kind) && RoomFor(kind, src, count, scratch, n, |mem|)
    ensures src + SrcBytes(kind, count) <= |mem|
    ensures var r := RunAll(u, mem, Prepares(kind, i, src, count, scratch));
            var v := Converted(u, kind, mem[src..src + SrcBytes(kind, count)]);
            r.Ran? && |v| == DstBytes(kind, count) && Left(r.mem, mem, SlotOf(kind, count, scratch), v)
  {
    hide Converted, RunAll, Left, Prepares, RoomFor, Conv;
    RoomInside(kind, src, count, scratch, n, |mem|);
    PreparesItems(kind, i, src, count, scratch);
    var slot := SlotOf(kind, count, scratch);
    hide SlotOf;
    if kind == ToInt8 {
      PreparedByTwo(u, src, scratch, slot, count, mem);
    } else {
      PreparedByOne(u, kind, src, scratch, count, mem);
    }
  }

  lemma RoomInside(kind: Kind, src: nat, count: nat, scratch: nat, n: nat, size: nat)
    requires Converts(kind) && RoomFor(kind, src, count, scratch, n, size)
    ensures src + SrcBytes(kind, count) <= size && SlotOf(kind, count, scratch) + DstBytes(kind, count) <= size
    ensures if kind == ToInt8 then scratch + 4 * count <= SlotOf(kind, count, scratch)
            else SlotOf(kind, count, scratch) == scratch
  {
    RoundedUp(count * 4);
    hide RoundUp64;
  }

  lemma PreparesItems(kind: Kind, i: Instr, src: nat, count: nat, scratch: nat)
    requires Converts(kind)
    ensures Prepares(kind, i, src, count, scratch) ==
            if kind == ToInt8 then
              [Run(Conv(VCONV_F16_I32, src, scratch, count)), Int8Clip(scratch, SlotOf(kind, count, scratch), count)]
            else [Run(Conv(ConvOp(kind), src, scratch, count))]
  {
    hide Conv, SetSrc, RoundUp64;
  }

  // After the inserted items the slot holds the converted operand of n elements.
  ghost predicate Holds(u: Units, kind: Kind, i: Instr, src: nat, count: nat, scratch: nat, n: nat, mem: seq<byte>)
    requires RoomFor(kind, src, count, scratch, n, |mem|)
  {
    var r := RunAll(u, mem, Prepares(kind, i, src, count, scratch));
    var slot := SlotOf(kind, count, scratch);
    && r.Ran? && slot + DstBytes(kind, n) <= |r.mem|
    && r.mem[slot..slot + DstBytes(kind, n)] == Converted(u, kind, mem[src..src + SrcBytes(kind, n)])
  }

  lemma EnoughConverted(u: Units, kind: Kind, i: Instr, src: nat, count: nat, scratch: nat, n: nat, mem: seq<byte>)
    requires u.Wf() && Converts(kind) && RoomFor(kind, src, count, scratch, n, |mem|) && n <= count
    ensures Holds(u, kind, i, src, count, scratch, n, mem)
  {
    hide Converted, RunAll, Prepares, SlotOf, RoomFor, SrcBytes, DstBytes, Left;
    Prepared(u, kind, i, src, count, scratch, n, mem);
    var x := mem[src..src + SrcBytes(kind, count)];
    ConvertedPrefix(u, kind, x, count, n);
    assert x[..SrcBytes(kind, n)] == mem[src..src + SrcBytes(kind, n)];
    LeftPrefix(RunAll(u, mem, Prepares(kind, i, src, count, scratch)).mem, mem, SlotOf(kind, count, scratch),
               Converted(u, kind, x), DstBytes(kind, n));
  }

  lemma LeftPrefix(m: seq<byte>, mem: seq<byte>, slot: nat, v: seq<byte>, n: nat)
    requires Left(m, mem, slot, v) && n <= |v|
    ensures slot + n <= |m| && m[slot..slot + n] == v[..n]
  {
    assert m[slot..slot + n] == m[slot..slot + |v|][..n];
  }

  // The byte behind the converted ones is stale: what is asked for there is fixed
  // by the source, what is there is whatever was there before.
  lemma StaleByte(u: Units, kind: Kind, i: Instr, src: nat, count: nat, scratch: nat, n: nat, mem: seq<byte>)
    requires u.Wf() && Converts(kind) && RoomFor(kind, src, count, scratch, n, |mem|) && n > count
    ensures var at := SlotOf(kind, count, scratch) + DstBytes(kind, count);
            && at < |mem| && src + SrcBytes(kind, n) <= |mem| && !(src <= at < src + SrcBytes(kind, n))
            && |Converted(u, kind, mem[src..src + SrcBytes(kind, n)])| == DstBytes(kind, n) > DstBytes(kind, count)
            && (Holds(u, kind, i, src, count, scratch, n, mem) ==>
                mem[at] == Converted(u, kind, mem[src..src + SrcBytes(kind, n)])[DstBytes(kind, count)])
  {
    hide Converted, RunAll, Prepares, SlotOf, RoomFor, SrcBytes, DstBytes, Left, Holds;
    Places(kind, src, count, scratch, n, |mem|);
    Prepared(u, kind, i, src, count, scratch, n, mem);
    var w := Converted(u, kind, mem[src..src + SrcBytes(kind, n)]);
    ConvertedSize(u, kind, mem[src..src + SrcBytes(kind, n)], n);
    if Holds(u, kind, i, src, count, scratch, n, mem) {
      HoldsMeans(u, kind, i, src, count, scratch, n, mem, w);
      Behind(RunAll(u, mem, Prepares(kind, i, src, count, scratch)).mem, mem, SlotOf(kind, count, scratch),
             Converted(u, kind, mem[src..src + SrcBytes(kind, count)]), w);
    }
  }

  lemma HoldsMeans(u: Units, kind: Kind, i: Instr, src: nat, count: nat, scratch: nat, n: nat, mem: seq<byte>,
                   w: seq<byte>)
    requires RoomFor(kind, src, count, scratch, n, |mem|) && src + SrcBytes(kind, n) <= |mem|
    requires w == Converted(u, kind, mem[src..src + SrcBytes(kind, n)]) && |w| == DstBytes(kind, n)
    requires Holds(u, kind, i, src, count, scratch, n, mem)
    ensures var r, slot := RunAll(u, mem, Prepares(kind, i, src, count, scratch)), SlotOf(kind, count, scratch);
            r.Ran? && slot + |w| <= |r.mem| && r.mem[slot..slot + |w|] == w
  {
    hide Converted, RunAll, Prepares, SlotOf, RoomFor, SrcBytes, DstBytes;
  }

  // The slot of n > count elements reaches past the converted ones, and past nothing else.
  lemma Places(kind: Kind, src: nat, count: nat, scratch: nat, n: nat, size: nat)
    requires Converts(kind) && RoomFor(kind, src, count, scratch, n, size) && n > count
    ensures var at := SlotOf(kind, count, scratch) + DstBytes(kind, count);
            && at < size && src + SrcBytes(kind, n) <= size && !(src <= at < src + SrcBytes(kind, n))
            && DstBytes(kind, n) > DstBytes(kind, count)
  {
    RoundedUp(count * 4);
    hide RoundUp64;
  }

  lemma Behind(m: seq<byte>, mem: seq<byte>, slot: nat, v: seq<byte>, w: seq<byte>)
    requires Left(m, mem, slot, v) && |w| > |v| && slot + |w| <= |m| && m[slot..slot + |w|] == w
    ensures slot + |v| < |mem| && mem[slot + |v|] == w[|v|]
  {
    assert m[slot..slot + |w|][|v|] == m[slot + |v|];
  }

  lemma ConvertedSize(u: Units, kind: Kind, b: seq<byte>, n: nat)
    requires Converts(kind) && |b| == SrcBytes(kind, n)
    ensures |Converted(u, kind, b)| == DstBytes(kind, n)
  {
    hide Block, HalfBlock, Int8Bytes, Clipped, ToHalves, ToInt32s, Halves, Int32s;
  }

  // Over all memories of a size: the slot holds the converted operand of the n
  // elements the consumer reads exactly when the producer announces that many.
  lemma HoldsExactly(u: Units, kind: Kind, i: Instr, src: nat, count: nat, scratch: nat, n: nat, size: nat)
    requires u.Wf() && Converts(kind) && RoomFor(kind, src, count, scratch, n, size)
    ensures (forall mem: seq<byte> :: |mem| == size ==> Holds(u, kind, i, src, count, scratch, n, mem)) <==> n <= count
  {
    hide Holds, RoomFor, Converted;
    if n <= count {
      forall mem: seq<byte> | |mem| == size ensures Holds(u, kind, i, src, count, scratch, n, mem) {
        EnoughConverted(u, kind, i, src, count, scratch, n, mem);
      }
    } else {
      var at := SlotOf(kind, count, scratch) + DstBytes(kind, count);
      var a: seq<byte> := seq<byte>(size, _ => 0);
      StaleByte(u, kind, i, src, count, scratch, n, a);
      var b := a[at := 1];
      StaleByte(u, kind, i, src, count, scratch, n, b);
      assert a[src..src + SrcBytes(kind, n)] == b[src..src + SrcBytes(kind, n)];
      assert !(Holds(u, kind, i, src, count, scratch, n, a) && Holds(u, kind, i, src, count, scratch, n, b));
    }
  }

  // Why lengths must be explicit: a producer other than MMUL and RMSNORM without
  // `len`, such as every pooling instruction, counts as producing nothing, and its
  // consumer finds its operand in the slot exactly when it reads nothing either.
  lemma MissingLengthLeavesScratchStale(u: Units, prev: Instr, i: Instr, scratch: nat, size: nat)
    requires u.Wf() && Converts(KindOf(prev.op, i.op))
    requires "len" !in prev.operands && prev.op != MMUL && prev.op != RMSNORM && DstAddr(prev).Some?
    requires var kind := KindOf(prev.op, i.op); RoomFor(kind, DstAddr(prev).value, 0, scratch, Elements(kind, i), size)
    ensures ElementCount(prev) == 0
    ensures var kind, src := KindOf(prev.op, i.op), DstAddr(prev).value;
            (forall mem: seq<byte> :: |mem| == size ==>
               Holds(u, kind, i, src, ElementCount(prev), scratch, Elements(kind, i), mem)) <==> Elements(kind, i) == 0
  {
    var kind := KindOf(prev.op, i.op);
    HoldsExactly(u, kind, i, DstAddr(prev).value, 0, scratch, Elements(kind, i), size);
    hide Holds, RoomFor, KindOf, Elements;
  }

  // ---- scratch slots ----

  datatype Slot = Slot(addr: nat, size: nat)

  // The bytes an item writes.
  function WriteRange(item: Item): Slot {
    match item
    case Run(i) => Slot(WriteAddr(i), WrittenBytes(i))
    case Int8Clip(_, dst, length) => Slot(dst, length)
  }

  function Ranges(items: seq<Item>): (r: seq<Slot>)
    ensures |r| == |items|
  {
    seq(|items|, k requires 0 <= k < |items| => WriteRange(items[k]))
  }

  // The items that the pass adds to what it was given, in order.
  function AddedRest(prev: Instr, rest: seq<Instr>, scratch: nat): seq<Item>
    decreases |rest|
  {
    if rest == [] then [] else
    var i, kind := rest[0], KindOf(prev.op, rest[0].op);
    if !Converts(kind) || DstAddr(prev) == None then AddedRest(i, rest[1..], scratch)
    else Prepares(kind, i, DstAddr(prev).value, ElementCount(prev), scratch)
         + AddedRest(i, rest[1..], scratch + Taken(kind, ElementCount(prev)))
  }

  function Added(program: seq<Instr>, base: nat): seq<Item> {
    if program == [] then [] else AddedRest(program[0], program[1..], base)
  }

  // The item is the instruction, its source perhaps redirected.
  ghost predicate IsInstr(item: Item, i: Instr) {
    item == Run(i) || exists addr :: item == Run(SetSrc(i, addr))
  }

  // The items are the program's instructions and the added items, merged.
  ghost predicate Merged(items: seq<Item>, program: seq<Instr>, added: seq<Item>)
    decreases |items|
  {
    if items == [] then program == [] && added == []
    else
      || (added != [] && items[0] == added[0] && Merged(items[1..], program, added[1..]))
      || (program != [] && IsInstr(items[0], program[0]) && Merged(items[1..], program[1..], added))
  }

  lemma {:induction false} MergeAdded(front: seq<Item>, items: seq<Item>, program: seq<Instr>, added: seq<Item>)
    requires Merged(items, program, added)
    ensures Merged(front + items, program, front + added)
    decreases |front|
  {
    if front == [] {
      assert front + items == items && front + added == added;
    } else {
      MergeAdded(front[1..], items, program, added);
      assert (front + items)[1..] == front[1..] + items && (front + added)[1..] == front[1..] + added;
    }
  }

  lemma MergeInstr(item: Item, i: Instr, items: seq<Item>, program: seq<Instr>, added: seq<Item>)
    requires Merged(items, program, added) && IsInstr(item, i)
    ensures Merged([item] + items, [i] + program, added)
  {
    assert ([item] + items)[1..] == items && ([i] + program)[1..] == program;
  }

  lemma BridgeMerges(kind: Kind, i: Instr, src: nat, count: nat, scratch: nat, items: seq<Item>, rest: seq<Instr>,
                     added: seq<Item>)
    requires Converts(kind) && Merged(items, rest, added)
    ensures Merged(Bridge(kind, i, src, count, scratch) + items, [i] + rest,
            Prepares(kind, i, src, count, scratch) + added)
  {
    hide Merged, IsInstr, SetSrc;
    var front, own := Prepares(kind, i, src, count, scratch), Run(SetSrc(i, SlotOf(kind, count, scratch)));
    MovedInstr(i, SlotOf(kind, count, scratch));
    MergeInstr(own, i, items, rest, added);
    MergeAdded(front, [own] + items, [i] + rest, added);
    assert Bridge(kind, i, src, count, scratch) + items == front + ([own] + items);
  }

  lemma {:induction false} RestMerges(prev: Instr, rest: seq<Instr>, scratch: nat)
    requires Expand(prev, rest, scratch).Some?
    ensures Merged(Expand(prev, rest, scratch).value, rest, AddedRest(prev, rest, scratch))
    decreases |rest|
  {
    hide KindOf, ElementCount, Taken, SetSrc, Merged, IsInstr, SlotOf, DstAddr, Bridge, Prepares;
    if rest == [] {
      assert Merged([], rest, []) by { NothingMerges(); }
    } else {
      var i, kind, count := rest[0], KindOf(prev.op, rest[0].op), ElementCount(prev);
      assert rest == [i] + rest[1..];
      if kind == Direct {
        RestMerges(i, rest[1..], scratch);
        PlainInstr(i);
        MergeInstr(Run(i), i, Expand(i, rest[1..], scratch).value, rest[1..], AddedRest(i, rest[1..], scratch));
      } else {
        var next := scratch + Taken(kind, count);
        RestMerges(i, rest[1..], next);
        BridgeMerges(kind, i, DstAddr(prev).value, count, scratch, Expand(i, rest[1..], next).value, rest[1..],
          AddedRest(i, rest[1..], next));
      }
    }
  }

  lemma NothingMerges()
    ensures Merged([], [], [])
  {
  }

  lemma PlainInstr(i: Instr)
    ensures IsInstr(Run(i), i)
  {
  }

  lemma MovedInstr(i: Instr, addr: nat)
    ensures IsInstr(Run(SetSrc(i, addr)), i)
  {
    hide SetSrc;
  }

  predicate Aligned(a: nat) {
    a % 64 == 0
  }

  // Aligned, from an address on, and one after the other.
  ghost predicate WellPlaced(s: seq<Slot>, from: nat) {
    && (forall i :: 0 <= i < |s| ==> Aligned(s[i].addr) && s[i].addr >= from)
    && (forall i, j :: 0 <= i < j < |s| ==> s[i].addr + s[i].size <= s[j].addr)
  }

  lemma PlacedJoin(here: seq<Slot>, rest: seq<Slot>, from: nat, mid: nat)
    requires WellPlaced(here, from) && WellPlaced(rest, mid) && from <= mid
    requires forall i :: 0 <= i < |here| ==> here[i].addr + here[i].size <= mid
    ensures WellPlaced(here + rest, from)
  {
    hide Aligned;
  }

  lemma RoundedUp(n: nat)
    ensures RoundUp64(n) >= n && Aligned(RoundUp64(n))
  {
  }

  lemma TakenAligned(kind: Kind, length: nat, scratch: nat)
    requires Aligned(scratch)
    ensures Aligned(scratch + Taken(kind, length)) && Aligned(scratch + RoundUp64(length * 4))
  {
    hide RoundUp64, Aligned;
    var a, b, c := RoundUp64(length), RoundUp64(length * 2), RoundUp64(length * 4);
    RoundedUp(length);
    RoundedUp(length * 2);
    RoundedUp(length * 4);
    AddAligned(scratch, b);
    AddAligned(scratch, c);
    AddAligned(scratch + c, a);
  }

  lemma AddAligned(a: nat, b: nat)
    requires Aligned(a) && Aligned(b)
    ensures Aligned(a + b)
  {
  }

  lemma PreparedItems(kind: Kind, i: Instr, src: nat, count: nat, scratch: nat)
    requires Converts(kind)
    ensures Prepares(kind, i, src, count, scratch) ==
            match kind
            case ToFp16 => [Run(Conv(VCONV, src, scratch, count))]
            case ToInt32 => [Run(Conv(VCONV_F16_I32, src, scratch, count))]
            case _ => [Run(Conv(VCONV_F16_I32, src, scratch, count)),
                       Int8Clip(scratch, scratch + RoundUp64(count * 4), count)]
  {
    hide Conv, SetSrc, RoundUp64;
  }

  // What a conversion writes.
  lemma ConvRange(op: OpCode, src: nat, dst: nat, count: nat)
    requires op == VCONV || op == VCONV_F16_I32
    ensures WriteRange(Run(Conv(op, src, dst, count))) == Slot(dst, if op == VCONV then 2 * count else 4 * count)
  {
    ConvOperands(op, src, dst, count);
    hide Conv, WriteAddr, WrittenBytes;
  }

  lemma OnePlaced(item: Item, end: nat)
    requires var w := WriteRange(item); Aligned(w.addr) && w.addr + w.size <= end
    ensures var s := Ranges([item]);
            WellPlaced(s, WriteRange(item).addr) && forall k :: 0 <= k < |s| ==> s[k].addr + s[k].size <= end
  {
    hide Aligned, WriteRange;
  }

  lemma TwoPlaced(x: Item, y: Item, end: nat)
    requires var w, v := WriteRange(x), WriteRange(y);
             Aligned(w.addr) && Aligned(v.addr) && w.addr + w.size <= v.addr && v.addr + v.size <= end
    ensures var s := Ranges([x, y]);
            WellPlaced(s, WriteRange(x).addr) && forall k :: 0 <= k < |s| ==> s[k].addr + s[k].size <= end
  {
    hide Aligned, WriteRange;
  }

  // What the items of one bridge write, and that it fits in what they take.
  lemma BridgeRanges(kind: Kind, i: Instr, src: nat, length: nat, scratch: nat)
    requires Aligned(scratch) && Converts(kind)
    ensures var s := Ranges(Prepares(kind, i, src, length, scratch));
            && WellPlaced(s, scratch) && Aligned(scratch + Taken(kind, length))
            && forall k :: 0 <= k < |s| ==> s[k].addr + s[k].size <= scratch + Taken(kind, length)
  {
    hide Aligned, RoundUp64, Conv, Ranges, WellPlaced, Prepares;
    PreparedItems(kind, i, src, length, scratch);
    TakenAligned(kind, length, scratch);
    var end := scratch + Taken(kind, length);
    match kind
    case ToFp16 =>
      RoundedUp(length * 2);
      ConvRange(VCONV, src, scratch, length);
      OnePlaced(Run(Conv(VCONV, src, scratch, length)), end);
    case ToInt32 =>
      RoundedUp(length * 4);
      ConvRange(VCONV_F16_I32, src, scratch, length);
      OnePlaced(Run(Conv(VCONV_F16_I32, src, scratch, length)), end);
    case ToInt8 =>
      RoundedUp(length * 4);
      RoundedUp(length);
      ConvRange(VCONV_F16_I32, src, scratch, length);
      TwoPlaced(Run(Conv(VCONV_F16_I32, src, scratch, length)),
        Int8Clip(scratch, scratch + RoundUp64(length * 4), length), end);
  }

  lemma {:induction false} RestPlaced(prev: Instr, rest: seq<Instr>, scratch: nat)
    requires Aligned(scratch)
    ensures WellPlaced(Ranges(AddedRest(prev, rest, scratch)), scratch)
    decreases |rest|
  {
    hide Aligned, KindOf, ElementCount, Taken, DstAddr, WriteRange, Prepares;
    if rest != [] {
      var i, kind, length := rest[0], KindOf(prev.op, rest[0].op), ElementCount(prev);
      if !Converts(kind) || DstAddr(prev) == None {
        RestPlaced(i, rest[1..], scratch);
      } else {
        var next := scratch + Taken(kind, length);
        var here, more := Prepares(kind, i, DstAddr(prev).value, length, scratch), AddedRest(i, rest[1..], next);
        BridgeRanges(kind, i, DstAddr(prev).value, length, scratch);
        RestPlaced(i, rest[1..], next);
        assert Ranges(here + more) == Ranges(here) + Ranges(more);
        PlacedJoin(Ranges(here), Ranges(more), scratch, next);
      }
    }
  }

  // The expanded program is the program and the added items, merged in order, and
  // from an aligned base what the added items write does not overlap and starts
  // on 64-byte boundaries.
  lemma SlotsDisjointAndAligned(program: seq<Instr>, base: nat)
    requires Aligned(base) && Insert(program, base).Some?
    ensures Merged(Insert(program, base).value, program, Added(program, base))
    ensures WellPlaced(Ranges(Added(program, base)), base)
  {
    hide Expand, AddedRest, Merged, IsInstr;
    if program == [] {
      NothingMerges();
    } else {
      RestMerges(program[0], program[1..], base);
      RestPlaced(program[0], program[1..], base);
      PlainInstr(program[0]);
      MergeInstr(Run(program[0]), program[0], Expand(program[0], program[1..], base).value, program[1..],
        AddedRest(program[0], program[1..], base));
      assert program == [program[0]] + program[1..];
    }
  }
}
