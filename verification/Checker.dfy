/**
 The check of one instruction against what is known about the state, and the states
 that it may lead to. A check that passes is sound: the instruction cannot fault, and
 the state that follows is one of those foreseen.
 */
module Checker {
  import opened Word
  import opened Isa
  import opened Machine
  import opened Abstract

  // ---- Accesses ----

  function Low(b: Base): int {
    if b.InElem? then ELEM_HEADER else 0
  }

  function High(ld: Loaded, b: Base, packet: nat): int {
    match b
    case InStack => STACK_SIZE
    case InCtx => 0
    case InPacket => packet
    case InData => ld.dataSize
    case InRodata => |ld.rodata|
    case InElem(m) => ELEM_HEADER + ValueSize(m)
  }

  /** Every n bytes from the pointer plus off lie inside. */
  predicate InSpan(ld: Loaded, a: Saved, k: Kind, off: int, n: nat) {
    && k.To? && !k.base.InCtx?
    && Low(k.base) <= k.first + off
    && k.last + off + n <= High(ld, k.base, a.packet)
  }

  predicate Readable(ld: Loaded, a: Saved, k: Kind, off: int, n: nat) {
    && InSpan(ld, a, k, off, n)
    && (k.base.InStack? ==> forall i :: k.first + off <= i < k.last + off + n ==> i in a.init)
  }

  predicate Writable(ld: Loaded, a: Saved, k: Kind, off: int, n: nat) {
    InSpan(ld, a, k, off, n) && !k.base.InPacket? && !k.base.InRodata?
  }

  function Cells(first: int, n: nat): set<int>
    decreases n, first
  {
    if n == 0 then {} else Cells(first, n - 1) + {first + n - 1}
  }

  lemma {:induction false} CellsAre(first: int, n: nat)
    ensures forall i :: i in Cells(first, n) <==> first <= i < first + n
  {
    if n > 0 { CellsAre(first, n - 1); }
  }

  /** The frame bytes known to be set after a store; a store at an unknown place adds none. */
  function SetBy(a: Saved, k: Kind, off: int, n: nat): set<int>
    requires k.To?
  {
    if k.base.InStack? && k.first == k.last then a.init + Cells(k.first + off, n) else a.init
  }

  predicate AlignedKind(k: Kind, off: int, size: Size)
    requires k.To?
  {
    size.B? || (k.first == k.last && Aligned(k.first + off, size))
  }

  lemma ReadSound(ld: Loaded, a: Saved, s: State, k: Kind, v: Value, off: int, n: nat)
    requires Describes(ld, a, s) && Fits(k, v, s.mem) && Readable(ld, a, k, off, n)
    ensures v.Ptr? && ReadBytes(s.mem, s.stack, v.region, v.off + off, n).Some?
  {
    hide AllFit;
  }

  lemma WriteSound(ld: Loaded, a: Saved, s: State, k: Kind, v: Value, off: int, t: seq<Byte>)
    requires Describes(ld, a, s) && Fits(k, v, s.mem) && Writable(ld, a, k, off, |t|)
    ensures v.Ptr?
    ensures var w := WriteBytes(s.mem, s.stack, v.region, v.off + off, t);
            w.Some? && Evolves(s.mem, w.value.0) && LoadedAs(ld, w.value.0) && AllSet(SetBy(a, k, off, |t|), w.value.1)
  {
    CellsAre(k.first + off, |t|);
    hide AllFit;
  }

  // ---- Loads and stores ----

  function ByteMax(size: Size): U64 {
    match size
    case B => 0xFF
    case H => 0xFFFF
    case W => 0xFFFF_FFFF
    case DW => MAX64
  }

  function LoadKind(ld: Loaded, a: Saved, size: Size, k: Kind, off: int): Option<Kind> {
    if !k.To? then None
    else if k.base.InCtx? then
      if size.W? && k.first == k.last == 0 - off then Some(To(InPacket, 0, 0))
      else if size.W? && k.first == k.last == 4 - off then Some(PacketEnd)
      else None
    else if AlignedKind(k, off, size) && Readable(ld, a, k, off, size.Bytes()) then Some(Num(0, ByteMax(size)))
    else None
  }

  lemma WordBelow(b: seq<Byte>, size: Size)
    requires |b| == size.Bytes()
    ensures Word64(b) <= ByteMax(size)
  {
    hide FromBytes, Pow2;
    Pow2Values();
  }

  lemma LoadSound(ld: Loaded, a: Saved, s: State, size: Size, k: Kind, v: Value, off: int)
    requires Describes(ld, a, s) && Fits(k, v, s.mem) && LoadKind(ld, a, size, k, off).Some?
    ensures var r := LoadValue(s, size, v, off); r.Some? && Fits(LoadKind(ld, a, size, k, off).value, r.value, s.mem)
  {
    hide ReadBytes, Describes, Readable, Word64;
    if !k.base.InCtx? {
      ReadSound(ld, a, s, k, v, off, size.Bytes());
      WordBelow(ReadBytes(s.mem, s.stack, v.region, v.off + off, size.Bytes()).value, size);
      hide ByteMax;
    }
  }

  // ---- Helper calls ----

  function Returned(a: Saved, k0: Kind): Saved {
    a.(pc := a.pc + 1, kinds := a.kinds.(k0 := k0, k1 := NotInit, k2 := NotInit, k3 := NotInit, k4 := NotInit, k5 := NotInit))
  }

  const ANY: Kind := Num(0, MAX64)

  /** A number that is known exactly. */
  predicate Known(k: Kind) {
    k.Num? && k.lo == k.hi
  }

  predicate FormatOk(ld: Loaded, ks: Kinds) {
    && ks.k1.To? && ks.k1.base.InRodata? && ks.k1.first == ks.k1.last && 0 <= ks.k1.first
    && Known(ks.k2) && ks.k2.lo <= STACK_SIZE && ks.k1.first + ks.k2.lo <= |ld.rodata|
    && var n := Conversions(ld.rodata[ks.k1.first..ks.k1.first + ks.k2.lo]);
       n <= 3 && (n >= 1 ==> ks.k3.Num?) && (n >= 2 ==> ks.k4.Num?) && (n >= 3 ==> ks.k5.Num?)
  }

  function CheckCall(ld: Loaded, a: Saved, h: Helper): Option<Saved> {
    var ks := a.kinds;
    match h
    case MapLookup =>
      if ks.k1.Map? && !ks.k1.m.OutputMap? && Readable(ld, a, ks.k2, 0, KeySize(ks.k1.m)) then
        Some(Returned(a, MaybeNull(ks.k1.m, ELEM_HEADER)))
      else None
    case RawLookup =>
      if ks.k1.Map? && !ks.k1.m.OutputMap? && Readable(ld, a, ks.k2, 0, KeySize(ks.k1.m)) then
        Some(Returned(a, MaybeNull(ks.k1.m, 0)))
      else None
    case MapUpdate =>
      if ks.k1.Map? && !ks.k1.m.OutputMap? && Readable(ld, a, ks.k2, 0, KeySize(ks.k1.m))
         && Readable(ld, a, ks.k3, 0, ValueSize(ks.k1.m)) && ks.k4.Num? then
        Some(Returned(a, ANY))
      else None
    case Printk => if FormatOk(ld, ks) then Some(Returned(a, ANY)) else None
    case PidTgid | UidGid => Some(Returned(a, ANY))
    case Comm =>
      if Known(ks.k2) && 0 < ks.k2.lo <= STACK_SIZE && Writable(ld, a, ks.k1, 0, ks.k2.lo) then
        Some(Returned(a.(init := SetBy(a, ks.k1, 0, ks.k2.lo)), ANY))
      else None
    case ProbeRead =>
      if Known(ks.k2) && ks.k2.lo <= STACK_SIZE && !ks.k3.NotInit? && Writable(ld, a, ks.k1, 0, ks.k2.lo) then
        Some(Returned(a.(init := SetBy(a, ks.k1, 0, ks.k2.lo)), ANY))
      else None
    case PerfOutput =>
      if ks.k1 == To(InCtx, 0, 0) && ks.k2 == Map(OutputMap) && ks.k3.Num? && Known(ks.k5) && ks.k5.lo <= STACK_SIZE
         && Readable(ld, a, ks.k4, 0, ks.k5.lo) then
        Some(Returned(a, ANY))
      else None
  }

  /** The state after a call, once the registers before and the effect on memory are known. */
  lemma ReturnDescribed(ld: Loaded, a: Saved, s: State, mem: Memory, stack: Frame, init: set<int>, k0: Kind, r0: Value, trace: seq<Event>)
    requires Describes(ld, a, s) && Evolves(s.mem, mem) && LoadedAs(ld, mem) && AllSet(init, stack) && Fits(k0, r0, mem)
    ensures Describes(ld, Returned(a.(init := init), k0), Return(s.(mem := mem, stack := stack), r0, trace))
  {
    AllStillFit(a.kinds, s.regs, s.mem, mem);
    hide Fits, Evolves, AllSet, LoadedAs;
  }

  lemma SameEvolves(ld: Loaded, mem: Memory)
    requires LoadedAs(ld, mem)
    ensures Evolves(mem, mem)
  {
  }

  lemma LookupSound(ld: Loaded, a: Saved, s: State, header: int)
    requires Describes(ld, a, s) && a.kinds.k1.Map? && !a.kinds.k1.m.OutputMap?
    requires Readable(ld, a, a.kinds.k2, 0, KeySize(a.kinds.k1.m))
    ensures var st := Lookup(s, header); st.Running? && Describes(ld, Returned(a, MaybeNull(a.kinds.k1.m, header)), st.s)
  {
    var m := a.kinds.k1.m;
    assert s.regs.r1 == MapPtr(m);
    ReadSound(ld, a, s, a.kinds.k2, s.regs.r2, 0, KeySize(m));
    var key := ReadVia(s, s.regs.r2, KeySize(m)).value;
    var r0 := if key in TableOf(s.mem, m) then Ptr(Elem(m, key), header) else Scalar(0);
    assert Fits(MaybeNull(m, header), r0, s.mem);
    SameEvolves(ld, s.mem);
    ReturnDescribed(ld, a, s, s.mem, s.stack, a.init, MaybeNull(m, header), r0, s.trace + [LookedUp(m, key)]);
    hide Describes, ReadBytes, AllFit, Readable, Fits;
  }

  lemma UpdateEvolves(ld: Loaded, mem: Memory, m: MapId, key: seq<Byte>, val: seq<Byte>)
    requires LoadedAs(ld, mem) && m != OutputMap && |key| == KeySize(m) && |val| == ValueSize(m)
    ensures var mem' := WithTable(mem, m, TableOf(mem, m)[key := val]); Evolves(mem, mem') && LoadedAs(ld, mem')
  {
  }

  lemma UpdateSound(ld: Loaded, a: Saved, s: State, r: Reply)
    requires Describes(ld, a, s) && CheckCall(ld, a, MapUpdate).Some?
    ensures var st := Update(s, r); st.Running? && Describes(ld, Returned(a, ANY), st.s)
  {
    var m := a.kinds.k1.m;
    assert s.regs.r1 == MapPtr(m) && s.regs.r4.Scalar?;
    ReadSound(ld, a, s, a.kinds.k2, s.regs.r2, 0, KeySize(m));
    ReadSound(ld, a, s, a.kinds.k3, s.regs.r3, 0, ValueSize(m));
    var key, val := ReadVia(s, s.regs.r2, KeySize(m)).value, ReadVia(s, s.regs.r3, ValueSize(m)).value;
    var tab := TableOf(s.mem, m);
    var mem := if Accepts(m, tab, key, s.regs.r4.n, r.refuse) then WithTable(s.mem, m, tab[key := val]) else s.mem;
    UpdateEvolves(ld, s.mem, m, key, val);
    SameEvolves(ld, s.mem);
    var st := Update(s, r);
    hide Describes, ReadBytes, AllFit, Readable, Fits, Accepts, Evolves, LoadedAs, TableOf, WithTable, CheckCall;
    AnyFits(st.s.regs.r0, mem);
    ReturnDescribed(ld, a, s, mem, s.stack, a.init, ANY, st.s.regs.r0, st.s.trace);
  }

  lemma AnyFits(v: Value, mem: Memory)
    ensures Fits(ANY, v, mem) <==> v.Scalar?
  {
  }

  lemma ArgsFit(ks: Kinds, regs: Regs, mem: Memory, n: nat)
    requires AllFit(ks, regs, mem) && n <= 3
    requires (n >= 1 ==> ks.k3.Num?) && (n >= 2 ==> ks.k4.Num?) && (n >= 3 ==> ks.k5.Num?)
    ensures ScalarArgs(regs, n).Some?
  {
  }

  lemma PrintSound(ld: Loaded, a: Saved, s: State, r: Reply)
    requires Describes(ld, a, s) && FormatOk(ld, a.kinds)
    ensures var st := Print(s, r); st.Running? && Describes(ld, Returned(a, ANY), st.s)
  {
    var ks := a.kinds;
    assert s.regs.r1 == Ptr(Rodata, ks.k1.first) && s.regs.r2 == Scalar(ks.k2.lo);
    var fmt := ld.rodata[ks.k1.first..ks.k1.first + ks.k2.lo];
    assert ReadVia(s, s.regs.r1, ks.k2.lo) == Some(fmt);
    ArgsFit(ks, s.regs, s.mem, Conversions(fmt));
    SameEvolves(ld, s.mem);
    hide Conversions, AllFit, Describes, FormatOk, ReadVia, Fits, ScalarArgs;
    AnyFits(Scalar(r.value), s.mem);
    ReturnDescribed(ld, a, s, s.mem, s.stack, a.init, ANY, Scalar(r.value), s.trace + [Printed(fmt, ScalarArgs(s.regs, Conversions(fmt)).value)]);
  }

  lemma FillSound(ld: Loaded, a: Saved, s: State, r: Reply, t: seq<Byte>)
    requires Describes(ld, a, s) && Writable(ld, a, a.kinds.k1, 0, |t|)
    ensures var st := Fill(s, r, t);
            st.Running? && Describes(ld, Returned(a.(init := SetBy(a, a.kinds.k1, 0, |t|)), ANY), st.s)
  {
    WriteSound(ld, a, s, a.kinds.k1, s.regs.r1, 0, t);
    var w := WriteBytes(s.mem, s.stack, s.regs.r1.region, s.regs.r1.off, t).value;
    hide AllFit, Describes, WriteBytes, Writable, Fits, SetBy, Evolves, LoadedAs, AllSet;
    AnyFits(Scalar(r.value), w.0);
    ReturnDescribed(ld, a, s, w.0, w.1, SetBy(a, a.kinds.k1, 0, |t|), ANY, Scalar(r.value), s.trace);
  }

  lemma ProbeSound(ld: Loaded, a: Saved, s: State, r: Reply)
    requires Describes(ld, a, s) && CheckCall(ld, a, ProbeRead).Some?
    ensures var st := Probe(s, r); st.Running? && Describes(ld, CheckCall(ld, a, ProbeRead).value, st.s)
  {
    var n := a.kinds.k2.lo;
    assert s.regs.r2 == Scalar(n) && !s.regs.r3.Uninit?;
    var src := ReadVia(s, s.regs.r3, n);
    FillSound(ld, a, s, r, if src.Some? && !r.refuse then src.value else Word.Fit(r.bytes, n));
    hide AllFit, Describes, Fill, ReadVia, Writable, Word.Fit;
  }

  lemma CommSound(ld: Loaded, a: Saved, s: State, r: Reply)
    requires Describes(ld, a, s) && CheckCall(ld, a, Comm).Some?
    ensures var st := CommName(s, r); st.Running? && Describes(ld, CheckCall(ld, a, Comm).value, st.s)
  {
    var n := a.kinds.k2.lo;
    assert s.regs.r2 == Scalar(n);
    FillSound(ld, a, s, r, Word.Fit(r.bytes, n));
    hide AllFit, Describes, Fill, Writable, Word.Fit;
  }

  lemma PerfSound(ld: Loaded, a: Saved, s: State, r: Reply)
    requires Describes(ld, a, s) && CheckCall(ld, a, PerfOutput).Some?
    ensures var st := Perf(s, r); st.Running? && Describes(ld, Returned(a, ANY), st.s)
  {
    var n := a.kinds.k5.lo;
    assert s.regs.r5 == Scalar(n) && s.regs.r1 == Ptr(Ctx, 0) && s.regs.r2 == MapPtr(OutputMap) && s.regs.r3.Scalar?;
    ReadSound(ld, a, s, a.kinds.k4, s.regs.r4, 0, n);
    SameEvolves(ld, s.mem);
    hide AllFit, Describes, ReadBytes, Readable, Fits;
    AnyFits(Scalar(r.value), s.mem);
    var st := Perf(s, r);
    ReturnDescribed(ld, a, s, s.mem, s.stack, a.init, ANY, Scalar(r.value), st.s.trace);
  }

  lemma CallSound(ld: Loaded, a: Saved, s: State, h: Helper, r: Reply)
    requires Describes(ld, a, s) && CheckCall(ld, a, h).Some?
    ensures var st := CallHelper(h, s, r); st.Running? && Describes(ld, CheckCall(ld, a, h).value, st.s)
  {
    hide Describes, Lookup, Update, Print, CommName, Probe, Perf, Readable, Writable, FormatOk, Returned;
    match h
    case MapLookup => LookupSound(ld, a, s, ELEM_HEADER);
    case RawLookup => LookupSound(ld, a, s, 0);
    case MapUpdate => UpdateSound(ld, a, s, r);
    case Printk => PrintSound(ld, a, s, r);
    case Comm => CommSound(ld, a, s, r);
    case ProbeRead => ProbeSound(ld, a, s, r);
    case PerfOutput => PerfSound(ld, a, s, r);
    case PidTgid | UidGid => AskSound(ld, a, s, r);
  }

  lemma AskSound(ld: Loaded, a: Saved, s: State, r: Reply)
    requires Describes(ld, a, s)
    ensures Describes(ld, Returned(a, ANY), Return(s, Scalar(r.value), s.trace))
  {
    SameEvolves(ld, s.mem);
    ReturnDescribed(ld, a, s, s.mem, s.stack, a.init, ANY, Scalar(r.value), s.trace);
  }

  // ---- Single instructions ----

  function OperandKind(ks: Kinds, src: Operand): Kind {
    match src
    case Imm(i) => Num(Wrap(i), Wrap(i))
    case Reg(r) => ks.Get(r)
  }

  function ResolveKind(sym: Symbol, addend: U32): Kind {
    match sym
    case MapRef(m) => Map(m)
    case DataRef => To(InData, addend, addend)
    case MessageRef => To(InData, 4 + addend, 4 + addend)
    case RodataRef => To(InRodata, addend, addend)
  }

  function SetKind(a: Saved, dst: RegId, k: Kind, next: int): Option<seq<Saved>> {
    if dst == FRAME then None else Some([a.(pc := next, kinds := a.kinds.With(dst, k))])
  }

  /** What becomes known on the two ways out of a comparison; None where a way is impossible. */
  datatype Ways = Ways(past: Option<Saved>, taken: Option<Saved>)

  function NarrowTo(a: Saved, left: RegId, range: (int, int)): Option<Saved> {
    if 0 <= range.0 <= range.1 < 0x1_0000_0000_0000_0000 then
      Some(a.(kinds := a.kinds.With(left, Num(range.0, range.1))))
    else None
  }

  function CheckTest(a: Saved, op: CmpOp, left: RegId, r: Kind): Option<Ways> {
    var l := a.kinds.Get(left);
    if l.Num? && r.Num? then
      if Known(r) then
        Some(Ways(NarrowTo(a, left, Narrow(op, l.lo, l.hi, r.lo, false)), NarrowTo(a, left, Narrow(op, l.lo, l.hi, r.lo, true))))
      else Some(Ways(Some(a), Some(a)))
    else if r == Num(0, 0) && l.To? && op.Eq? then Some(Ways(Some(a), None))
    else if r == Num(0, 0) && l.To? && op.Ne? then Some(Ways(None, Some(a)))
    else if r == Num(0, 0) && l.MaybeNull? && (op.Eq? || op.Ne?) then
      var isNull := Some(a.(kinds := a.kinds.With(left, Num(0, 0))));
      var isNot := Some(a.(kinds := a.kinds.With(left, To(InElem(l.m), l.at, l.at))));
      Some(if op.Eq? then Ways(isNot, isNull) else Ways(isNull, isNot))
    else if l.To? && l.base.InPacket? && r.PacketEnd? && op.Gt? then
      Some(Ways(Some(if l.first > a.packet then a.(packet := l.first) else a), Some(a)))
    else None
  }

  function At(a: Option<Saved>, pc: int): seq<Saved> {
    if a.None? then [] else [a.value.(pc := pc)]
  }

  /** The states that instruction i may lead to, or None if it might fault. */
  function Check(ld: Loaded, i: Insn, a: Saved): Option<seq<Saved>> {
    match i
    case Alu(op, dst, src) =>
      var k := AluKind(op, a.kinds.Get(dst), OperandKind(a.kinds, src));
      if k.None? then None else SetKind(a, dst, k.value, a.pc + 1)
    case Load(size, dst, base, off) =>
      var k := LoadKind(ld, a, size, a.kinds.Get(base), off);
      if k.None? then None else SetKind(a, dst, k.value, a.pc + 1)
    case Store(size, base, off, val) =>
      var k := a.kinds.Get(base);
      if a.kinds.Get(val).Num? && Writable(ld, a, k, off, size.Bytes()) && k.first == k.last && Aligned(k.first + off, size) then
        Some([a.(pc := a.pc + 1, init := SetBy(a, k, off, size.Bytes()))])
      else None
    case LoadImm(dst, imm) => SetKind(a, dst, Num(imm, imm), a.pc + 2)
    case LoadSym(dst, sym, addend) => SetKind(a, dst, ResolveKind(sym, addend), a.pc + 2)
    case Second => None
    case Jump(off) => Some([a.(pc := a.pc + 1 + off)])
    case JumpIf(op, left, right, off) =>
      var w := CheckTest(a, op, left, OperandKind(a.kinds, right));
      if w.None? then None else Some(At(w.value.past, a.pc + 1) + At(w.value.taken, a.pc + 1 + off))
    case Call(h) =>
      var b := CheckCall(ld, a, h);
      if b.None? then None else Some([b.value])
    case Exit => if a.kinds.k0.Num? then Some([]) else None
  }

  /** The check of the instruction at the program counter. */
  function CheckAt(ld: Loaded, p: Program, a: Saved): Option<seq<Saved>> {
    if 0 <= a.pc < |p| then Check(ld, p[a.pc], a) else None
  }

  // ---- Soundness ----

  /** One of the foreseen states describes the state reached, or the program has ended. */
  ghost predicate Foreseen(ld: Loaded, next: seq<Saved>, st: Status) {
    st.Exited? || (st.Running? && exists k :: 0 <= k < |next| && Describes(ld, next[k], st.s))
  }

  lemma OperandFits(ks: Kinds, regs: Regs, mem: Memory, src: Operand)
    requires AllFit(ks, regs, mem)
    ensures Fits(OperandKind(ks, src), OperandValue(regs, src), mem)
  {
    if src.Reg? { GetFits(ks, regs, mem, src.reg); }
    hide AllFit;
  }

  lemma SetSound(ld: Loaded, a: Saved, s: State, dst: RegId, k: Kind, v: Value, next: int)
    requires Describes(ld, a, s) && Fits(k, v, s.mem) && dst != FRAME
    ensures SetReg(s, dst, v, next).Running?
    ensures Describes(ld, a.(pc := next, kinds := a.kinds.With(dst, k)), SetReg(s, dst, v, next).s)
  {
    WithFits(a.kinds, s.regs, s.mem, dst, k, v);
    hide AllFit, Fits;
  }

  lemma OneForeseen(ld: Loaded, b: Saved, st: Status)
    requires st.Running? && Describes(ld, b, st.s)
    ensures Foreseen(ld, [b], st)
  {
    hide Describes;
    assert Describes(ld, [b][0], st.s);
  }

  lemma AluSound(ld: Loaded, i: Insn, a: Saved, s: State, r: Reply)
    requires Describes(ld, a, s) && i.Alu? && Check(ld, i, a).Some?
    ensures Foreseen(ld, Check(ld, i, a).value, Execute(i, s, r))
  {
    var k := AluKind(i.aop, a.kinds.Get(i.dst), OperandKind(a.kinds, i.src)).value;
    GetFits(a.kinds, s.regs, s.mem, i.dst);
    OperandFits(a.kinds, s.regs, s.mem, i.src);
    AluFits(i.aop, a.kinds.Get(i.dst), OperandKind(a.kinds, i.src), s.regs.Get(i.dst), OperandValue(s.regs, i.src), s.mem);
    var v := AluResult(i.aop, s.regs.Get(i.dst), OperandValue(s.regs, i.src)).value;
    SetSound(ld, a, s, i.dst, k, v, s.pc + 1);
    hide Describes, AluKind, AluResult, OperandKind, OperandValue, Fits, AllFit, SetReg, Foreseen;
    OneForeseen(ld, a.(pc := s.pc + 1, kinds := a.kinds.With(i.dst, k)), SetReg(s, i.dst, v, s.pc + 1));
  }

  lemma LoadInsnSound(ld: Loaded, i: Insn, a: Saved, s: State, r: Reply)
    requires Describes(ld, a, s) && i.Load? && Check(ld, i, a).Some?
    ensures Foreseen(ld, Check(ld, i, a).value, Execute(i, s, r))
  {
    var k := LoadKind(ld, a, i.size, a.kinds.Get(i.base), i.off).value;
    GetFits(a.kinds, s.regs, s.mem, i.base);
    LoadSound(ld, a, s, i.size, a.kinds.Get(i.base), s.regs.Get(i.base), i.off);
    var v := LoadValue(s, i.size, s.regs.Get(i.base), i.off).value;
    SetSound(ld, a, s, i.dst, k, v, s.pc + 1);
    hide Describes, LoadKind, LoadValue, Fits, AllFit, SetReg, Foreseen;
    OneForeseen(ld, a.(pc := s.pc + 1, kinds := a.kinds.With(i.dst, k)), SetReg(s, i.dst, v, s.pc + 1));
  }

  /** The state after a store, once its effect on memory is known. */
  lemma StoredDescribed(ld: Loaded, a: Saved, s: State, mem: Memory, stack: Frame, init: set<int>)
    requires Describes(ld, a, s) && Evolves(s.mem, mem) && LoadedAs(ld, mem) && AllSet(init, stack)
    ensures Describes(ld, a.(pc := a.pc + 1, init := init), s.(pc := s.pc + 1, mem := mem, stack := stack))
  {
    hide AllFit, LoadedAs, AllSet;
    AllStillFit(a.kinds, s.regs, s.mem, mem);
    EvolvesPacket(s.mem, mem);
  }

  lemma StoreSound(ld: Loaded, i: Insn, a: Saved, s: State, r: Reply)
    requires Describes(ld, a, s) && i.Store? && Check(ld, i, a).Some?
    ensures Foreseen(ld, Check(ld, i, a).value, Execute(i, s, r))
  {
    hide WriteBytes, Writable, AllFit, SetBy, Foreseen, Evolves, LoadedAs, AllSet, PointsInto, Bytes, AluKind, LoadKind, CheckCall, CheckTest;
    var k, v := a.kinds.Get(i.base), s.regs.Get(i.base);
    GetFits(a.kinds, s.regs, s.mem, i.base);
    GetFits(a.kinds, s.regs, s.mem, i.val);
    var t := Bytes(s.regs.Get(i.val).n, i.size.Bytes());
    assert |t| == i.size.Bytes();
    WriteSound(ld, a, s, k, v, i.off, t);
    WritableTo(ld, a, k, i.off, |t|);
    assert v.off == k.first;
    var w := WriteBytes(s.mem, s.stack, v.region, v.off + i.off, t).value;
    StoredDescribed(ld, a, s, w.0, w.1, SetBy(a, k, i.off, |t|));
    OneForeseen(ld, a.(pc := a.pc + 1, init := SetBy(a, k, i.off, |t|)), Execute(i, s, r));
  }

  lemma WritableTo(ld: Loaded, a: Saved, k: Kind, off: int, n: nat)
    ensures Writable(ld, a, k, off, n) ==> k.To?
  {
  }

  lemma EvolvesPacket(mem: Memory, mem': Memory)
    requires Evolves(mem, mem')
    ensures mem'.packet == mem.packet
  {
  }

  /** A comparison is defined, and its outcome was foreseen. */
  lemma TestSound(ld: Loaded, a: Saved, s: State, op: CmpOp, left: RegId, right: Operand)
    requires Describes(ld, a, s) && CheckTest(a, op, left, OperandKind(a.kinds, right)).Some?
    ensures var w := CheckTest(a, op, left, OperandKind(a.kinds, right)).value;
            var c := Compare(op, s.regs.Get(left), OperandValue(s.regs, right));
            && c.Some?
            && (c.value ==> w.taken.Some? && Describes(ld, w.taken.value, s))
            && (!c.value ==> w.past.Some? && Describes(ld, w.past.value, s))
  {
    var l, x, y := a.kinds.Get(left), s.regs.Get(left), OperandValue(s.regs, right);
    GetFits(a.kinds, s.regs, s.mem, left);
    OperandFits(a.kinds, s.regs, s.mem, right);
    hide AllFit, OperandKind, OperandValue, Holds, Narrow, LoadedAs, AllSet;
    var r := OperandKind(a.kinds, right);
    if l.Num? && r.Num? {
      if Known(r) {
        var n := Narrow(op, l.lo, l.hi, r.lo, Holds(op, x.n, y.n));
        NarrowSound(op, l.lo, l.hi, r.lo, x.n);
        LearnSound(ld, a, s, left, Num(n.0, n.1));
      }
    } else if l.MaybeNull? {
      LearnSound(ld, a, s, left, if x.Ptr? then To(InElem(l.m), l.at, l.at) else Num(0, 0));
    }
  }

  /** Knowing more about a register. */
  lemma LearnSound(ld: Loaded, a: Saved, s: State, r: RegId, k: Kind)
    requires Describes(ld, a, s) && Fits(k, s.regs.Get(r), s.mem)
    ensures Describes(ld, a.(kinds := a.kinds.With(r, k)), s)
  {
    WithFits(a.kinds, s.regs, s.mem, r, k, s.regs.Get(r));
    assert s.regs.With(r, s.regs.Get(r)) == s.regs;
    hide AllFit, Fits;
  }

  lemma JumpIfSound(ld: Loaded, i: Insn, a: Saved, s: State, r: Reply)
    requires Describes(ld, a, s) && i.JumpIf? && Check(ld, i, a).Some?
    ensures Foreseen(ld, Check(ld, i, a).value, Execute(i, s, r))
  {
    hide AllFit, CheckTest, Compare, OperandKind, OperandValue, LoadedAs, AllSet, Fits;
    TestSound(ld, a, s, i.cop, i.left, i.right);
    var w := CheckTest(a, i.cop, i.left, OperandKind(a.kinds, i.right)).value;
    var c := Compare(i.cop, s.regs.Get(i.left), OperandValue(s.regs, i.right)).value;
    var next := Check(ld, i, a).value;
    assert next == At(w.past, a.pc + 1) + At(w.taken, a.pc + 1 + i.joff);
    var t := s.(pc := s.pc + 1 + if c then i.joff else 0);
    assert Execute(i, s, r) == Running(t);
    var k := if c then |next| - 1 else 0;
    hide Check, Execute;
    assert Describes(ld, next[k], t);
  }

  /** An instruction that passes its check cannot fault, and leads to a foreseen state. */
  lemma CheckSound(ld: Loaded, i: Insn, a: Saved, s: State, r: Reply)
    requires Describes(ld, a, s) && Check(ld, i, a).Some?
    ensures Foreseen(ld, Check(ld, i, a).value, Execute(i, s, r))
  {
    match i
    case Alu(_, _, _) => AluSound(ld, i, a, s, r);
    case Load(_, _, _, _) => LoadInsnSound(ld, i, a, s, r);
    case Store(_, _, _, _) => StoreSound(ld, i, a, s, r);
    case LoadImm(dst, imm) =>
      SetSound(ld, a, s, dst, Num(imm, imm), Scalar(imm), s.pc + 2);
      OneForeseen(ld, a.(pc := s.pc + 2, kinds := a.kinds.With(dst, Num(imm, imm))), SetReg(s, dst, Scalar(imm), s.pc + 2));
      hide Foreseen, Describes;
    case LoadSym(dst, sym, addend) =>
      var k, v := ResolveKind(sym, addend), Resolve(sym, addend);
      SetSound(ld, a, s, dst, k, v, s.pc + 2);
      OneForeseen(ld, a.(pc := s.pc + 2, kinds := a.kinds.With(dst, k)), SetReg(s, dst, v, s.pc + 2));
      hide Foreseen, Describes, ResolveKind, Resolve;
    case Jump(off) =>
      OneForeseen(ld, a.(pc := a.pc + 1 + off), Running(s.(pc := s.pc + 1 + off)));
      hide Foreseen, Describes;
    case JumpIf(_, _, _, _) => JumpIfSound(ld, i, a, s, r);
    case Call(h) =>
      CallSound(ld, a, s, h, r);
      hide Describes, CheckCall, CallHelper, Foreseen;
      OneForeseen(ld, CheckCall(ld, a, h).value, CallHelper(h, s, r));
    case Exit =>
  }
}
