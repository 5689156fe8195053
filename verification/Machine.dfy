/**
 The BPF register machine: eleven registers, a 512-byte stack, the memory that
 programs share, and helper calls. Every condition under which an instruction is
 unsafe leads to the explicit state Error.
 */
module Machine {
  import opened Word
  import opened Isa

  const STACK_SIZE := 512
  /** Where the value starts inside a hash table element. */
  const ELEM_HEADER := 56
  const FRAME: RegId := 10

  type Table = map<seq<Byte>, seq<Byte>>

  /** Memory outside the frame. */
  datatype Memory = Memory(data: seq<Byte>, rodata: seq<Byte>, packet: seq<Byte>, counters: Table, config: Table)

  datatype Region = Stack | Ctx | Packet | Data | Rodata | Elem(m: MapId, key: seq<Byte>)

  datatype Value = Uninit | Scalar(n: U64) | Ptr(region: Region, off: int) | MapPtr(m: MapId)

  /** A stack byte, or -1 where nothing has been stored yet. */
  type Cell = x: int | -1 <= x < 256 witness -1

  datatype Regs = Regs(r0: Value, r1: Value, r2: Value, r3: Value, r4: Value, r5: Value,
                       r6: Value, r7: Value, r8: Value, r9: Value, r10: Value)
  {
    function Get(r: RegId): Value {
      if r == 0 then r0 else if r == 1 then r1 else if r == 2 then r2 else if r == 3 then r3
      else if r == 4 then r4 else if r == 5 then r5 else if r == 6 then r6 else if r == 7 then r7
      else if r == 8 then r8 else if r == 9 then r9 else r10
    }

    function With(r: RegId, v: Value): Regs {
      if r == 0 then this.(r0 := v) else if r == 1 then this.(r1 := v) else if r == 2 then this.(r2 := v)
      else if r == 3 then this.(r3 := v) else if r == 4 then this.(r4 := v) else if r == 5 then this.(r5 := v)
      else if r == 6 then this.(r6 := v) else if r == 7 then this.(r7 := v) else if r == 8 then this.(r8 := v)
      else if r == 9 then this.(r9 := v) else this.(r10 := v)
    }
  }

  type Frame = s: seq<Cell> | |s| == STACK_SIZE witness seq(STACK_SIZE, _ => -1)

  /** What the outside world can see of a run. */
  datatype Event =
    | Printed(fmt: seq<Byte>, args: seq<U64>)
    | LookedUp(m: MapId, key: seq<Byte>)
    | Updated(m: MapId, key: seq<Byte>, value: seq<Byte>, flags: U64)
    | Output(m: MapId, flags: U64, bytes: seq<Byte>)

  datatype State = State(pc: int, regs: Regs, stack: Frame, mem: Memory, trace: seq<Event>, calls: nat)

  datatype Status = Running(s: State) | Exited(result: U64, end: State) | Error

  datatype Option<+T> = None | Some(value: T)

  /** What the kernel answers to one helper call. */
  datatype Reply = Reply(value: U64, bytes: seq<Byte>, refuse: bool)

  /** The answers to the calls of a run, first call first. */
  type Oracle = nat -> Reply

  // ---- Maps ----

  function KeySize(m: MapId): nat {
    match m
    case CounterTable => 8
    case MyConfig => 4
    case OutputMap => 4
  }

  function ValueSize(m: MapId): nat {
    match m
    case CounterTable => 8
    case MyConfig => 12
    case OutputMap => 4
  }

  function MaxEntries(m: MapId): nat {
    match m
    case CounterTable => 5_000_000
    case MyConfig => 10240
    case OutputMap => 0
  }

  function TableOf(mem: Memory, m: MapId): Table {
    match m
    case CounterTable => mem.counters
    case MyConfig => mem.config
    case OutputMap => map[]
  }

  function WithTable(mem: Memory, m: MapId, t: Table): Memory {
    match m
    case CounterTable => mem.(counters := t)
    case MyConfig => mem.(config := t)
    case OutputMap => mem
  }

  ghost predicate TableOk(m: MapId, t: Table) {
    forall k :: k in t ==> |k| == KeySize(m) && |t[k]| == ValueSize(m)
  }

  ghost predicate MemoryOk(mem: Memory) {
    TableOk(CounterTable, mem.counters) && TableOk(MyConfig, mem.config)
  }

  /** Whether an update is accepted: flag 1 asks for a new key and flag 2 for an old
      one, a full table takes no new key, and the kernel may always refuse. */
  predicate Accepts(m: MapId, t: Table, key: seq<Byte>, flags: U64, refuse: bool) {
    && !refuse
    && flags <= 2
    && (flags == 1 ==> key !in t)
    && (flags == 2 ==> key in t)
    && (key in t || |t| < MaxEntries(m))
  }

  // ---- Memory accesses ----

  function ReadBytes(mem: Memory, stack: Frame, region: Region, off: int, n: nat): (r: Option<seq<Byte>>)
    ensures r.Some? ==> |r.value| == n
  {
    match region
    case Stack =>
      if 0 <= off && off + n <= STACK_SIZE && forall i :: off <= i < off + n ==> stack[i] >= 0 then
        Some(Stored(stack, off, n))
      else None
    case Data => Slice(mem.data, off, n)
    case Rodata => Slice(mem.rodata, off, n)
    case Packet => Slice(mem.packet, off, n)
    case Elem(m, key) =>
      if key in TableOf(mem, m) then Slice(TableOf(mem, m)[key], off - ELEM_HEADER, n) else None
    case Ctx => None
  }

  /** n stored bytes of the frame. */
  function Stored(stack: Frame, off: nat, n: nat): (r: seq<Byte>)
    requires off + n <= STACK_SIZE && forall i :: off <= i < off + n ==> stack[i] >= 0
    ensures |r| == n && forall i :: 0 <= i < n ==> r[i] == stack[off + i]
  {
    seq(n, i requires 0 <= i < n => stack[off + i])
  }

  function Slice(b: seq<Byte>, off: int, n: nat): (r: Option<seq<Byte>>)
    ensures r.Some? ==> |r.value| == n
  {
    if 0 <= off && off + n <= |b| then Some(b[off..off + n]) else None
  }

  /** b with t written over it from position off on. */
  function Splice<T>(b: seq<T>, off: nat, t: seq<T>): (r: seq<T>)
    requires off + |t| <= |b|
    ensures |r| == |b|
    ensures forall i :: 0 <= i < |b| ==> r[i] == if off <= i < off + |t| then t[i - off] else b[i]
  {
    b[..off] + t + b[off + |t|..]
  }

  /** A frame with t stored at position off. */
  function Put(stack: Frame, off: nat, t: seq<Byte>): Frame
    requires off + |t| <= STACK_SIZE
  {
    Splice<Cell>(stack, off, t)
  }

  /** The frame and the memory after a store; packets and constants are read-only. */
  function WriteBytes(mem: Memory, stack: Frame, region: Region, off: int, t: seq<Byte>): Option<(Memory, Frame)> {
    match region
    case Stack =>
      if 0 <= off && off + |t| <= STACK_SIZE then Some((mem, Put(stack, off, t))) else None
    case Data =>
      if 0 <= off && off + |t| <= |mem.data| then Some((mem.(data := Splice(mem.data, off, t)), stack)) else None
    case Elem(m, key) =>
      var tab := TableOf(mem, m);
      if key in tab && ELEM_HEADER <= off && off - ELEM_HEADER + |t| <= |tab[key]| then
        Some((WithTable(mem, m, tab[key := Splice(tab[key], off - ELEM_HEADER, t)]), stack))
      else None
    case _ => None
  }

  // ---- Arithmetic ----

  /** Operations on two scalars that may be executed at all. */
  predicate ScalarCheck(op: AluOp, x: U64, y: U64) {
    match op
    case Div | Mod => y != 0
    case SDiv | SMod => y != 0 && !(Signed(x) == -0x8000_0000_0000_0000 && Signed(y) == -1)
    case Lsh | Rsh | Arsh => y < 64
    case End => false
    case _ => true
  }

  /** Operations on a pointer and a scalar that may be executed at all. */
  predicate PointerCheck(op: AluOp) {
    op.Add? || op.Sub? || op.Mov?
  }

  function ScalarAlu(op: AluOp, x: U64, y: U64): U64
    requires ScalarCheck(op, x, y)
  {
    match op
    case Add => Wrap(x + y)
    case Sub => Wrap(x - y)
    case Mul => Wrap(x * y)
    case Div => DivBound(x, y); x / y
    case Mod => x % y
    case SDiv => Wrap(Quot(Signed(x), Signed(y)))
    case SMod => Wrap(Rem(Signed(x), Signed(y)))
    case Or => Bits64(BitOr, x, y)
    case And => Bits64(BitAnd, x, y)
    case Xor => Bits64(BitXor, x, y)
    case Lsh => Shl(x, y)
    case Rsh => Shr(x, y)
    case Arsh => Ashr(x, y)
    case Neg => Wrap(0 - x)
    case Mov | End => y
  }

  function AluResult(op: AluOp, d: Value, v: Value): Option<Value> {
    if op.Mov? then
      if v.Uninit? then None else Some(v)
    else if d.Scalar? && v.Scalar? && ScalarCheck(op, d.n, v.n) then
      Some(Scalar(ScalarAlu(op, d.n, v.n)))
    else if d.Ptr? && v.Scalar? && PointerCheck(op) then
      Some(d.(off := if op.Add? then d.off + Signed(v.n) else d.off - Signed(v.n)))
    else None
  }

  predicate Holds(op: CmpOp, x: U64, y: U64) {
    match op
    case Eq => x == y
    case Ne => x != y
    case Gt => x > y
    case Ge => x >= y
    case Lt => x < y
    case Le => x <= y
    case Set => Bits64(BitAnd, x, y) != 0
    case SGt => Signed(x) > Signed(y)
    case SGe => Signed(x) >= Signed(y)
    case SLt => Signed(x) < Signed(y)
    case SLe => Signed(x) <= Signed(y)
  }

  /** Comparisons: scalars, a pointer with null, and two pointers into one packet. */
  function Compare(op: CmpOp, a: Value, b: Value): Option<bool> {
    if a.Scalar? && b.Scalar? then Some(Holds(op, a.n, b.n))
    else if a.Ptr? && b == Scalar(0) && op.Eq? then Some(false)
    else if a.Ptr? && b == Scalar(0) && op.Ne? then Some(true)
    else if a.Ptr? && b.Ptr? && a.region == b.region == Packet && op.Gt? then Some(a.off > b.off)
    else None
  }

  // ---- Helper calls ----

  /** Registers after a call: r1 to r5 are lost, r0 holds the result. */
  function AfterCall(regs: Regs, r0: Value): Regs {
    regs.(r0 := r0, r1 := Uninit, r2 := Uninit, r3 := Uninit, r4 := Uninit, r5 := Uninit)
  }

  function ReadVia(s: State, v: Value, n: nat): (r: Option<seq<Byte>>)
    ensures r.Some? ==> |r.value| == n
  {
    if v.Ptr? then ReadBytes(s.mem, s.stack, v.region, v.off, n) else None
  }

  /** The number of conversions in a format string. */
  function Conversions(fmt: seq<Byte>): nat {
    if fmt == [] then 0 else Conversions(fmt[1..]) + if fmt[0] == 37 then 1 else 0
  }

  function ScalarArgs(regs: Regs, n: nat): Option<seq<U64>>
    requires n <= 3
  {
    if n == 0 then Some([])
    else if !regs.r3.Scalar? then None
    else if n == 1 then Some([regs.r3.n])
    else if !regs.r4.Scalar? then None
    else if n == 2 then Some([regs.r3.n, regs.r4.n])
    else if !regs.r5.Scalar? then None
    else Some([regs.r3.n, regs.r4.n, regs.r5.n])
  }

  function Lookup(s: State, header: int): Status {
    var a, k := s.regs.r1, s.regs.r2;
    if !a.MapPtr? || a.m.OutputMap? then Error else
    var key := ReadVia(s, k, KeySize(a.m));
    if key.None? then Error else
    var r0 := if key.value in TableOf(s.mem, a.m) then Ptr(Elem(a.m, key.value), header) else Scalar(0);
    Running(Return(s, r0, s.trace + [LookedUp(a.m, key.value)]))
  }

  function Return(s: State, r0: Value, trace: seq<Event>): State {
    s.(pc := s.pc + 1, regs := AfterCall(s.regs, r0), trace := trace, calls := s.calls + 1)
  }

  function Update(s: State, r: Reply): Status {
    var a, flags := s.regs.r1, s.regs.r4;
    if !a.MapPtr? || a.m.OutputMap? || !flags.Scalar? then Error else
    var key, val := ReadVia(s, s.regs.r2, KeySize(a.m)), ReadVia(s, s.regs.r3, ValueSize(a.m));
    if key.None? || val.None? then Error else
    var tab := TableOf(s.mem, a.m);
    var trace := s.trace + [Updated(a.m, key.value, val.value, flags.n)];
    if Accepts(a.m, tab, key.value, flags.n, r.refuse) then
      Running(Return(s.(mem := WithTable(s.mem, a.m, tab[key.value := val.value])), Scalar(0), trace))
    else
      Running(Return(s, Scalar(Wrap(-1 - r.value % 4095)), trace))
  }

  function Print(s: State, r: Reply): Status {
    if !s.regs.r2.Scalar? || s.regs.r2.n > STACK_SIZE then Error else
    var fmt := ReadVia(s, s.regs.r1, s.regs.r2.n);
    if fmt.None? || Conversions(fmt.value) > 3 then Error else
    var args := ScalarArgs(s.regs, Conversions(fmt.value));
    if args.None? then Error else
    Running(Return(s, Scalar(r.value), s.trace + [Printed(fmt.value, args.value)]))
  }

  /** A helper that fills the buffer at r1, of the size in r2. */
  function Fill(s: State, r: Reply, content: seq<Byte>): Status {
    if !s.regs.r1.Ptr? then Error else
    var w := WriteBytes(s.mem, s.stack, s.regs.r1.region, s.regs.r1.off, content);
    if w.None? then Error else
    Running(Return(s.(mem := w.value.0, stack := w.value.1), Scalar(r.value), s.trace))
  }

  function Probe(s: State, r: Reply): Status {
    if !s.regs.r2.Scalar? || s.regs.r2.n > STACK_SIZE || s.regs.r3.Uninit? then Error else
    var src := ReadVia(s, s.regs.r3, s.regs.r2.n);
    Fill(s, r, if src.Some? && !r.refuse then src.value else Fit(r.bytes, s.regs.r2.n))
  }

  function CommName(s: State, r: Reply): Status {
    if !s.regs.r2.Scalar? || s.regs.r2.n > STACK_SIZE || s.regs.r2.n == 0 then Error else
    Fill(s, r, Fit(r.bytes, s.regs.r2.n))
  }

  function Perf(s: State, r: Reply): Status {
    if s.regs.r1 != Ptr(Ctx, 0) || s.regs.r2 != MapPtr(OutputMap) || !s.regs.r3.Scalar? then Error else
    if !s.regs.r5.Scalar? || s.regs.r5.n > STACK_SIZE then Error else
    var d := ReadVia(s, s.regs.r4, s.regs.r5.n);
    if d.None? then Error else
    Running(Return(s, Scalar(r.value), s.trace + [Output(OutputMap, s.regs.r3.n, d.value)]))
  }

  function CallHelper(h: Helper, s: State, r: Reply): Status {
    match h
    case MapLookup => Lookup(s, ELEM_HEADER)
    case RawLookup => Lookup(s, 0)
    case MapUpdate => Update(s, r)
    case Printk => Print(s, r)
    case PidTgid | UidGid => Running(Return(s, Scalar(r.value), s.trace))
    case Comm => CommName(s, r)
    case ProbeRead => Probe(s, r)
    case PerfOutput => Perf(s, r)
  }

  // ---- Single steps ----

  function OperandValue(regs: Regs, src: Operand): Value {
    match src
    case Imm(i) => Scalar(Wrap(i))
    case Reg(r) => regs.Get(r)
  }

  function Resolve(sym: Symbol, addend: U32): Value {
    match sym
    case MapRef(m) => MapPtr(m)
    case DataRef => Ptr(Data, addend)
    case MessageRef => Ptr(Data, 4 + addend)
    case RodataRef => Ptr(Rodata, addend)
  }

  function SetReg(s: State, dst: RegId, v: Value, next: int): Status {
    if dst == FRAME then Error else Running(s.(pc := next, regs := s.regs.With(dst, v)))
  }

  function LoadValue(s: State, size: Size, base: Value, off: int): Option<Value> {
    if !base.Ptr? then None
    else if base.region.Ctx? then
      if size.W? && base.off + off == 0 then Some(Ptr(Packet, 0))
      else if size.W? && base.off + off == 4 then Some(Ptr(Packet, |s.mem.packet|))
      else None
    else if !Aligned(base.off + off, size) then None
    else
      var b := ReadBytes(s.mem, s.stack, base.region, base.off + off, size.Bytes());
      if b.None? then None else Some(Scalar(Word64(b.value)))
  }

  predicate Aligned(off: int, size: Size) {
    match size
    case B => true
    case H => off % 2 == 0
    case W => off % 4 == 0
    case DW => off % 8 == 0
  }

  /** At most eight bytes as a register value. */
  function Word64(b: seq<Byte>): U64
    requires |b| in {1, 2, 4, 8}
  {
    Pow2Values();
    Pow2Monotone(8 * |b|, 64);
    FromBytes(b)
  }

  function StoreValue(s: State, size: Size, base: Value, off: int, v: Value): Option<(Memory, Frame)> {
    if base.Ptr? && v.Scalar? && Aligned(base.off + off, size) then
      WriteBytes(s.mem, s.stack, base.region, base.off + off, Bytes(v.n, size.Bytes()))
    else None
  }

  function Execute(i: Insn, s: State, r: Reply): Status {
    match i
    case Alu(op, dst, src) =>
      var v := AluResult(op, s.regs.Get(dst), OperandValue(s.regs, src));
      if v.None? then Error else SetReg(s, dst, v.value, s.pc + 1)
    case Load(size, dst, base, off) =>
      var v := LoadValue(s, size, s.regs.Get(base), off);
      if v.None? then Error else SetReg(s, dst, v.value, s.pc + 1)
    case Store(size, base, off, val) =>
      var w := StoreValue(s, size, s.regs.Get(base), off, s.regs.Get(val));
      if w.None? then Error else Running(s.(pc := s.pc + 1, mem := w.value.0, stack := w.value.1))
    case LoadImm(dst, imm) => SetReg(s, dst, Scalar(imm), s.pc + 2)
    case LoadSym(dst, sym, addend) => SetReg(s, dst, Resolve(sym, addend), s.pc + 2)
    case Second => Error
    case Jump(off) => Running(s.(pc := s.pc + 1 + off))
    case JumpIf(op, left, right, off) =>
      var c := Compare(op, s.regs.Get(left), OperandValue(s.regs, right));
      if c.None? then Error else Running(s.(pc := s.pc + 1 + if c.value then off else 0))
    case Call(h) => CallHelper(h, s, r)
    case Exit => if s.regs.r0.Scalar? then Exited(s.regs.r0.n, s) else Error
  }

  function Step(p: Program, o: Oracle, s: State): Status {
    if 0 <= s.pc < |p| then Execute(p[s.pc], s, o(s.calls)) else Error
  }

  /** n steps, or fewer if the program ends before. */
  function Run(p: Program, o: Oracle, st: Status, n: nat): Status
    decreases n, st
  {
    if n == 0 || !st.Running? then st else Run(p, o, Step(p, o, st.s), n - 1)
  }

  /** The state in which a program is entered. */
  function Entry(mem: Memory): State {
    State(0, Regs(Uninit, Ptr(Ctx, 0), Uninit, Uninit, Uninit, Uninit, Uninit, Uninit, Uninit, Uninit, Ptr(Stack, STACK_SIZE)),
          seq(STACK_SIZE, _ => -1), mem, [], 0)
  }

  lemma RunOne(p: Program, o: Oracle, s: State)
    ensures Run(p, o, Running(s), 1) == Step(p, o, s)
  {
    hide Step;
  }

  lemma {:induction false} RunAdd(p: Program, o: Oracle, st: Status, m: nat, n: nat)
    ensures Run(p, o, st, m + n) == Run(p, o, Run(p, o, st, m), n)
    decreases m
  {
    if m > 0 && st.Running? {
      RunAdd(p, o, Step(p, o, st.s), m - 1, n);
    } else if m > 0 {
      RunEnded(p, o, st, m + n);
      RunEnded(p, o, st, n);
    }
  }

  lemma {:induction false} RunEnded(p: Program, o: Oracle, st: Status, n: nat)
    requires !st.Running?
    ensures Run(p, o, st, n) == st
  {
  }
}
