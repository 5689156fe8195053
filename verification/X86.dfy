/**
 The x86-64 instructions that the kernel's just-in-time compiler emits for the
 listed programs, with their lengths in bytes: jumps name byte addresses. Values,
 memory and helpers are those of the BPF machine; rbp points at the frame.
 */
module X86 {
  import opened Word
  import opened Isa
  import opened Machine
  import opened Behaviours

  datatype XReg = RAX | RDI | RSI | RDX | RCX | R8 | RBX | R13 | R14 | R15 | RBP

  datatype XInsn =
    | MovRR(dst: XReg, src: XReg)
    | MovLoad(size: Size, dst: XReg, base: XReg, disp: int)
    | MovStore(size: Size, base: XReg, disp: int, src: XReg)
    | AddImm(dst: XReg, imm: Imm32)
    | AddRR(dst: XReg, src: XReg)
    | ShiftImm(sop: AluOp, dst: XReg, count: nat)
    | MovAbs(dst: XReg, sym: Symbol, addend: U32)
    | MovImm32(dst: XReg, value: U32)
    | XorSelf(dst: XReg)
    | TestSelf(reg: XReg)
    | CmpImm(reg: XReg, imm: Imm32)
    | JmpTo(target: int)
    | JeTo(target: int)
    | JaTo(target: int)
    | CallQ(helper: Helper)
    | Leave

  /** Registers that need a prefix byte where the others do without. */
  predicate Extended(r: XReg) {
    r in {R8, R13, R14, R15}
  }

  /** The encoded length in bytes, with 8-bit displacements and immediates. */
  function Length(i: XInsn): (n: nat)
    ensures n > 0
  {
    match i
    case MovRR(_, _) | AddRR(_, _) | TestSelf(_) => 3
    case MovLoad(size, d, b, _) => if size.B? then 5 else if size.W? && !Extended(d) && !Extended(b) then 3 else 4
    case MovStore(size, b, _, s) => if size.W? && !Extended(s) && !Extended(b) then 3 else 4
    case AddImm(_, _) | ShiftImm(_, _, _) | CmpImm(_, _) => 4
    case MovAbs(_, _, _) => 10
    case MovImm32(d, _) => if Extended(d) then 6 else 5
    case XorSelf(d) => if Extended(d) then 3 else 2
    case JmpTo(_) | JeTo(_) | JaTo(_) => 2
    case CallQ(_) => 5
    case Leave => 1
  }

  type XProgram = seq<XInsn>

  /** The address of instruction i, for code that starts at address base. */
  function Address(code: XProgram, base: int, i: nat): int
    requires i <= |code|
  {
    if i == 0 then base else Address(code, base, i - 1) + Length(code[i - 1])
  }

  /** The instruction that starts at an address, looking from instruction i on. */
  function Find(code: XProgram, base: int, a: int, i: nat): Option<nat>
    requires i <= |code|
    decreases |code| - i
  {
    if Address(code, base, i) == a then Some(i)
    else if i == |code| then None
    else Find(code, base, a, i + 1)
  }

  datatype XRegs = XRegs(rax: Value, rdi: Value, rsi: Value, rdx: Value, rcx: Value, r8: Value,
                         rbx: Value, r13: Value, r14: Value, r15: Value, rbp: Value)
  {
    function Get(r: XReg): Value {
      match r
      case RAX => rax
      case RDI => rdi
      case RSI => rsi
      case RDX => rdx
      case RCX => rcx
      case R8 => r8
      case RBX => rbx
      case R13 => r13
      case R14 => r14
      case R15 => r15
      case RBP => rbp
    }

    function With(r: XReg, v: Value): XRegs {
      match r
      case RAX => this.(rax := v)
      case RDI => this.(rdi := v)
      case RSI => this.(rsi := v)
      case RDX => this.(rdx := v)
      case RCX => this.(rcx := v)
      case R8 => this.(r8 := v)
      case RBX => this.(rbx := v)
      case R13 => this.(r13 := v)
      case R14 => this.(r14 := v)
      case R15 => this.(r15 := v)
      case RBP => this.(rbp := v)
    }
  }

  /** The zero and carry flags. A simplification: additions, shifts and exclusive ors leave them
      as they are. Compiled code never sees the difference, as each of its conditional jumps
      directly follows the comparison whose flags it reads. */
  datatype Flags = Flags(zero: bool, carry: bool)

  datatype XState = XState(at: nat, regs: XRegs, flags: Flags, stack: Frame, mem: Memory, trace: seq<Event>, calls: nat)

  datatype XStatus = XRunning(s: XState) | XExited(result: U64, end: XState) | XError

  /** The calling convention: rdi, rsi, rdx, rcx and r8 carry the arguments, rax the result. */
  function AsCaller(s: XState, pc: int): State {
    State(pc, Regs(s.regs.rax, s.regs.rdi, s.regs.rsi, s.regs.rdx, s.regs.rcx, s.regs.r8,
                   s.regs.rbx, s.regs.r13, s.regs.r14, s.regs.r15, s.regs.rbp), s.stack, s.mem, s.trace, s.calls)
  }

  function FromCallee(t: State, at: nat, flags: Flags): XState {
    XState(at, XRegs(t.regs.r0, t.regs.r1, t.regs.r2, t.regs.r3, t.regs.r4, t.regs.r5,
                     t.regs.r6, t.regs.r7, t.regs.r8, t.regs.r9, t.regs.r10), flags, t.stack, t.mem, t.trace, t.calls)
  }

  function SetX(s: XState, d: XReg, v: Option<Value>): XStatus {
    if v.None? || d.RBP? then XError else XRunning(s.(at := s.at + 1, regs := s.regs.With(d, v.value)))
  }

  function JumpX(code: XProgram, base: int, s: XState, target: int): XStatus {
    var i := Find(code, base, target, 0);
    if i.None? then XError else XRunning(s.(at := i.value))
  }

  /** test r, r: the zero flag tells whether r and r is zero; a pointer never is. */
  function TestFlags(v: Value): Option<Flags> {
    if v.Scalar? then Some(Flags(Bits64(BitAnd, v.n, v.n) == 0, false))
    else if v.Ptr? then Some(Flags(false, false))
    else None
  }

  function CmpFlags(v: Value, imm: Imm32): Option<Flags> {
    if v.Scalar? then Some(Flags(v.n == Wrap(imm), v.n < Wrap(imm))) else None
  }

  function ExecuteX(code: XProgram, base: int, i: XInsn, s: XState, r: Reply): XStatus {
    match i
    case MovRR(d, b) => SetX(s, d, AluResult(Mov, s.regs.Get(d), s.regs.Get(b)))
    case MovLoad(size, d, b, disp) => SetX(s, d, LoadValue(AsCaller(s, 0), size, s.regs.Get(b), disp))
    case MovStore(size, b, disp, src) =>
      var w := StoreValue(AsCaller(s, 0), size, s.regs.Get(b), disp, s.regs.Get(src));
      if w.None? then XError else XRunning(s.(at := s.at + 1, mem := w.value.0, stack := w.value.1))
    case AddImm(d, imm) => SetX(s, d, AluResult(Add, s.regs.Get(d), Scalar(Wrap(imm))))
    case AddRR(d, b) => SetX(s, d, AluResult(Add, s.regs.Get(d), s.regs.Get(b)))
    case ShiftImm(op, d, count) =>
      if count < 64 then SetX(s, d, AluResult(op, s.regs.Get(d), Scalar(count))) else XError
    case MovAbs(d, sym, addend) => SetX(s, d, Some(Resolve(sym, addend)))
    case MovImm32(d, v) => SetX(s, d, Some(Scalar(v)))
    case XorSelf(d) => SetX(s, d, Some(Cleared(s.regs.Get(d))))
    case TestSelf(d) =>
      var f := TestFlags(s.regs.Get(d));
      if f.None? then XError else XRunning(s.(at := s.at + 1, flags := f.value))
    case CmpImm(d, imm) =>
      var f := CmpFlags(s.regs.Get(d), imm);
      if f.None? then XError else XRunning(s.(at := s.at + 1, flags := f.value))
    case JmpTo(t) => JumpX(code, base, s, t)
    case JeTo(t) => if s.flags.zero then JumpX(code, base, s, t) else XRunning(s.(at := s.at + 1))
    case JaTo(t) => if !s.flags.carry && !s.flags.zero then JumpX(code, base, s, t) else XRunning(s.(at := s.at + 1))
    case CallQ(h) =>
      (match CallHelper(h, AsCaller(s, 0), r)
       case Running(t) => XRunning(FromCallee(t, s.at + 1, s.flags))
       case Exited(_, _) => XError
       case Error => XError)
    case Leave => if s.regs.rax.Scalar? then XExited(s.regs.rax.n, s) else XError
  }

  /** A 32-bit exclusive or of a register with itself, whatever the register held. */
  function Cleared(v: Value): Value {
    var low := if v.Scalar? then v.n % 0x1_0000_0000 else 0;
    XorSelfZero(low);
    Scalar(Bits(BitXor, low, low, 32))
  }

  lemma XorSelfZero(x: nat)
    ensures Bits(BitXor, x, x, 32) == 0
  {
    Word.XorSelf(x, 32);
  }

  function StepX(code: XProgram, base: int, o: Oracle, s: XState): XStatus {
    if s.at < |code| then ExecuteX(code, base, code[s.at], s, o(s.calls)) else XError
  }

  function RunX(code: XProgram, base: int, o: Oracle, st: XStatus, n: nat): XStatus
    decreases n, st
  {
    if n == 0 || !st.XRunning? then st else RunX(code, base, o, StepX(code, base, o, st.s), n - 1)
  }

  lemma {:induction false} RunXAdd(code: XProgram, base: int, o: Oracle, st: XStatus, m: nat, n: nat)
    ensures RunX(code, base, o, st, m + n) == RunX(code, base, o, RunX(code, base, o, st, m), n)
    decreases m
  {
    if m > 0 && st.XRunning? { RunXAdd(code, base, o, StepX(code, base, o, st.s), m - 1, n); }
  }

  lemma {:induction false} AddressGrows(code: XProgram, base: int, i: nat, j: nat)
    requires i < j <= |code|
    ensures Address(code, base, i) < Address(code, base, j)
    decreases j
  {
    if i < j - 1 { AddressGrows(code, base, i, j - 1); }
  }

  /** Addresses identify instructions. */
  lemma {:induction false} FindsAddress(code: XProgram, base: int, i: nat, j: nat)
    requires i <= j <= |code|
    ensures Find(code, base, Address(code, base, j), i) == Some(j)
    decreases j - i
  {
    if i < j {
      AddressGrows(code, base, i, j);
      FindsAddress(code, base, i + 1, j);
    }
  }

  // ---- Whole runs ----

  /** The state behind the prologue: rdi holds the context and rbp the frame. */
  function EntryX(mem: Memory): XState {
    FromCallee(Entry(mem), 0, Flags(false, false))
  }

  function ObserveX(st: XStatus): Behaviour {
    match st
    case XRunning(_) => Diverges
    case XExited(r, end) => Returns(r, end.mem, end.trace)
    case XError => Fails
  }

  predicate EndedX(code: XProgram, base: int, o: Oracle, mem: Memory, n: nat) {
    !RunX(code, base, o, XRunning(EntryX(mem)), n).XRunning?
  }

  ghost function BehaviourOfX(code: XProgram, base: int, o: Oracle, mem: Memory): Behaviour {
    if exists n: nat :: EndedX(code, base, o, mem, n) then
      var n: nat :| EndedX(code, base, o, mem, n);
      ObserveX(RunX(code, base, o, XRunning(EntryX(mem)), n))
    else Diverges
  }

  lemma SettledX(code: XProgram, base: int, o: Oracle, st: XStatus, m: nat, n: nat)
    requires m <= n && !RunX(code, base, o, st, m).XRunning?
    ensures RunX(code, base, o, st, n) == RunX(code, base, o, st, m)
  {
    RunXAdd(code, base, o, st, m, n - m);
  }

  lemma BehaviourIsX(code: XProgram, base: int, o: Oracle, mem: Memory, n: nat)
    requires EndedX(code, base, o, mem, n)
    ensures BehaviourOfX(code, base, o, mem) == ObserveX(RunX(code, base, o, XRunning(EntryX(mem)), n))
  {
    hide EntryX, StepX;
    var m: nat :| EndedX(code, base, o, mem, m)
                  && BehaviourOfX(code, base, o, mem) == ObserveX(RunX(code, base, o, XRunning(EntryX(mem)), m));
    if m <= n { SettledX(code, base, o, XRunning(EntryX(mem)), m, n); } else { SettledX(code, base, o, XRunning(EntryX(mem)), n, m); }
  }
}
