/**
 The translation of bytecode to x86-64: one or two machine instructions for each
 BPF instruction, registers mapped one to one, slot offsets turned into addresses.
 For every program that it covers, the code behaves as the bytecode.
 */
module Jit {
  import opened Word
  import opened Isa
  import opened Machine
  import opened Behaviours
  import opened X86
  import Rewriter

  function XR(r: RegId): XReg {
    match r
    case 0 => RAX
    case 1 => RDI
    case 2 => RSI
    case 3 => RDX
    case 4 => RCX
    case 5 => R8
    case 6 => RBX
    case 7 => R13
    case 8 => R14
    case 9 => R15
    case _ => RBP
  }

  predicate Small(x: int) {
    -128 <= x < 128
  }

  /** The instructions of the listings that have been compiled. */
  predicate Covered(i: Insn) {
    match i
    case Alu(Mov, _, Reg(_)) => true
    case Alu(Mov, _, Imm(c)) => c >= 0
    case Alu(Add, _, Imm(c)) => Small(c)
    case Alu(Add, _, Reg(_)) => true
    case Alu(op, _, Imm(c)) => (op.Lsh? || op.Rsh? || op.Arsh?) && 0 <= c < 64
    case Alu(_, _, _) => false
    case Load(size, _, _, off) => !size.H? && Small(off)
    case Store(size, _, off, _) => (size.W? || size.DW?) && Small(off)
    case LoadImm(_, v) => v < 0x1_0000_0000
    case JumpIf(Eq, _, Imm(c), _) => c == 0
    case JumpIf(Gt, _, Imm(c), _) => Small(c)
    case JumpIf(_, _, _, _) => false
    case _ => true
  }

  function Emit(i: Insn, target: int): XProgram
    requires Covered(i)
  {
    match i
    case Alu(Mov, d, Reg(r)) => [MovRR(XR(d), XR(r))]
    case Alu(Mov, d, Imm(c)) => if c == 0 then [XorSelf(XR(d))] else [MovImm32(XR(d), c)]
    case Alu(Add, d, Imm(c)) => [AddImm(XR(d), c)]
    case Alu(Add, d, Reg(r)) => [AddRR(XR(d), XR(r))]
    case Alu(op, d, Imm(c)) => [ShiftImm(op, XR(d), c)]
    case Load(size, d, b, off) => [MovLoad(size, XR(d), XR(b), off)]
    case Store(size, b, off, v) => [MovStore(size, XR(b), off, XR(v))]
    case LoadImm(d, v) => if v == 0 then [XorSelf(XR(d))] else [MovImm32(XR(d), v)]
    case LoadSym(d, sym, addend) => [MovAbs(XR(d), sym, addend)]
    case Second => []
    case Jump(_) => [JmpTo(target)]
    case JumpIf(Eq, d, _, _) => [TestSelf(XR(d)), JeTo(target)]
    case JumpIf(Gt, d, Imm(c), _) => [CmpImm(XR(d), c), JaTo(target)]
    case Call(h) => [CallQ(h)]
    case Exit => [Leave]
    case _ => []
  }

  function TotalLength(code: XProgram): nat {
    if code == [] then 0 else TotalLength(code[..|code| - 1]) + Length(code[|code| - 1])
  }

  /** The length of the code for an instruction, in bytes. */
  function BytesOf(i: Insn): nat {
    if Covered(i) then TotalLength(Emit(i, 0)) else 0
  }

  /** The address of the code for slot k. */
  function SlotAddress(p: Program, base: int, k: nat): int
    requires k <= |p|
  {
    if k == 0 then base else SlotAddress(p, base, k - 1) + BytesOf(p[k - 1])
  }

  /** Programs that the translation covers: second slots only behind wide loads, jumps only
      to instructions, and only as far as a jump of two bytes reaches. */
  predicate Compilable(p: Program) {
    && Lands(p, 0)
    && (forall k :: 0 <= k < |p| ==> Covered(p[k]))
    && (forall k :: 0 <= k < |p| ==> SlotOk(p, k))
  }

  predicate SlotOk(p: Program, k: int)
    requires 0 <= k < |p|
  {
    && (Wide(p[k]) ==> k + 1 < |p| && p[k + 1] == Second && Lands(p, k + 2))
    && (!Wide(p[k]) && p[k] != Second ==> Lands(p, k + 1))
    && (p[k].Jump? || p[k].JumpIf? ==> Lands(p, k + 1 + p[k].joff) && Reaches(p, k + 1, k + 1 + p[k].joff))
  }

  /** From the end of a jump, 8 bits hold the distance to the code for slot k. */
  predicate Reaches(p: Program, next: nat, k: nat)
    requires next <= |p| && k <= |p|
  {
    Small(SlotAddress(p, 0, k) - SlotAddress(p, 0, next))
  }

  predicate Lands(p: Program, k: int) {
    0 <= k <= |p| && (k < |p| ==> p[k] != Second)
  }

  /** The first machine instruction for slot k. */
  function Index(p: Program, k: nat): nat
    requires Compilable(p) && k <= |p|
  {
    if k == 0 then 0 else Index(p, k - 1) + |Emit(p[k - 1], 0)|
  }

  function JumpAddress(p: Program, base: int, k: nat): int
    requires Compilable(p) && k < |p|
  {
    assert SlotOk(p, k);
    if p[k].Jump? || p[k].JumpIf? then SlotAddress(p, base, k + 1 + p[k].joff) else 0
  }

  function CodeFor(p: Program, base: int, k: nat): (code: XProgram)
    requires Compilable(p) && k < |p|
    ensures |code| == |Emit(p[k], 0)| && TotalLength(code) == BytesOf(p[k])
  {
    EmitShape(p[k], 0, JumpAddress(p, base, k));
    Emit(p[k], JumpAddress(p, base, k))
  }

  function CompileTo(p: Program, base: int, k: nat): (code: XProgram)
    requires Compilable(p) && k <= |p|
    ensures |code| == Index(p, k)
  {
    if k == 0 then [] else CompileTo(p, base, k - 1) + CodeFor(p, base, k - 1)
  }

  function Compile(p: Program, base: int): XProgram
    requires Compilable(p)
  {
    CompileTo(p, base, |p|)
  }

  /** Neither the number nor the length of the emitted instructions depends on the target. */
  lemma EmitShape(i: Insn, t: int, u: int)
    requires Covered(i)
    ensures |Emit(i, t)| == |Emit(i, u)| && TotalLength(Emit(i, t)) == TotalLength(Emit(i, u))
  {
    var a, b := Emit(i, t), Emit(i, u);
    if |a| == 2 { assert a[..1] == b[..1]; }
    if |a| == 1 { assert a[..0] == b[..0]; }
  }

  lemma {:induction false} CodeAt(p: Program, base: int, n: nat, k: nat, j: nat)
    requires Compilable(p) && k < n <= |p| && j < |CodeFor(p, base, k)|
    ensures Index(p, k) + j < Index(p, n) && CompileTo(p, base, n)[Index(p, k) + j] == CodeFor(p, base, k)[j]
    decreases n
  {
    hide Emit;
    if k < n - 1 { CodeAt(p, base, n - 1, k, j); }
  }

  lemma {:induction false} AddressPrefix(a: XProgram, b: XProgram, base: int, i: nat)
    requires i <= |a|
    ensures Address(a + b, base, i) == Address(a, base, i)
    decreases i
  {
    if i > 0 { AddressPrefix(a, b, base, i - 1); }
  }

  lemma {:induction false} AddressAppend(a: XProgram, b: XProgram, base: int)
    ensures Address(a + b, base, |a + b|) == Address(a, base, |a|) + TotalLength(b)
    decreases |b|
  {
    if b == [] {
      assert a + b == a;
    } else {
      var c := b[..|b| - 1];
      assert a + b == (a + c) + [b[|b| - 1]];
      AddressPrefix(a + c, [b[|b| - 1]], base, |a + c|);
      AddressAppend(a, c, base);
    }
  }

  /** The code for slot k starts at its address. */
  lemma {:induction false} SlotPlaced(p: Program, base: int, n: nat, k: nat)
    requires Compilable(p) && k <= n <= |p|
    ensures Index(p, k) <= Index(p, n) && Address(CompileTo(p, base, n), base, Index(p, k)) == SlotAddress(p, base, k)
    decreases n
  {
    hide Emit, Compilable;
    if n > 0 {
      var a, b := CompileTo(p, base, n - 1), CodeFor(p, base, n - 1);
      assert CompileTo(p, base, n) == a + b;
      if k < n {
        SlotPlaced(p, base, n - 1, k);
        AddressPrefix(a, b, base, Index(p, k));
      } else {
        SlotPlaced(p, base, n - 1, n - 1);
        AddressAppend(a, b, base);
      }
    }
  }

  // ---- Simulation ----

  /** The same state, between the translations of two instructions. */
  predicate Twin(p: Program, s: State, x: XState)
    requires Compilable(p)
  {
    Lands(p, s.pc) && x.at == Index(p, s.pc) && AsCaller(x, s.pc) == s
  }

  predicate Match(p: Program, st: Status, xt: XStatus)
    requires Compilable(p)
  {
    match st
    case Error => xt.XError?
    case Exited(r, end) => xt.XExited? && xt.result == r && Twin(p, end, xt.end)
    case Running(s) => xt.XRunning? && Twin(p, s, xt.s)
  }

  lemma RegsAgree(x: XState, s: State, r: RegId, v: Value)
    requires AsCaller(x, s.pc) == s
    ensures x.regs.Get(XR(r)) == s.regs.Get(r)
    ensures AsCaller(x.(regs := x.regs.With(XR(r), v)), s.pc) == s.(regs := s.regs.With(r, v))
    ensures XR(r) == RBP <==> r == FRAME
  {
  }

  /** Addresses of slots lead to their code. */
  lemma JumpsTo(p: Program, base: int, x: XState, k: nat)
    requires Compilable(p) && k <= |p|
    ensures JumpX(Compile(p, base), base, x, SlotAddress(p, base, k)) == XRunning(x.(at := Index(p, k)))
  {
    hide Compilable, Emit;
    SlotPlaced(p, base, |p|, k);
    FindsAddress(Compile(p, base), base, 0, Index(p, k));
  }

  lemma Follows(p: Program, k: nat)
    requires Compilable(p) && Lands(p, k) && k < |p|
    ensures Covered(p[k])
    ensures Wide(p[k]) ==> Lands(p, k + 2) && Index(p, k + 2) == Index(p, k) + 1
    ensures !Wide(p[k]) ==> Lands(p, k + 1) && Index(p, k + 1) == Index(p, k) + |Emit(p[k], 0)|
    ensures p[k].Jump? || p[k].JumpIf? ==> Lands(p, k + 1 + p[k].joff)
  {
    assert SlotOk(p, k);
    if Wide(p[k]) {
      assert k + 1 < |p| && p[k + 1] == Second;
      var second := p[k + 1];
      assert Index(p, k + 2) == Index(p, k + 1) + |Emit(second, 0)|;
    }
  }

  predicate Writes(i: Insn) {
    i.Alu? || i.Load? || i.LoadImm? || i.LoadSym?
  }

  /** The value that an instruction puts into its register, if it is safe. */
  function Written(i: Insn, s: State): Option<Value>
    requires Writes(i)
  {
    match i
    case Alu(op, d, src) => AluResult(op, s.regs.Get(d), OperandValue(s.regs, src))
    case Load(size, _, b, off) => LoadValue(s, size, s.regs.Get(b), off)
    case LoadImm(_, v) => Some(Scalar(v))
    case LoadSym(_, sym, addend) => Some(Resolve(sym, addend))
  }

  lemma WrittenByBpf(i: Insn, s: State, r: Reply)
    requires Writes(i)
    ensures Execute(i, s, r) == if Written(i, s).None? then Error
                                else SetReg(s, i.dst, Written(i, s).value, s.pc + if Wide(i) then 2 else 1)
  {
    hide AluResult, LoadValue, Resolve, OperandValue;
  }

  lemma LoadsAgree(x: XState, s: State, size: Size, b: RegId, off: int)
    requires AsCaller(x, s.pc) == s
    ensures LoadValue(AsCaller(x, 0), size, x.regs.Get(XR(b)), off) == LoadValue(s, size, s.regs.Get(b), off)
  {
    hide LoadValue, XR;
    RegsAgree(x, s, b, Uninit);
    assert AsCaller(x, 0) == s.(pc := s.pc + (0 - s.pc));
    Rewriter.LoadMoved(s, size, s.regs.Get(b), off, 0 - s.pc);
  }

  lemma RegisterAluByX86(i: Insn, code: XProgram, base: int, t: int, x: XState, s: State, r: Reply)
    requires i.Alu? && i.src.Reg? && Covered(i) && AsCaller(x, s.pc) == s
    ensures |Emit(i, t)| == 1 && ExecuteX(code, base, Emit(i, t)[0], x, r) == SetX(x, XR(i.dst), Written(i, s))
  {
    hide XR, AsCaller, CallHelper, JumpX, SetX, TestFlags, CmpFlags, StoreValue, LoadValue, Resolve, AluResult, Cleared;
    RegsAgree(x, s, i.dst, Uninit);
    RegsAgree(x, s, i.src.reg, Uninit);
  }

  lemma ImmediateAluByX86(i: Insn, code: XProgram, base: int, t: int, x: XState, s: State, r: Reply)
    requires i.Alu? && i.src.Imm? && Covered(i) && AsCaller(x, s.pc) == s
    ensures |Emit(i, t)| == 1 && ExecuteX(code, base, Emit(i, t)[0], x, r) == SetX(x, XR(i.dst), Written(i, s))
  {
    hide XR, AsCaller, CallHelper, JumpX, SetX, TestFlags, CmpFlags, StoreValue, LoadValue, Resolve, AluResult, Cleared;
    RegsAgree(x, s, i.dst, Uninit);
    MovAgrees(i.aop, s.regs.Get(i.dst), i.src.imm);
  }

  lemma AluByX86(i: Insn, code: XProgram, base: int, t: int, x: XState, s: State, r: Reply)
    requires i.Alu? && Covered(i) && AsCaller(x, s.pc) == s
    ensures |Emit(i, t)| == 1 && ExecuteX(code, base, Emit(i, t)[0], x, r) == SetX(x, XR(i.dst), Written(i, s))
  {
    hide Emit, ExecuteX, SetX, XR, Written, Covered, AsCaller;
    if i.src.Reg? { RegisterAluByX86(i, code, base, t, x, s, r); } else { ImmediateAluByX86(i, code, base, t, x, s, r); }
  }

  lemma WrittenByX86(i: Insn, code: XProgram, base: int, t: int, x: XState, s: State, r: Reply)
    requires Writes(i) && Covered(i) && AsCaller(x, s.pc) == s
    ensures |Emit(i, t)| == 1 && ExecuteX(code, base, Emit(i, t)[0], x, r) == SetX(x, XR(i.dst), Written(i, s))
  {
    hide XR, AsCaller, CallHelper, JumpX, SetX, TestFlags, CmpFlags, StoreValue, AluResult, Resolve, LoadValue, Cleared;
    match i
    case Alu(_, _, _) => AluByX86(i, code, base, t, x, s, r);
    case Load(size, d, b, off) => LoadsAgree(x, s, size, b, off);
    case LoadImm(_, v) => ClearedIsZero(x.regs.Get(XR(i.dst)));
    case LoadSym(_, _, _) =>
  }

  lemma ClearedIsZero(v: Value)
    ensures Cleared(v) == Scalar(0)
  {
    hide Bits;
    X86.XorSelfZero(if v.Scalar? then v.n % 0x1_0000_0000 else 0);
  }

  lemma MovAgrees(op: AluOp, d: Value, c: Imm32)
    ensures op.Mov? && c >= 0 ==> AluResult(op, d, Scalar(Wrap(c))) == Some(Scalar(c))
    ensures 0 <= c ==> Wrap(c) == c
    ensures Cleared(d) == Scalar(0)
  {
    ClearedIsZero(d);
    hide Cleared, ScalarAlu;
  }

  // ---- One instruction against its translation ----

  /** The same effect, the machine code continuing at instruction next. */
  predicate Agree(st: Status, xt: XStatus, next: nat) {
    match st
    case Error => xt.XError?
    case Exited(r, end) => xt.XExited? && xt.result == r && AsCaller(xt.end, end.pc) == end && xt.end.at == next - 1
    case Running(t) => xt.XRunning? && AsCaller(xt.s, t.pc) == t && xt.s.at == next
  }

  lemma SetAgrees(s: State, x: XState, d: RegId, v: Option<Value>, pc: int)
    requires AsCaller(x, s.pc) == s
    ensures Agree(if v.None? then Error else SetReg(s, d, v.value, pc), SetX(x, XR(d), v), x.at + 1)
  {
    RegsAgree(x, s, d, if v.Some? then v.value else Uninit);
    hide XR;
  }

  lemma WriteAgrees(i: Insn, code: XProgram, base: int, t: int, x: XState, s: State, r: Reply)
    requires Writes(i) && Covered(i) && AsCaller(x, s.pc) == s
    ensures |Emit(i, t)| == 1 && Agree(Execute(i, s, r), ExecuteX(code, base, Emit(i, t)[0], x, r), x.at + 1)
  {
    WrittenByBpf(i, s, r);
    WrittenByX86(i, code, base, t, x, s, r);
    SetAgrees(s, x, i.dst, Written(i, s), s.pc + if Wide(i) then 2 else 1);
    hide Emit, Execute, ExecuteX, XR, Written, Covered, SetX, SetReg, Agree, AsCaller;
  }

  lemma StoresAgree(x: XState, s: State, size: Size, b: Value, off: int, v: Value)
    requires AsCaller(x, s.pc) == s
    ensures StoreValue(AsCaller(x, 0), size, b, off, v) == StoreValue(s, size, b, off, v)
  {
    hide WriteBytes, Bytes;
  }

  lemma StoreAgrees(i: Insn, code: XProgram, base: int, t: int, x: XState, s: State, r: Reply)
    requires i.Store? && Covered(i) && AsCaller(x, s.pc) == s
    ensures |Emit(i, t)| == 1 && Agree(Execute(i, s, r), ExecuteX(code, base, Emit(i, t)[0], x, r), x.at + 1)
  {
    RegsAgree(x, s, i.base, Uninit);
    RegsAgree(x, s, i.val, Uninit);
    StoresAgree(x, s, i.size, s.regs.Get(i.base), i.off, s.regs.Get(i.val));
    hide XR, StoreValue;
  }

  lemma CallAgrees(i: Insn, code: XProgram, base: int, t: int, x: XState, s: State, r: Reply)
    requires i.Call? && AsCaller(x, s.pc) == s
    ensures |Emit(i, t)| == 1 && Agree(Execute(i, s, r), ExecuteX(code, base, Emit(i, t)[0], x, r), x.at + 1)
  {
    assert AsCaller(x, 0) == s.(pc := s.pc + (0 - s.pc));
    Rewriter.HelperMoved(i.helper, s, r, 0 - s.pc);
    hide CallHelper;
  }

  lemma ExitAgrees(i: Insn, code: XProgram, base: int, t: int, x: XState, s: State, r: Reply)
    requires i.Exit? && AsCaller(x, s.pc) == s
    ensures |Emit(i, t)| == 1 && Agree(Execute(i, s, r), ExecuteX(code, base, Emit(i, t)[0], x, r), x.at + 1)
  {
  }

  /** Every instruction but the jumps has the effect of its translation. */
  lemma PlainAgrees(i: Insn, code: XProgram, base: int, t: int, x: XState, s: State, r: Reply)
    requires Covered(i) && !i.Jump? && !i.JumpIf? && !i.Second? && AsCaller(x, s.pc) == s
    ensures |Emit(i, t)| == 1 && Agree(Execute(i, s, r), ExecuteX(code, base, Emit(i, t)[0], x, r), x.at + 1)
  {
    hide Emit, Execute, ExecuteX, Agree, AsCaller, Covered;
    match i
    case Store(_, _, _, _) => StoreAgrees(i, code, base, t, x, s, r);
    case Call(_) => CallAgrees(i, code, base, t, x, s, r);
    case Exit => ExitAgrees(i, code, base, t, x, s, r);
    case _ => WriteAgrees(i, code, base, t, x, s, r);
  }

  // ---- One step of a program ----

  lemma Fetched(p: Program, base: int, k: nat, j: nat)
    requires Compilable(p) && k < |p| && j < |Emit(p[k], 0)|
    ensures var code := Compile(p, base);
            && |Emit(p[k], JumpAddress(p, base, k))| == |Emit(p[k], 0)| && Index(p, k) + j < |code|
            && code[Index(p, k) + j] == Emit(p[k], JumpAddress(p, base, k))[j]
  {
    hide Compilable, Emit, Covered;
    CodeAt(p, base, |p|, k, j);
  }

  lemma AgreeMatches(p: Program, s: State, x: XState, st: Status, xt: XStatus, next: nat)
    requires Compilable(p) && Twin(p, s, x) && Agree(st, xt, next) && (st.Exited? ==> st.end == s && next == x.at + 1)
    requires st.Running? ==> Lands(p, st.s.pc) && Index(p, st.s.pc) == next
    ensures Match(p, st, xt)
  {
    hide Compilable, Index;
  }

  /** A straight-line instruction goes on behind its translation. */
  lemma PlainNext(p: Program, s: State, st: Status, n: nat)
    requires Compilable(p) && 0 <= s.pc < |p| && Lands(p, s.pc) && !p[s.pc].Jump? && !p[s.pc].JumpIf?
    requires st.Running? ==> st.s.pc == s.pc + if Wide(p[s.pc]) then 2 else 1
    requires |Emit(p[s.pc], 0)| == 1 && n == Index(p, s.pc) + 1
    ensures st.Running? ==> Lands(p, st.s.pc) && Index(p, st.s.pc) == n
  {
    hide Compilable, Emit, Covered, Lands;
    Follows(p, s.pc);
  }

  lemma StepPlain(p: Program, base: int, o: Oracle, s: State, x: XState)
    requires Compilable(p) && Twin(p, s, x) && s.pc < |p| && !p[s.pc].Jump? && !p[s.pc].JumpIf?
    ensures Match(p, Step(p, o, s), StepX(Compile(p, base), base, o, x))
  {
    var k, i, code := s.pc, p[s.pc], Compile(p, base);
    var t := JumpAddress(p, base, k);
    hide Compilable, Emit, Execute, ExecuteX, Covered, JumpAddress, Index, CompileTo, Agree, Match, AsCaller, Lands, Step, StepX;
    Follows(p, k);
    PlainAgrees(i, code, base, t, x, s, o(s.calls));
    EmitShape(i, 0, t);
    Fetched(p, base, k, 0);
    Rewriter.NextPc(i, s, o(s.calls));
    StepIs(p, o, s);
    StepXIs(code, base, o, x);
    PlainNext(p, s, Step(p, o, s), x.at + 1);
    AgreeMatches(p, s, x, Step(p, o, s), StepX(code, base, o, x), x.at + 1);
  }

  lemma StepIs(p: Program, o: Oracle, s: State)
    requires 0 <= s.pc < |p|
    ensures Step(p, o, s) == Execute(p[s.pc], s, o(s.calls))
  {
  }

  lemma StepOfJump(p: Program, o: Oracle, s: State)
    requires 0 <= s.pc < |p| && p[s.pc].Jump?
    ensures Step(p, o, s) == Running(s.(pc := s.pc + 1 + p[s.pc].joff))
  {
  }

  lemma StepOfJumpIf(p: Program, o: Oracle, s: State)
    requires 0 <= s.pc < |p| && p[s.pc].JumpIf?
    ensures var i := p[s.pc];
            var c := Compare(i.cop, s.regs.Get(i.left), OperandValue(s.regs, i.right));
            Step(p, o, s) == if c.None? then Error else Running(s.(pc := s.pc + 1 + if c.value then i.joff else 0))
  {
    hide Compare, OperandValue;
  }

  /** A jump to a slot lands at the translation of the instruction there. */
  lemma JumpMatches(p: Program, base: int, s: State, x: XState, pc: int)
    requires Compilable(p) && AsCaller(x, s.pc) == s && Lands(p, pc)
    ensures Match(p, Running(s.(pc := pc)), JumpX(Compile(p, base), base, x, SlotAddress(p, base, pc)))
  {
    JumpsTo(p, base, x, pc);
    hide Compilable, JumpX, SlotAddress, Index;
  }

  lemma EmitJump(i: Insn, t: int)
    requires i.Jump?
    ensures Covered(i) && Emit(i, t) == [JmpTo(t)]
  {
  }

  lemma JumpByX86(p: Program, base: int, o: Oracle, x: XState, k: nat)
    requires Compilable(p) && k < |p| && p[k].Jump? && x.at == Index(p, k) && Lands(p, k + 1 + p[k].joff)
    ensures StepX(Compile(p, base), base, o, x) == JumpX(Compile(p, base), base, x, SlotAddress(p, base, k + 1 + p[k].joff))
  {
    hide Compilable, Emit, CompileTo, Index, Covered, SlotAddress, JumpX, Lands;
    EmitJump(p[k], 0);
    EmitJump(p[k], JumpAddress(p, base, k));
    Fetched(p, base, k, 0);
  }

  lemma StepJump(p: Program, base: int, o: Oracle, s: State, x: XState)
    requires Compilable(p) && Twin(p, s, x) && s.pc < |p| && p[s.pc].Jump?
    ensures Match(p, Step(p, o, s), StepX(Compile(p, base), base, o, x))
  {
    hide Compilable, Emit, CompileTo, Index, Covered, SlotAddress, JumpX, JumpAddress, Match, Step, StepX, AsCaller;
    Follows(p, s.pc);
    JumpByX86(p, base, o, x, s.pc);
    StepOfJump(p, o, s);
    JumpMatches(p, base, s, x, s.pc + 1 + p[s.pc].joff);
  }

  lemma AndSelf(x: nat, n: nat)
    requires x < Pow2(n)
    ensures Bits(BitAnd, x, x, n) == x
    decreases n
  {
    if n > 0 { AndSelf(x / 2, n - 1); }
  }

  /** Flags and conditional jumps decide as the comparison of the bytecode does. */
  lemma TestDecides(v: Value)
    ensures TestFlags(v).None? <==> Compare(Eq, v, Scalar(0)).None?
    ensures TestFlags(v).Some? ==> Compare(Eq, v, Scalar(0)) == Some(TestFlags(v).value.zero)
  {
    if v.Scalar? {
      Pow2Values();
      AndSelf(v.n, 64);
    }
    hide Bits;
  }

  lemma CmpDecides(v: Value, c: Imm32)
    ensures CmpFlags(v, c).None? <==> Compare(Gt, v, Scalar(Wrap(c))).None?
    ensures CmpFlags(v, c).Some? ==>
              Compare(Gt, v, Scalar(Wrap(c))) == Some(!CmpFlags(v, c).value.carry && !CmpFlags(v, c).value.zero)
  {
    hide Wrap;
  }

  /** What a conditional jump does once its condition is known. */
  predicate Decides(i: Insn, code: XProgram, base: int, t: int, x: XState, s: State, r: Reply)
    requires i.JumpIf? && Covered(i) && |Emit(i, t)| == 2
  {
    var xt := ExecuteX(code, base, Emit(i, t)[0], x, r);
    var c := Compare(i.cop, s.regs.Get(i.left), OperandValue(s.regs, i.right));
    && (c.None? ==> xt.XError?)
    && (c.Some? ==> xt.XRunning? && xt.s == x.(at := x.at + 1, flags := xt.s.flags)
                    && ExecuteX(code, base, Emit(i, t)[1], xt.s, r) ==
                       if c.value then JumpX(code, base, xt.s, t) else XRunning(xt.s.(at := xt.s.at + 1)))
  }

  lemma TestEqual(i: Insn, code: XProgram, base: int, t: int, x: XState, s: State, r: Reply)
    requires i.JumpIf? && i.cop.Eq? && Covered(i) && AsCaller(x, s.pc) == s
    ensures |Emit(i, t)| == 2 && Decides(i, code, base, t, x, s, r)
  {
    hide XR, JumpX, Compare, TestFlags, CmpFlags, AsCaller, CallHelper, SetX, StoreValue, LoadValue, Resolve, AluResult;
    RegsAgree(x, s, i.left, Uninit);
    TestDecides(s.regs.Get(i.left));
  }

  lemma TestGreater(i: Insn, code: XProgram, base: int, t: int, x: XState, s: State, r: Reply)
    requires i.JumpIf? && i.cop.Gt? && Covered(i) && AsCaller(x, s.pc) == s
    ensures |Emit(i, t)| == 2 && Decides(i, code, base, t, x, s, r)
  {
    hide XR, JumpX, Compare, TestFlags, CmpFlags, AsCaller, CallHelper, SetX, StoreValue, LoadValue, Resolve, AluResult;
    RegsAgree(x, s, i.left, Uninit);
    CmpDecides(s.regs.Get(i.left), i.right.imm);
  }

  lemma TestDecidesJump(i: Insn, code: XProgram, base: int, t: int, x: XState, s: State, r: Reply)
    requires i.JumpIf? && Covered(i) && AsCaller(x, s.pc) == s
    ensures |Emit(i, t)| == 2 && Decides(i, code, base, t, x, s, r)
  {
    hide Emit, Decides, AsCaller;
    if i.cop.Eq? { TestEqual(i, code, base, t, x, s, r); } else { TestGreater(i, code, base, t, x, s, r); }
  }

  lemma JumpAddressIs(p: Program, base: int, k: nat)
    requires Compilable(p) && k < |p| && p[k].JumpIf? && Lands(p, k + 1 + p[k].joff)
    ensures Covered(p[k]) && JumpAddress(p, base, k) == SlotAddress(p, base, k + 1 + p[k].joff)
  {
    hide Covered, Emit;
  }

  /** The two machine instructions of a conditional jump, run in place. */
  lemma TestSteps(p: Program, base: int, o: Oracle, s: State, x: XState)
    requires Compilable(p) && Twin(p, s, x) && s.pc < |p| && p[s.pc].JumpIf? && Lands(p, s.pc + 1 + p[s.pc].joff)
    ensures var i, code := p[s.pc], Compile(p, base);
            var c, st := Compare(i.cop, s.regs.Get(i.left), OperandValue(s.regs, i.right)), StepX(code, base, o, x);
            && (c.None? ==> st.XError?)
            && (c.Some? ==> st.XRunning? && st.s == x.(at := x.at + 1, flags := st.s.flags)
                            && StepX(code, base, o, st.s) ==
                               if c.value then JumpX(code, base, st.s, SlotAddress(p, base, s.pc + 1 + i.joff))
                               else XRunning(st.s.(at := st.s.at + 1)))
  {
    hide Compilable, Emit, CompileTo, Index, Covered, SlotAddress, JumpX, JumpAddress, ExecuteX, Compare, OperandValue, StepX;
    var k, i, code := s.pc, p[s.pc], Compile(p, base);
    var t := JumpAddress(p, base, k);
    JumpAddressIs(p, base, k);
    TestDecidesJump(i, code, base, t, x, s, o(s.calls));
    EmitShape(i, 0, t);
    Fetched(p, base, k, 0);
    Fetched(p, base, k, 1);
    StepXIs(code, base, o, x);
    var st := StepX(code, base, o, x);
    if st.XRunning? { StepXIs(code, base, o, st.s); }
  }

  /** Both ways out of a conditional jump, once it is decided. */
  lemma WayMatches(p: Program, base: int, s: State, x: XState, c: bool)
    requires Compilable(p) && AsCaller(x, s.pc) == s && 0 <= s.pc < |p| && p[s.pc].JumpIf?
    requires Lands(p, s.pc + 1) && Index(p, s.pc + 1) == x.at + 1 && Lands(p, s.pc + 1 + p[s.pc].joff)
    ensures Match(p, Running(s.(pc := s.pc + 1 + if c then p[s.pc].joff else 0)),
                  if c then JumpX(Compile(p, base), base, x, SlotAddress(p, base, s.pc + 1 + p[s.pc].joff))
                  else XRunning(x.(at := x.at + 1)))
  {
    hide Compilable, Index, SlotAddress, JumpX, Match, AsCaller, CompileTo;
    if c { JumpMatches(p, base, s, x, s.pc + 1 + p[s.pc].joff); } else { NextMatches(p, s, x); }
  }

  /** A conditional jump takes two machine instructions; f are the flags that the first sets. */
  lemma TestRuns(p: Program, base: int, o: Oracle, s: State, x: XState) returns (f: Flags)
    requires Compilable(p) && Twin(p, s, x) && s.pc < |p| && p[s.pc].JumpIf? && Lands(p, s.pc + 1 + p[s.pc].joff)
    ensures var i, code, y := p[s.pc], Compile(p, base), x.(at := x.at + 1, flags := f);
            var c := Compare(i.cop, s.regs.Get(i.left), OperandValue(s.regs, i.right));
            RunX(code, base, o, XRunning(x), 2) ==
            if c.None? then XError
            else if c.value then JumpX(code, base, y, SlotAddress(p, base, s.pc + 1 + i.joff))
            else XRunning(y.(at := y.at + 1))
  {
    hide Compilable, CompileTo, Index, SlotAddress, JumpX, Compare, RunX, OperandValue, AsCaller, StepX;
    TestSteps(p, base, o, s, x);
    TwoSteps(Compile(p, base), base, o, x);
    var st := StepX(Compile(p, base), base, o, x);
    f := if st.XRunning? then st.s.flags else x.flags;
  }

  lemma StepTest(p: Program, base: int, o: Oracle, s: State, x: XState)
    requires Compilable(p) && Twin(p, s, x) && s.pc < |p| && p[s.pc].JumpIf?
    ensures Match(p, Step(p, o, s), RunX(Compile(p, base), base, o, XRunning(x), 2))
  {
    hide Compilable, Emit, CompileTo, Index, Covered, SlotAddress, JumpX, Compare, RunX, OperandValue, AsCaller, Step, Match;
    var k, i := s.pc, p[s.pc];
    Follows(p, k);
    TwoEmitted(i);
    StepOfJumpIf(p, o, s);
    var f := TestRuns(p, base, o, s, x);
    KeepCaller(x, f, k);
    var c := Compare(i.cop, s.regs.Get(i.left), OperandValue(s.regs, i.right));
    if c.Some? { WayMatches(p, base, s, x.(at := x.at + 1, flags := f), c.value); } else { BothFail(p); }
  }

  lemma BothFail(p: Program)
    requires Compilable(p)
    ensures Match(p, Error, XError)
  {
    hide Compilable;
  }

  lemma TwoEmitted(i: Insn)
    requires Covered(i) && i.JumpIf?
    ensures |Emit(i, 0)| == 2 && !Wide(i)
  {
  }

  lemma StepXIs(code: XProgram, base: int, o: Oracle, x: XState)
    requires x.at < |code|
    ensures StepX(code, base, o, x) == ExecuteX(code, base, code[x.at], x, o(x.calls))
  {
  }

  lemma KeepCaller(x: XState, f: Flags, pc: int)
    ensures AsCaller(x.(at := x.at + 1, flags := f), pc) == AsCaller(x, pc) && x.calls == AsCaller(x, pc).calls
  {
  }

  lemma NextMatches(p: Program, s: State, x: XState)
    requires Compilable(p) && AsCaller(x, s.pc) == s && Lands(p, s.pc + 1) && Index(p, s.pc + 1) == x.at + 1
    ensures Match(p, Running(s.(pc := s.pc + 1)), XRunning(x.(at := x.at + 1)))
  {
    hide Compilable, Index;
  }

  lemma TwoSteps(code: XProgram, base: int, o: Oracle, x: XState)
    ensures RunX(code, base, o, XRunning(x), 2) ==
            var st := StepX(code, base, o, x);
            if st.XRunning? then StepX(code, base, o, st.s) else st
  {
    hide StepX;
    RunXAdd(code, base, o, XRunning(x), 1, 1);
  }

  lemma StepSimulated(p: Program, base: int, o: Oracle, s: State, x: XState) returns (n: nat)
    requires Compilable(p) && Twin(p, s, x) && s.pc < |p|
    ensures n > 0 && Match(p, Step(p, o, s), RunX(Compile(p, base), base, o, XRunning(x), n))
  {
    var i := p[s.pc];
    hide Twin, Step, StepX, Match, CompileTo, Compilable;
    if i.JumpIf? {
      StepTest(p, base, o, s, x);
      n := 2;
    } else {
      if i.Jump? { StepJump(p, base, o, s, x); } else { StepPlain(p, base, o, s, x); }
      n := 1;
      assert RunX(Compile(p, base), base, o, XRunning(x), 1) == StepX(Compile(p, base), base, o, x);
    }
  }

  lemma PastTheEnd(p: Program, base: int, o: Oracle, s: State, x: XState)
    requires Compilable(p) && Twin(p, s, x) && s.pc == |p|
    ensures Step(p, o, s) == Error && StepX(Compile(p, base), base, o, x) == XError
  {
    hide Compilable, Emit;
  }

  /** What it is for two statuses to match. */
  lemma MatchIs(p: Program, st: Status, xt: XStatus)
    requires Compilable(p)
    ensures Match(p, st, xt) && st.Running? ==> xt.XRunning? && Twin(p, st.s, xt.s)
    ensures Match(p, st, xt) && !st.Running? ==> !xt.XRunning?
    ensures st.Running? && xt.XRunning? && Twin(p, st.s, xt.s) ==> Match(p, st, xt)
    ensures st.Error? && xt.XError? ==> Match(p, st, xt)
  {
    hide Compilable, Twin;
  }

  lemma TwinPc(p: Program, s: State, x: XState)
    requires Compilable(p) && Twin(p, s, x)
    ensures 0 <= s.pc <= |p|
  {
    hide Compilable, Index;
  }

  /** Every run of the bytecode is matched, step for step, by a run of the machine code:
      the same registers, frame, memory, calls and result. */
  lemma {:induction false} RunSimulated(p: Program, base: int, o: Oracle, s: State, x: XState, n: nat) returns (m: nat)
    requires Compilable(p) && Twin(p, s, x)
    ensures m >= n && Match(p, Run(p, o, Running(s), n), RunX(Compile(p, base), base, o, XRunning(x), m))
    decreases n
  {
    hide Step, StepX, CompileTo, Compilable, Index, AsCaller, Match, Twin;
    var code := Compile(p, base);
    TwinPc(p, s, x);
    if n == 0 {
      m := 0;
      MatchIs(p, Running(s), XRunning(x));
    } else if s.pc == |p| {
      PastTheEnd(p, base, o, s, x);
      m := n;
      MatchIs(p, Error, XError);
      RunEnded(p, o, Error, n - 1);
      SettledX(code, base, o, XRunning(x), 1, n);
    } else {
      var a := StepSimulated(p, base, o, s, x);
      var st, y := Step(p, o, s), RunX(code, base, o, XRunning(x), a);
      MatchIs(p, st, y);
      if st.Running? {
        var b := RunSimulated(p, base, o, st.s, y.s, n - 1);
        m := a + b;
        RunXAdd(code, base, o, XRunning(x), a, b);
      } else {
        m := a + n;
        RunEnded(p, o, st, n - 1);
        SettledX(code, base, o, XRunning(x), a, m);
      }
    }
  }

  lemma EntryTwin(p: Program, mem: Memory)
    requires Compilable(p)
    ensures Twin(p, Entry(mem), EntryX(mem))
  {
  }

  lemma EndsToo(p: Program, base: int, o: Oracle, mem: Memory, n: nat)
    requires Compilable(p) && EndedX(Compile(p, base), base, o, mem, n)
    ensures Ended(p, o, mem, n)
  {
    EntryTwin(p, mem);
    hide StepX, Step, CompileTo, Compilable, Entry, EntryX, Twin;
    var m := RunSimulated(p, base, o, Entry(mem), EntryX(mem), n);
    SettledX(Compile(p, base), base, o, XRunning(EntryX(mem)), n, m);
  }

  /** The machine code behaves as the bytecode: same result, memory, calls and arguments,
      same failures, same divergence. */
  lemma CompilePreservesBehaviour(p: Program, base: int, o: Oracle, mem: Memory)
    requires Compilable(p)
    ensures BehaviourOfX(Compile(p, base), base, o, mem) == BehaviourOf(p, o, mem)
  {
    var code := Compile(p, base);
    EntryTwin(p, mem);
    hide StepX, Step, CompileTo, Compilable, Entry, EntryX;
    if n: nat :| Ended(p, o, mem, n) {
      var m := RunSimulated(p, base, o, Entry(mem), EntryX(mem), n);
      BehaviourIs(p, o, mem, n);
      BehaviourIsX(code, base, o, mem, m);
    } else if n: nat :| EndedX(code, base, o, mem, n) {
      EndsToo(p, base, o, mem, n);
      assert false;
    }
  }
}
