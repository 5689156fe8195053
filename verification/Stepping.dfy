/**
 Runs built one instruction at a time. A Progress is a run that has reached the
 state now; each lemma extends it by the instruction at the program counter.
 */
module Stepping {
  import opened Word
  import opened Isa
  import opened Machine

  datatype Progress = Progress(p: Program, o: Oracle, start: State, steps: nat, now: State) {
    ghost predicate Valid() {
      Run(p, o, Running(start), steps) == Running(now)
    }

    predicate At(i: Insn) {
      0 <= now.pc < |p| && p[now.pc] == i
    }

    function To(t: State): Progress {
      this.(steps := steps + 1, now := t)
    }

    /** The state after an instruction that writes one register. */
    function Write(dst: RegId, v: Value): State {
      now.(pc := now.pc + 1, regs := now.regs.With(dst, v))
    }

    lemma Next(t: State)
      requires Valid() && Step(p, o, now) == Running(t)
      ensures To(t).Valid()
    {
      RunAdd(p, o, Running(start), steps, 1);
    }

    lemma IsStep()
      requires Valid() && steps == 1
      ensures Step(p, o, start) == Running(now)
    {
      hide Step;
      RunOne(p, o, start);
    }

    lemma MovReg(dst: RegId, r: RegId) returns (h: Progress)
      requires Valid() && At(Alu(Mov, dst, Reg(r))) && dst != FRAME && !now.regs.Get(r).Uninit?
      ensures h.Valid() && h == To(Write(dst, now.regs.Get(r)))
    {
      Next(Write(dst, now.regs.Get(r)));
      h := To(Write(dst, now.regs.Get(r)));
    }

    lemma MovImm(dst: RegId, i: Imm32) returns (h: Progress)
      requires Valid() && At(Alu(Mov, dst, Imm(i))) && dst != FRAME && i >= 0
      ensures h.Valid() && h == To(Write(dst, Scalar(i)))
    {
      Next(Write(dst, Scalar(i)));
      h := To(Write(dst, Scalar(i)));
    }

    /** Adding a constant to a pointer moves it. */
    lemma Move(dst: RegId, i: Imm32, region: Region, off: int) returns (h: Progress)
      requires Valid() && At(Alu(Add, dst, Imm(i))) && dst != FRAME && now.regs.Get(dst) == Ptr(region, off)
      ensures h.Valid() && h == To(Write(dst, Ptr(region, off + i)))
    {
      Next(Write(dst, Ptr(region, off + i)));
      h := To(Write(dst, Ptr(region, off + i)));
    }

    lemma Calc(op: AluOp, dst: RegId, src: Operand, v: Value) returns (h: Progress)
      requires Valid() && At(Alu(op, dst, src)) && dst != FRAME
      requires AluResult(op, now.regs.Get(dst), OperandValue(now.regs, src)) == Some(v)
      ensures h.Valid() && h == To(Write(dst, v))
    {
      Next(Write(dst, v));
      h := To(Write(dst, v));
    }

    lemma Sym(dst: RegId, sym: Symbol, addend: U32, v: Value) returns (h: Progress)
      requires Valid() && At(LoadSym(dst, sym, addend)) && dst != FRAME && v == Resolve(sym, addend)
      ensures h.Valid() && h == To(Write(dst, v).(pc := now.pc + 2))
    {
      Next(Write(dst, v).(pc := now.pc + 2));
      h := To(Write(dst, v).(pc := now.pc + 2));
    }

    lemma SymMap(dst: RegId, m: MapId) returns (h: Progress)
      requires Valid() && At(LoadSym(dst, MapRef(m), 0)) && dst != FRAME
      ensures h.Valid() && h == To(Write(dst, MapPtr(m)).(pc := now.pc + 2))
    {
      h := Sym(dst, MapRef(m), 0, MapPtr(m));
    }

    lemma SymData(dst: RegId, off: U32) returns (h: Progress)
      requires Valid() && At(LoadSym(dst, DataRef, off)) && dst != FRAME
      ensures h.Valid() && h == To(Write(dst, Ptr(Data, off)).(pc := now.pc + 2))
    {
      h := Sym(dst, DataRef, off, Ptr(Data, off));
    }

    lemma SymMessage(dst: RegId) returns (h: Progress)
      requires Valid() && At(LoadSym(dst, MessageRef, 0)) && dst != FRAME
      ensures h.Valid() && h == To(Write(dst, Ptr(Data, 4)).(pc := now.pc + 2))
    {
      h := Sym(dst, MessageRef, 0, Ptr(Data, 4));
    }

    lemma SymRodata(dst: RegId, off: U32) returns (h: Progress)
      requires Valid() && At(LoadSym(dst, RodataRef, off)) && dst != FRAME
      ensures h.Valid() && h == To(Write(dst, Ptr(Rodata, off)).(pc := now.pc + 2))
    {
      h := Sym(dst, RodataRef, off, Ptr(Rodata, off));
    }

    /** A lookup in a table whose key bytes are known. */
    lemma Look(f: Helper, m: MapId, key: seq<Byte>, r0: Value) returns (h: Progress)
      requires Valid() && At(Call(f)) && (f == MapLookup || f == RawLookup) && m != OutputMap
      requires now.regs.r1 == MapPtr(m) && now.regs.r2.Ptr?
      requires ReadBytes(now.mem, now.stack, now.regs.r2.region, now.regs.r2.off, KeySize(m)) == Some(key)
      requires r0 == if key in TableOf(now.mem, m) then Ptr(Elem(m, key), if f == MapLookup then ELEM_HEADER else 0) else Scalar(0)
      ensures h.Valid() && h == To(Return(now, r0, now.trace + [LookedUp(m, key)]))
    {
      h := Invoke(f, Return(now, r0, now.trace + [LookedUp(m, key)]));
    }

    /** An update whose key and value bytes are known; the table t is what it leaves. */
    lemma UpdateElem(m: MapId, key: seq<Byte>, val: seq<Byte>, t: Table) returns (h: Progress)
      requires Valid() && At(Call(MapUpdate)) && m != OutputMap
      requires now.regs.r1 == MapPtr(m) && now.regs.r2.Ptr? && now.regs.r3.Ptr? && now.regs.r4 == Scalar(0)
      requires ReadBytes(now.mem, now.stack, now.regs.r2.region, now.regs.r2.off, KeySize(m)) == Some(key)
      requires ReadBytes(now.mem, now.stack, now.regs.r3.region, now.regs.r3.off, ValueSize(m)) == Some(val)
      requires t == if Accepts(m, TableOf(now.mem, m), key, 0, o(now.calls).refuse) then TableOf(now.mem, m)[key := val]
                    else TableOf(now.mem, m)
      ensures h.Valid() && h.now.regs.r0.Scalar?
      ensures h == To(Return(now.(mem := WithTable(now.mem, m, t)), h.now.regs.r0, now.trace + [Updated(m, key, val, 0)]))
    {
      var r0 := if Accepts(m, TableOf(now.mem, m), key, 0, o(now.calls).refuse) then Scalar(0)
                else Scalar(Wrap(-1 - o(now.calls).value % 4095));
      h := Invoke(MapUpdate, Return(now.(mem := WithTable(now.mem, m, t)), r0, now.trace + [Updated(m, key, val, 0)]));
    }

    /** A formatted print with one argument. */
    lemma Say(fmt: seq<Byte>, v: U64) returns (h: Progress)
      requires Valid() && At(Call(Printk)) && Conversions(fmt) == 1 && |fmt| <= STACK_SIZE
      requires now.regs.r1.Ptr? && now.regs.r2 == Scalar(|fmt|) && now.regs.r3 == Scalar(v)
      requires ReadBytes(now.mem, now.stack, now.regs.r1.region, now.regs.r1.off, |fmt|) == Some(fmt)
      ensures h.Valid()
      ensures h == To(Return(now, Scalar(o(now.calls).value), now.trace + [Printed(fmt, [v])]))
    {
      h := Invoke(Printk, Return(now, Scalar(o(now.calls).value), now.trace + [Printed(fmt, [v])]));
    }

    /** A helper that fills n bytes of the frame with b. */
    lemma FillFrame(f: Helper, off: int, n: nat, b: seq<Byte>) returns (h: Progress)
      requires Valid() && At(Call(f)) && (f == Comm || f == ProbeRead)
      requires 0 < n <= STACK_SIZE && now.regs.r1 == Ptr(Stack, off) && now.regs.r2 == Scalar(n)
      requires 0 <= off && off + n <= STACK_SIZE
      requires f == ProbeRead ==> now.regs.r3.Ptr?
      requires b == var src := ReadVia(now, now.regs.r3, n);
                    if f == ProbeRead && src.Some? && !o(now.calls).refuse then src.value else Fit(o(now.calls).bytes, n)
      ensures h.Valid()
      ensures h == To(Return(now.(stack := Machine.Put(now.stack, off, b)), Scalar(o(now.calls).value), now.trace))
    {
      h := Invoke(f, Return(now.(stack := Machine.Put(now.stack, off, b)), Scalar(o(now.calls).value), now.trace));
    }

    /** Output of a stored buffer. */
    lemma Emit(flags: U64, b: seq<Byte>) returns (h: Progress)
      requires Valid() && At(Call(PerfOutput)) && now.regs.r1 == Ptr(Ctx, 0) && now.regs.r2 == MapPtr(OutputMap)
      requires |b| <= STACK_SIZE && now.regs.r3 == Scalar(flags) && now.regs.r4.Ptr? && now.regs.r5 == Scalar(|b|)
      requires ReadBytes(now.mem, now.stack, now.regs.r4.region, now.regs.r4.off, |b|) == Some(b)
      ensures h.Valid()
      ensures h == To(Return(now, Scalar(o(now.calls).value), now.trace + [Output(OutputMap, flags, b)]))
    {
      h := Invoke(PerfOutput, Return(now, Scalar(o(now.calls).value), now.trace + [Output(OutputMap, flags, b)]));
    }

    lemma Wide(dst: RegId, imm: U64) returns (h: Progress)
      requires Valid() && At(LoadImm(dst, imm)) && dst != FRAME
      ensures h.Valid() && h == To(Write(dst, Scalar(imm)).(pc := now.pc + 2))
    {
      Next(Write(dst, Scalar(imm)).(pc := now.pc + 2));
      h := To(Write(dst, Scalar(imm)).(pc := now.pc + 2));
    }

    lemma Fetch(size: Size, dst: RegId, base: RegId, off: Off16, v: Value) returns (h: Progress)
      requires Valid() && At(Load(size, dst, base, off)) && dst != FRAME
      requires LoadValue(now, size, now.regs.Get(base), off) == Some(v)
      ensures h.Valid() && h == To(Write(dst, v))
    {
      Next(Write(dst, v));
      h := To(Write(dst, v));
    }

    /** A store relative to the frame pointer. */
    lemma Spill(size: Size, off: Off16, val: RegId, x: U64) returns (h: Progress)
      requires Valid() && At(Store(size, FRAME, off, val))
      requires now.regs.r10 == Ptr(Stack, STACK_SIZE) && now.regs.Get(val) == Scalar(x)
      requires Aligned(off, size) && -STACK_SIZE <= off && off + size.Bytes() <= 0
      ensures h.Valid()
      ensures h == To(now.(pc := now.pc + 1, stack := h.now.stack))
      ensures h.now.stack == Put(now.stack, STACK_SIZE + off, Bytes(x, size.Bytes()))
    {
      var t := now.(pc := now.pc + 1, stack := Put(now.stack, STACK_SIZE + off, Bytes(x, size.Bytes())));
      Next(t);
      h := To(t);
    }

    /** A store to the data section. */
    lemma Assign(size: Size, base: RegId, off: Off16, val: RegId, x: U64, data: seq<Byte>) returns (h: Progress)
      requires Valid() && At(Store(size, base, off, val))
      requires now.regs.Get(base) == Ptr(Data, 0) && now.regs.Get(val) == Scalar(x)
      requires Aligned(off, size) && 0 <= off && off + size.Bytes() <= |now.mem.data|
      requires data == Splice(now.mem.data, off, Bytes(x, size.Bytes()))
      ensures h.Valid() && h == To(now.(pc := now.pc + 1, mem := now.mem.(data := data)))
    {
      Next(now.(pc := now.pc + 1, mem := now.mem.(data := data)));
      h := To(now.(pc := now.pc + 1, mem := now.mem.(data := data)));
    }

    lemma Goto(off: Off16) returns (h: Progress)
      requires Valid() && At(Jump(off))
      ensures h.Valid() && h == To(now.(pc := now.pc + 1 + off))
    {
      Next(now.(pc := now.pc + 1 + off));
      h := To(now.(pc := now.pc + 1 + off));
    }

    lemma Branch(op: CmpOp, left: RegId, right: Operand, off: Off16, taken: bool) returns (h: Progress)
      requires Valid() && At(JumpIf(op, left, right, off))
      requires Compare(op, now.regs.Get(left), OperandValue(now.regs, right)) == Some(taken)
      ensures h.Valid() && h == To(now.(pc := now.pc + 1 + if taken then off else 0))
    {
      Next(now.(pc := now.pc + 1 + if taken then off else 0));
      h := To(now.(pc := now.pc + 1 + if taken then off else 0));
    }

    /** A test for null. */
    lemma IfNull(r: RegId, off: Off16, isNull: bool) returns (h: Progress)
      requires Valid() && At(JumpIf(Eq, r, Imm(0), off))
      requires if isNull then now.regs.Get(r) == Scalar(0) else now.regs.Get(r).Ptr?
      ensures h.Valid() && h == To(now.(pc := now.pc + 1 + if isNull then off else 0))
    {
      h := Branch(Eq, r, Imm(0), off, isNull);
    }

    /** The state after a pair of instructions that computes one register. */
    function Two(dst: RegId, v: Value): Progress {
      this.(steps := steps + 2, now := now.(pc := now.pc + 2, regs := now.regs.With(dst, v)))
    }

    /** The address of a frame slot. */
    lemma FrameSlot(dst: RegId, i: Imm32) returns (h: Progress)
      requires Valid() && At(Alu(Mov, dst, Reg(FRAME))) && now.pc + 1 < |p| && p[now.pc + 1] == Alu(Add, dst, Imm(i))
      requires dst != FRAME && now.regs.r10 == Ptr(Stack, STACK_SIZE)
      ensures h.Valid() && h == Two(dst, Ptr(Stack, STACK_SIZE + i))
    {
      hide Valid;
      h := MovReg(dst, FRAME);
      h := h.Move(dst, i, Stack, STACK_SIZE);
    }

    /** Shifting left and right by 32 keeps the low half of a register. */
    lemma KeepLow(dst: RegId, x: U64) returns (h: Progress)
      requires Valid() && At(Alu(Lsh, dst, Imm(32))) && now.pc + 1 < |p| && p[now.pc + 1] == Alu(Rsh, dst, Imm(32))
      requires dst != FRAME && now.regs.Get(dst) == Scalar(x)
      ensures h.Valid() && h == Two(dst, Scalar(x % 0x1_0000_0000))
    {
      ShiftPairIsMask(x);
      hide Valid, Shl, Shr, Bits64;
      h := Calc(Lsh, dst, Imm(32), Scalar(Shl(x, 32)));
      h := h.Calc(Rsh, dst, Imm(32), Scalar(x % 0x1_0000_0000));
    }

    /** Shifting left and right by 56, keeping the sign, widens a signed char. */
    lemma SignExtend(dst: RegId, b: Byte) returns (h: Progress)
      requires Valid() && At(Alu(Lsh, dst, Imm(56))) && now.pc + 1 < |p| && p[now.pc + 1] == Alu(Arsh, dst, Imm(56))
      requires dst != FRAME && now.regs.Get(dst) == Scalar(b)
      ensures h.Valid() && h == Two(dst, Scalar(SignExtendByte(b)))
    {
      ShiftPairIsSignExtension(b);
      hide Valid, Shl, Ashr, SignExtendByte;
      h := Calc(Lsh, dst, Imm(56), Scalar(Shl(b, 56)));
      h := h.Calc(Arsh, dst, Imm(56), Scalar(SignExtendByte(b)));
    }

    lemma Invoke(f: Helper, t: State) returns (h: Progress)
      requires Valid() && At(Call(f)) && CallHelper(f, now, o(now.calls)) == Running(t)
      ensures h.Valid() && h == To(t)
    {
      Next(t);
      h := To(t);
    }

    /** The calls that take no arguments. */
    lemma Ask(f: Helper) returns (h: Progress)
      requires Valid() && At(Call(f)) && (f.PidTgid? || f.UidGid?)
      ensures h.Valid() && h == To(Return(now, Scalar(o(now.calls).value), now.trace))
    {
      h := Invoke(f, Return(now, Scalar(o(now.calls).value), now.trace));
    }

    lemma Finish(n: nat)
      requires Valid() && At(Exit) && now.regs.r0.Scalar? && n > steps
      ensures Run(p, o, Running(start), n) == Exited(now.regs.r0.n, now)
    {
      RunAdd(p, o, Running(start), steps, n - steps);
      RunEnded(p, o, Exited(now.regs.r0.n, now), n - steps - 1);
    }
  }

  /** No instruction yet, from any state. */
  lemma From(p: Program, o: Oracle, s: State) returns (g: Progress)
    ensures g.Valid() && g == Progress(p, o, s, 0, s)
  {
    g := Progress(p, o, s, 0, s);
  }

  const ENTRY_REGS: Regs :=
    Regs(Uninit, Ptr(Ctx, 0), Uninit, Uninit, Uninit, Uninit, Uninit, Uninit, Uninit, Uninit, Ptr(Stack, STACK_SIZE))

  lemma Begin(p: Program, o: Oracle, mem: Memory) returns (g: Progress)
    ensures g.Valid() && g == Progress(p, o, Entry(mem), 0, g.now) && g.now == Entry(mem)
    ensures g.now == State(0, ENTRY_REGS, g.now.stack, mem, [], 0)
  {
    g := Progress(p, o, Entry(mem), 0, Entry(mem));
  }
}
