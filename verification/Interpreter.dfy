/**
 The machine as a program that changes its registers, its frame and its memory in place,
 and the proof that each of its steps is the step of the pure machine.
 */
module Interpreter {
  import opened Word
  import opened Isa
  import opened Machine
  import Rules

  datatype Outcome = Continues | Exits(result: U64) | Faults

  /** What a step did, in terms of the pure machine: on a fault nothing has changed. */
  predicate Agrees(out: Outcome, st: Status, before: State, now: State) {
    match st
    case Running(t) => out.Continues? && now == t
    case Exited(r, _) => out == Exits(r) && now == before
    case Error => out.Faults? && now == before
  }

  class Interpreter {
    const program: Program
    const regs: array<Value>
    const stack: array<Cell>
    const data: array<Byte>
    const rodata: seq<Byte>
    const packet: seq<Byte>
    var pc: int
    var counters: Table
    var config: Table
    var trace: seq<Event>
    var calls: nat

    ghost predicate Valid()
      reads this, regs, stack, data
    {
      regs.Length == 11 && stack.Length == STACK_SIZE && (stack as object) != (data as object)
    }

    function Registers(): Regs
      reads regs
      requires regs.Length == 11
    {
      Regs(regs[0], regs[1], regs[2], regs[3], regs[4], regs[5], regs[6], regs[7], regs[8], regs[9], regs[10])
    }

    function Mem(): Memory
      reads this, data
    {
      Memory(data[..], rodata, packet, counters, config)
    }

    function Now(): State
      reads this, regs, stack, data
      requires regs.Length == 11 && stack.Length == STACK_SIZE
    {
      State(pc, Registers(), stack[..], Mem(), trace, calls)
    }

    constructor (program: Program, mem: Memory)
      ensures Valid() && fresh(regs) && fresh(stack) && fresh(data)
      ensures this.program == program && Now() == Entry(mem) && pc == 0 && trace == [] && calls == 0
      ensures forall r: RegId :: regs[r] == if r == 1 then Ptr(Ctx, 0) else if r == 10 then Ptr(Stack, 512) else Uninit
      ensures forall i :: 0 <= i < 512 ==> stack[i] == -1
    {
      this.program := program;
      var r := new Value[11](_ => Uninit);
      r[1], r[10] := Ptr(Ctx, 0), Ptr(Stack, STACK_SIZE);
      var s := new Cell[STACK_SIZE](_ => -1);
      var d := new Byte[|mem.data|](i requires 0 <= i < |mem.data| => mem.data[i]);
      regs, stack, data := r, s, d;
      rodata, packet, counters, config := mem.rodata, mem.packet, mem.counters, mem.config;
      pc, trace, calls := 0, [], 0;
      new;
      assert data[..] == mem.data;
      assert stack[..] == Entry(mem).stack;
    }

    /** Writes one register and goes on at next; the frame pointer cannot be written. */
    method SetRegister(dst: RegId, v: Value, next: int) returns (out: Outcome)
      requires Valid()
      modifies this`pc, regs
      ensures Valid() && Agrees(out, SetReg(old(Now()), dst, v, next), old(Now()), Now())
    {
      if dst == FRAME { return Faults; }
      regs[dst] := v;
      pc := next;
      out := Continues;
    }

    /** Stores t in the frame, one byte after the other. */
    method PutStack(off: nat, t: seq<Byte>)
      requires Valid() && off + |t| <= STACK_SIZE
      modifies stack
      ensures Valid() && Now() == old(Now()).(stack := Put(old(Now().stack), off, t))
    {
      ghost var was := stack[..];
      for i := 0 to |t|
        invariant forall j :: 0 <= j < STACK_SIZE ==> stack[j] == if off <= j < off + i then t[j - off] else was[j]
        invariant data[..] == old(data[..])
      {
        stack[off + i] := t[i];
      }
      assert stack[..] == Put(was, off, t);
    }

    method PutData(off: nat, t: seq<Byte>)
      requires Valid() && off + |t| <= data.Length
      modifies data
      ensures Valid() && Now() == old(Now()).(mem := old(Mem()).(data := Splice(old(data[..]), off, t)))
    {
      ghost var was := data[..];
      for i := 0 to |t|
        invariant forall j :: 0 <= j < data.Length ==> data[j] == if off <= j < off + i then t[j - off] else was[j]
        invariant stack[..] == old(stack[..])
      {
        data[off + i] := t[i];
      }
      assert data[..] == Splice(was, off, t);
    }

    method SetTable(m: MapId, t: Table)
      requires Valid()
      modifies this`counters, this`config
      ensures Valid() && Now() == old(Now()).(mem := WithTable(old(Mem()), m, t))
    {
      match m
      case CounterTable => counters := t;
      case MyConfig => config := t;
      case OutputMap =>
    }

    /** Stores t in any region, or reports that it does not fit there. */
    method Write(region: Region, off: int, t: seq<Byte>) returns (ok: bool)
      requires Valid()
      modifies this`counters, this`config, stack, data
      ensures Valid()
      ensures var w := WriteBytes(old(Mem()), old(Now().stack), region, off, t);
              ok == w.Some? && Now() == if ok then old(Now()).(mem := w.value.0, stack := w.value.1) else old(Now())
    {
      ok := true;
      match region
      case Stack =>
        if off < 0 || off + |t| > STACK_SIZE { return false; }
        PutStack(off, t);
      case Data =>
        if off < 0 || off + |t| > data.Length { return false; }
        PutData(off, t);
      case Elem(m, key) =>
        var tab := TableOf(Mem(), m);
        if key !in tab || off < ELEM_HEADER || off - ELEM_HEADER + |t| > |tab[key]| { return false; }
        SetTable(m, tab[key := Splice(tab[key], off - ELEM_HEADER, t)]);
      case _ => return false;
    }

    /** What every call does to the registers, the program counter and the trace. */
    method Answer(r0: Value, events: seq<Event>)
      requires Valid()
      modifies this`pc, this`trace, this`calls, regs
      ensures Valid() && Now() == Return(old(Now()), r0, old(trace) + events)
    {
      regs[0], regs[1], regs[2], regs[3], regs[4], regs[5] := r0, Uninit, Uninit, Uninit, Uninit, Uninit;
      pc, trace, calls := pc + 1, trace + events, calls + 1;
    }

    method CallLookup(header: int) returns (out: Outcome)
      requires Valid()
      modifies this`pc, this`trace, this`calls, regs
      ensures Valid() && Agrees(out, Lookup(old(Now()), header), old(Now()), Now())
    {
      if !regs[1].MapPtr? || regs[1].m.OutputMap? { return Faults; }
      var m := regs[1].m;
      var key := ReadVia(Now(), regs[2], KeySize(m));
      if key.None? { return Faults; }
      var r0 := Scalar(0);
      if key.value in TableOf(Mem(), m) { r0 := Ptr(Elem(m, key.value), header); }
      Answer(r0, [LookedUp(m, key.value)]);
      out := Continues;
    }

    method CallUpdate(r: Reply) returns (out: Outcome)
      requires Valid()
      modifies this`pc, this`trace, this`calls, this`counters, this`config, regs
      ensures Valid() && Agrees(out, Update(old(Now()), r), old(Now()), Now())
    {
      hide ReadVia, Accepts, WithTable;
      if !regs[1].MapPtr? || regs[1].m.OutputMap? || !regs[4].Scalar? { return Faults; }
      var m, flags := regs[1].m, regs[4].n;
      var key, val := ReadVia(Now(), regs[2], KeySize(m)), ReadVia(Now(), regs[3], ValueSize(m));
      if key.None? || val.None? { return Faults; }
      var tab := TableOf(Mem(), m);
      if Accepts(m, tab, key.value, flags, r.refuse) {
        SetTable(m, tab[key.value := val.value]);
        Answer(Scalar(0), [Updated(m, key.value, val.value, flags)]);
      } else {
        Answer(Scalar(Wrap(-1 - r.value % 4095)), [Updated(m, key.value, val.value, flags)]);
      }
      out := Continues;
    }

    method CallPrint(r: Reply) returns (out: Outcome)
      requires Valid()
      modifies this`pc, this`trace, this`calls, regs
      ensures Valid() && Agrees(out, Print(old(Now()), r), old(Now()), Now())
    {
      hide ReadVia, Conversions, ScalarArgs;
      if !regs[2].Scalar? || regs[2].n > STACK_SIZE { return Faults; }
      var fmt := ReadVia(Now(), regs[1], regs[2].n);
      if fmt.None? || Conversions(fmt.value) > 3 { return Faults; }
      var args := ScalarArgs(Registers(), Conversions(fmt.value));
      if args.None? { return Faults; }
      Answer(Scalar(r.value), [Printed(fmt.value, args.value)]);
      out := Continues;
    }

    /** The helpers that fill the buffer at r1. */
    method FillBuffer(r: Reply, content: seq<Byte>) returns (out: Outcome)
      requires Valid()
      modifies this`pc, this`trace, this`calls, this`counters, this`config, regs, stack, data
      ensures Valid() && Agrees(out, Fill(old(Now()), r, content), old(Now()), Now())
    {
      hide WriteBytes;
      if !regs[1].Ptr? { return Faults; }
      var ok := Write(regs[1].region, regs[1].off, content);
      if !ok { return Faults; }
      Answer(Scalar(r.value), []);
      assert trace == old(trace);
      out := Continues;
    }

    method CallProbe(r: Reply) returns (out: Outcome)
      requires Valid()
      modifies this`pc, this`trace, this`calls, this`counters, this`config, regs, stack, data
      ensures Valid() && Agrees(out, Probe(old(Now()), r), old(Now()), Now())
    {
      hide ReadVia, Fill;
      if !regs[2].Scalar? || regs[2].n > STACK_SIZE || regs[3].Uninit? { return Faults; }
      var src := ReadVia(Now(), regs[3], regs[2].n);
      out := FillBuffer(r, if src.Some? && !r.refuse then src.value else Fit(r.bytes, regs[2].n));
    }

    method CallComm(r: Reply) returns (out: Outcome)
      requires Valid()
      modifies this`pc, this`trace, this`calls, this`counters, this`config, regs, stack, data
      ensures Valid() && Agrees(out, CommName(old(Now()), r), old(Now()), Now())
    {
      hide Fill;
      if !regs[2].Scalar? || regs[2].n > STACK_SIZE || regs[2].n == 0 { return Faults; }
      out := FillBuffer(r, Fit(r.bytes, regs[2].n));
    }

    method CallPerf(r: Reply) returns (out: Outcome)
      requires Valid()
      modifies this`pc, this`trace, this`calls, regs
      ensures Valid() && Agrees(out, Perf(old(Now()), r), old(Now()), Now())
    {
      hide ReadVia;
      if regs[1] != Ptr(Ctx, 0) || regs[2] != MapPtr(OutputMap) || !regs[3].Scalar? { return Faults; }
      if !regs[5].Scalar? || regs[5].n > STACK_SIZE { return Faults; }
      var d := ReadVia(Now(), regs[4], regs[5].n);
      if d.None? { return Faults; }
      Answer(Scalar(r.value), [Output(OutputMap, regs[3].n, d.value)]);
      out := Continues;
    }

    method DoCall(h: Helper, r: Reply) returns (out: Outcome)
      requires Valid()
      modifies this`pc, this`trace, this`calls, this`counters, this`config, regs, stack, data
      ensures Valid() && Agrees(out, CallHelper(h, old(Now()), r), old(Now()), Now())
      ensures out.Continues? ==> (forall i: RegId :: i > 0 ==> regs[i] == if i <= 5 then Uninit else old(regs[i])) && pc == old(pc) + 1
      ensures out.Faults? ==> Now() == old(Now())
    {
      Rules.CallRule(h, Now(), r);
      hide Agrees, Lookup, Update, Print, Probe, CommName, Perf;
      match h
      case MapLookup => out := CallLookup(ELEM_HEADER);
      case RawLookup => out := CallLookup(0);
      case MapUpdate => out := CallUpdate(r);
      case Printk => out := CallPrint(r);
      case PidTgid | UidGid => out := CallAsk(r);
      case Comm => out := CallComm(r);
      case ProbeRead => out := CallProbe(r);
      case PerfOutput => out := CallPerf(r);
    }

    method CallAsk(r: Reply) returns (out: Outcome)
      requires Valid()
      modifies this`pc, this`trace, this`calls, regs
      ensures Valid() && Agrees(out, Running(Return(old(Now()), Scalar(r.value), old(trace))), old(Now()), Now())
    {
      Answer(Scalar(r.value), []);
      assert trace == old(trace);
      out := Continues;
    }

    method DoStore(size: Size, base: Value, off: int, v: Value) returns (out: Outcome)
      requires Valid()
      modifies this`pc, this`counters, this`config, stack, data
      ensures Valid()
      ensures var w := StoreValue(old(Now()), size, base, off, v);
              Agrees(out, if w.None? then Error else Running(old(Now()).(pc := old(pc) + 1, mem := w.value.0, stack := w.value.1)),
                     old(Now()), Now())
      ensures out.Continues? ==> base.Ptr? && v.Scalar? && (base.off + off) % size.Bytes() == 0
      ensures out.Faults? ==> Now() == old(Now())
    {
      hide WriteBytes, Bytes;
      if !base.Ptr? || !v.Scalar? || !Aligned(base.off + off, size) { return Faults; }
      var ok := Write(base.region, base.off + off, Bytes(v.n, size.Bytes()));
      if !ok { return Faults; }
      pc := pc + 1;
      out := Continues;
    }

    /** The value of a register, or of an immediate. */
    method Fetch(src: Operand) returns (v: Value)
      requires Valid()
      ensures v == OperandValue(Registers(), src)
    {
      match src
      case Imm(i) => v := Scalar(Wrap(i));
      case Reg(r) => v := regs[r];
    }

    method DoAlu(op: AluOp, dst: RegId, src: Operand) returns (out: Outcome)
      requires Valid()
      modifies this`pc, regs
      ensures Valid() && Agrees(out, Execute(Alu(op, dst, src), old(Now()), Reply(0, [], false)), old(Now()), Now())
    {
      hide AluResult, OperandValue;
      var x := Fetch(src);
      var v := AluResult(op, regs[dst], x);
      if v.None? { return Faults; }
      out := SetRegister(dst, v.value, pc + 1);
    }

    method DoLoad(size: Size, dst: RegId, base: RegId, off: Off16) returns (out: Outcome)
      requires Valid()
      modifies this`pc, regs
      ensures Valid() && Agrees(out, Execute(Load(size, dst, base, off), old(Now()), Reply(0, [], false)), old(Now()), Now())
    {
      hide LoadValue;
      var v := LoadValue(Now(), size, regs[base], off);
      if v.None? { return Faults; }
      out := SetRegister(dst, v.value, pc + 1);
    }

    method DoJumpIf(op: CmpOp, left: RegId, right: Operand, off: Off16) returns (out: Outcome)
      requires Valid()
      modifies this`pc
      ensures Valid() && Agrees(out, Execute(JumpIf(op, left, right, off), old(Now()), Reply(0, [], false)), old(Now()), Now())
    {
      hide Compare, OperandValue;
      var y := Fetch(right);
      var c := Compare(op, regs[left], y);
      if c.None? { return Faults; }
      pc := pc + 1 + if c.value then off else 0;
      out := Continues;
    }

    method DoExit() returns (out: Outcome)
      requires Valid()
      ensures Valid() && Agrees(out, Execute(Exit, old(Now()), Reply(0, [], false)), old(Now()), Now())
    {
      if regs[0].Scalar? { out := Exits(regs[0].n); } else { out := Faults; }
    }

    /** The instructions that write no register and make no call. */
    method DoMove(i: Insn, r: Reply) returns (out: Outcome)
      requires Valid() && (i.LoadImm? || i.LoadSym? || i.Jump? || i.Store? || i.Second?)
      modifies this`pc, this`counters, this`config, regs, stack, data
      ensures Valid() && Agrees(out, Execute(i, old(Now()), r), old(Now()), Now())
    {
      hide StoreValue, Resolve;
      match i
      case LoadImm(dst, imm) => out := SetRegister(dst, Scalar(imm), pc + 2);
      case LoadSym(dst, sym, addend) => out := SetRegister(dst, Resolve(sym, addend), pc + 2);
      case Jump(off) => pc, out := pc + 1 + off, Continues;
      case Store(size, base, off, val) => out := DoStore(size, regs[base], off, regs[val]);
      case Second => out := Faults;
    }

    /** One instruction, with the kernel's reply should it be a call. */
    method Perform(i: Insn, r: Reply) returns (out: Outcome)
      requires Valid()
      modifies this`pc, this`trace, this`calls, this`counters, this`config, regs, stack, data
      ensures Valid() && Agrees(out, Execute(i, old(Now()), r), old(Now()), Now())
    {
      SameReply(i, Now(), r);
      hide Agrees, Execute;
      match i
      case Alu(op, dst, src) => out := DoAlu(op, dst, src);
      case Load(size, dst, base, off) => out := DoLoad(size, dst, base, off);
      case JumpIf(op, left, right, off) => out := DoJumpIf(op, left, right, off);
      case Call(h) => out := DoCall(h, r);
      case Exit => out := DoExit();
      case _ => out := DoMove(i, r);
    }

    /** The instruction at the program counter. */
    method Step(o: Oracle) returns (out: Outcome)
      requires Valid()
      modifies this`pc, this`trace, this`calls, this`counters, this`config, regs, stack, data
      ensures Valid() && Agrees(out, Machine.Step(program, o, old(Now())), old(Now()), Now())
    {
      hide Execute;
      if pc < 0 || pc >= |program| { return Faults; }
      out := Perform(program[pc], o(calls));
    }

    /** At most n instructions: what the pure machine does in n steps. */
    method Run(o: Oracle, n: nat) returns (out: Outcome)
      requires Valid()
      modifies this`pc, this`trace, this`calls, this`counters, this`config, regs, stack, data
      ensures Valid()
      ensures match Machine.Run(program, o, Running(old(Now())), n)
              case Running(t) => out.Continues? && Now() == t
              case Exited(r, end) => out == Exits(r) && Now() == end
              case Error => out.Faults?
    {
      hide Machine.Step;
      ghost var start := Running(Now());
      out := Continues;
      for i := 0 to n
        invariant Valid() && out == Continues
        invariant Machine.Run(program, o, start, i) == Running(Now())
      {
        RunAdd(program, o, start, i, 1);
        RunAdd(program, o, start, i, n - i);
        ghost var before := Now();
        out := Step(o);
        OneStep(program, o, before);
        if out != Continues {
          FirstStep(program, o, before, n - i);
          StepEnds(program, o, before);
          return;
        }
      }
    }
  }

  /** Only calls depend on the kernel's reply. */
  lemma SameReply(i: Insn, s: State, r: Reply)
    ensures i.Call? ==> Execute(i, s, r) == CallHelper(i.helper, s, r)
    ensures !i.Call? ==> Execute(i, s, r) == Execute(i, s, Reply(0, [], false))
  {
    hide CallHelper, AluResult, LoadValue, StoreValue, Compare;
  }

  lemma OneStep(p: Program, o: Oracle, s: State)
    ensures Run(p, o, Running(s), 1) == Step(p, o, s)
  {
    hide Step;
  }

  lemma FirstStep(p: Program, o: Oracle, s: State, n: nat)
    requires n > 0 && !Step(p, o, s).Running?
    ensures Run(p, o, Running(s), n) == Step(p, o, s)
  {
    hide Step;
    RunEnded(p, o, Step(p, o, s), n - 1);
  }

  /** A program ends in the state in which its last instruction finds the machine. */
  lemma StepEnds(p: Program, o: Oracle, s: State)
    ensures Step(p, o, s).Exited? ==> Step(p, o, s).end == s
  {
    hide CallHelper, AluResult, LoadValue, StoreValue, Compare;
    if 0 <= s.pc < |p| && p[s.pc].Call? { NoExit(p[s.pc].helper, s, o(s.calls)); }
  }

  lemma NoExit(h: Helper, s: State, r: Reply)
    ensures !CallHelper(h, s, r).Exited?
  {
    hide ReadBytes, WriteBytes, Conversions, Accepts, WithTable, TableOf, Fit;
  }
}
