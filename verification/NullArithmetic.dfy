/**
 The known verifier bug in which arithmetic on a pointer that may be null went unnoticed:
 at run time the null pointer has become 1, and the scaled offset leaves the map value.
 A second lookup stands for the reservation in a ring buffer.
 */
module NullArithmetic {
  import opened Word
  import opened Isa
  import opened Machine
  import opened Stepping
  import opened Behaviours
  import opened Verifier
  import opened Abstract
  import Frames

  function NullableAt(pc: int): Insn {
    match pc
    case 0 => Alu(Mov, 1, Imm(0))
    case 1 => Store(DW, 10, -8, 1)
    case 2 => Alu(Mov, 2, Reg(10))
    case 3 => Alu(Add, 2, Imm(-8))
    case 4 => LoadSym(1, MapRef(CounterTable), 0)
    case 6 => Call(MapLookup)
    case 7 => JumpIf(Eq, 0, Imm(0), 11)
    case 8 => Alu(Mov, 8, Reg(0))
    case 9 => Alu(Mov, 2, Reg(10))
    case 10 => Alu(Add, 2, Imm(-8))
    case 11 => LoadSym(1, MapRef(MyConfig), 0)
    case 13 => Call(MapLookup)
    case 14 => Alu(Mov, 1, Reg(0))
    case 15 => Alu(Add, 1, Imm(1))
    case 16 => Alu(Mul, 1, Imm(-1024))
    case 17 => Alu(Add, 8, Reg(1))
    case 18 => Load(DW, 0, 8, 0)
    case 19 => Alu(Mov, 0, Imm(0))
    case 20 => Exit
    case _ => Second
  }

  const NULLABLE: Program := seq(21, NullableAt)

  /** Whether the first lookup finds an element, as the null test after it asks. */
  predicate FirstHits(mem: Memory) {
    Bytes(0, 8) in mem.counters
  }

  function Answer(mem: Memory): Value {
    if FirstHits(mem) then Ptr(Elem(CounterTable, Bytes(0, 8)), ELEM_HEADER) else Scalar(0)
  }

  function SecondAnswer(mem: Memory): Value {
    if Bytes(0, 4) in mem.config then Ptr(Elem(MyConfig, Bytes(0, 4)), ELEM_HEADER) else Scalar(0)
  }

  lemma FirstLookup(mem: Memory, o: Oracle) returns (g: Progress)
    ensures g.Valid() && g == Progress(NULLABLE, o, Entry(mem), 6, g.now)
    ensures g.now == State(7, g.now.regs, g.now.stack, mem, [LookedUp(CounterTable, Bytes(0, 8))], 1)
    ensures g.now.regs.r0 == Answer(mem) && g.now.regs.r10 == Ptr(Stack, STACK_SIZE)
    ensures Frames.Has(g.now.stack, 504, Bytes(0, 8))
  {
    hide Progress.Valid, Entry, Put, Bytes, ReadBytes, Frames.Has;
    g := Begin(NULLABLE, o, mem);
    g := g.MovImm(1, 0);
    Frames.ReadPut(mem, g.now.stack, 504, Bytes(0, 8));
    Frames.HasPut(g.now.stack, 504, Bytes(0, 8));
    g := g.Spill(DW, -8, 1, 0);
    g := g.FrameSlot(2, -8);
    g := g.SymMap(1, CounterTable);
    g := g.Look(MapLookup, CounterTable, Bytes(0, 8), Answer(mem));
  }

  lemma ZeroKey()
    ensures Bytes(0, 8)[0..4] == Bytes(0, 4)
  {
  }

  lemma SecondLookup(g0: Progress, mem: Memory) returns (g: Progress)
    requires g0.Valid() && g0.p == NULLABLE && g0.now.pc == 7 && g0.now.mem == mem && FirstHits(mem)
    requires g0.now.regs.r10 == Ptr(Stack, STACK_SIZE) && Frames.Has(g0.now.stack, 504, Bytes(0, 8))
    requires g0.now.regs.r0 == Answer(mem)
    ensures g.Valid() && g == g0.(steps := g0.steps + 6, now := g.now)
    ensures g.now == State(14, g.now.regs, g.now.stack, mem, g.now.trace, g0.now.calls + 1)
    ensures g.now.regs.r0 == SecondAnswer(mem) && g.now.regs.r8 == Answer(mem)
  {
    hide Progress.Valid, Bytes, ReadBytes, Frames.Has, SecondAnswer;
    g := g0.IfNull(0, 11, false);
    g := g.MovReg(8, 0);
    g := g.FrameSlot(2, -8);
    g := AskConfig(g, mem);
  }

  lemma AskConfig(g0: Progress, mem: Memory) returns (g: Progress)
    requires g0.Valid() && g0.p == NULLABLE && g0.now.pc == 11 && g0.now.mem == mem
    requires g0.now.regs.r2 == Ptr(Stack, 504) && Frames.Has(g0.now.stack, 504, Bytes(0, 8))
    ensures g.Valid() && g == g0.(steps := g0.steps + 2, now := g.now)
    ensures g.now == State(14, g.now.regs, g0.now.stack, mem, g.now.trace, g0.now.calls + 1)
    ensures g.now.regs.r0 == SecondAnswer(mem) && g.now.regs.r8 == g0.now.regs.r8
  {
    hide Progress.Valid, Bytes, ReadBytes, Frames.Has;
    ZeroKey();
    Frames.HasPart(g0.now.stack, 504, Bytes(0, 8), 0, 4);
    Frames.HasRead(mem, g0.now.stack, 504, Bytes(0, 4));
    g := g0.SymMap(1, MyConfig);
    g := g.Look(MapLookup, MyConfig, Bytes(0, 4), SecondAnswer(mem));
  }

  lemma Scaled(region: Region)
    ensures AluResult(Add, Scalar(0), Scalar(1)) == Some(Scalar(1))
    ensures AluResult(Mul, Scalar(1), Scalar(Wrap(-1024))) == Some(Scalar(0xFFFF_FFFF_FFFF_FC00))
    ensures AluResult(Add, Ptr(region, ELEM_HEADER), Scalar(0xFFFF_FFFF_FFFF_FC00)) == Some(Ptr(region, -968))
  {
  }

  /** The null pointer becomes 1, then -1024. */
  lemma Product(g0: Progress) returns (g: Progress)
    requires g0.Valid() && g0.p == NULLABLE && g0.now.pc == 14 && g0.now.regs.r0 == Scalar(0)
    ensures g.Valid() && g == g0.(steps := g0.steps + 3, now := g.now)
    ensures g.now == g0.now.(pc := 17, regs := g0.now.regs.(r1 := Scalar(0xFFFF_FFFF_FFFF_FC00)))
  {
    Scaled(Stack);
    hide Progress.Valid, AluResult;
    g := g0.MovReg(1, 0);
    g := g.Calc(Add, 1, Imm(1), Scalar(1));
    g := g.Calc(Mul, 1, Imm(-1024), Scalar(0xFFFF_FFFF_FFFF_FC00));
  }

  /** The value pointer leaves its element. */
  lemma GoAstray(g0: Progress, region: Region) returns (g: Progress)
    requires g0.Valid() && g0.p == NULLABLE && g0.now.pc == 14 && g0.now.regs.r0 == Scalar(0)
    requires g0.now.regs.r8 == Ptr(region, ELEM_HEADER)
    ensures g.Valid() && g == g0.(steps := g0.steps + 4, now := g.now)
    ensures g.now.pc == 18 && g.now.regs.r8 == Ptr(region, -968)
  {
    Scaled(region);
    hide Progress.Valid, AluResult;
    g := Product(g0);
    g := g.Calc(Add, 8, Reg(1), Ptr(region, -968));
  }

  /** If the second lookup has found an element, its pointer is multiplied. */
  lemma MultipliesPointer(g0: Progress, region: Region) returns (g: Progress)
    requires g0.Valid() && g0.p == NULLABLE && g0.now.pc == 14 && g0.now.regs.r0 == Ptr(region, ELEM_HEADER)
    ensures g.Valid() && g == g0.(steps := g0.steps + 2, now := g.now)
    ensures g.now.pc == 16 && g.now.regs.r1 == Ptr(region, ELEM_HEADER + 1)
  {
    hide Progress.Valid;
    g := g0.MovReg(1, 0);
    g := g.Move(1, 1, region, ELEM_HEADER);
  }

  lemma NoProduct(s: State, region: Region, off: int)
    requires s.pc == 16 && s.regs.r1 == Ptr(region, off)
    ensures forall o: Oracle {:trigger Step(NULLABLE, o, s)} :: Step(NULLABLE, o, s) == Error
  {
  }

  /** Where the first lookup hits, the program faults: at the load if the second one misses,
      and before that, at the multiplication, if it hits. */
  lemma Faults(mem: Memory, o: Oracle)
    requires FirstHits(mem)
    ensures Run(NULLABLE, o, Running(Entry(mem)), 17) == Error
  {
    hide Entry, Bytes, Frames.Has, Run;
    var g := FirstLookup(mem, o);
    g := SecondLookup(g, mem);
    if g.now.regs.r0 == Scalar(0) {
      g := GoAstray(g, Elem(CounterTable, Bytes(0, 8)));
      Outside(g.now, Bytes(0, 8));
    } else {
      var region := Elem(MyConfig, Bytes(0, 4));
      g := MultipliesPointer(g, region);
      NoProduct(g.now, region, ELEM_HEADER + 1);
    }
    FaultsNext(g, 17);
  }

  lemma FaultsNext(g: Progress, n: nat)
    requires g.Valid() && Step(g.p, g.o, g.now) == Error && g.steps < n
    ensures Run(g.p, g.o, Running(g.start), n) == Error
  {
    hide Step;
    RunAdd(g.p, g.o, Running(g.start), g.steps, n - g.steps);
    RunAdd(g.p, g.o, Running(g.now), 1, n - g.steps - 1);
    OneStep(g.p, g.o, g.now);
    RunEnded(g.p, g.o, Error, n - g.steps - 1);
  }

  /** Where the first lookup misses, the program leaves at once. */
  lemma Leaves(mem: Memory, o: Oracle) returns (end: State)
    requires !FirstHits(mem)
    ensures Run(NULLABLE, o, Running(Entry(mem)), 17) == Exited(0, end)
    ensures end.mem == mem && end.trace == [LookedUp(CounterTable, Bytes(0, 8))]
  {
    hide Progress.Valid, Entry, Bytes, Frames.Has, Run;
    var g := FirstLookup(mem, o);
    g := g.IfNull(0, 11, true);
    g := g.MovImm(0, 0);
    g.Finish(17);
    end := g.now;
  }

  /** The exact condition: the program fails if and only if the first lookup hits. */
  lemma FailsIffFirstHits(mem: Memory, o: Oracle)
    ensures BehaviourOf(NULLABLE, o, mem) ==
            if FirstHits(mem) then Fails else Returns(0, mem, [LookedUp(CounterTable, Bytes(0, 8))])
  {
    hide Entry, Bytes, Run;
    if FirstHits(mem) { Faults(mem, o); } else { var end := Leaves(mem, o); }
    BehaviourIs(NULLABLE, o, mem, 17);
  }

  lemma OneStep(p: Program, o: Oracle, s: State)
    ensures Run(p, o, Running(s), 1) == Step(p, o, s)
  {
    hide Step;
  }

  lemma Outside(s: State, key: seq<Byte>)
    requires s.pc == 18 && s.regs.r8 == Ptr(Elem(CounterTable, key), -968)
    ensures forall o: Oracle {:trigger Step(NULLABLE, o, s)} :: Step(NULLABLE, o, s) == Error
  {
  }

  /** A run without others that faults rules out acceptance. */
  lemma FaultRulesOut(ld: Loaded, p: Program, limit: nat, mem: Memory, o: Oracle, n: nat)
    requires LoadedAs(ld, mem) && Run(p, o, Running(Entry(mem)), n) == Error
    ensures !Walk(ld, p, [Visit(ENTRY)], [], 0, limit).Accepted?
  {
    hide Walk, Step, Run, RunAmong, Lawful, Entry, LoadedAs;
    if Walk(ld, p, [Visit(ENTRY)], [], 0, limit).Accepted? {
      NoOthers();
      AcceptedIsSafe(ld, p, limit, mem, o, (i, m) => m, n);
      RunAlone(p, o, Running(Entry(mem)), 0, n);
    }
  }

  /** Memory in which the first lookup hits and the second misses. */
  function Example(ld: Loaded): Memory {
    Memory(seq(ld.dataSize, _ => 0), ld.rodata, [], map[Bytes(0, 8) := Bytes(0, 8)], map[])
  }

  lemma ExampleOk(ld: Loaded)
    ensures LoadedAs(ld, Example(ld)) && FirstHits(Example(ld))
  {
    hide Bytes;
  }

  /** So a sound verifier does not accept it, whatever the limit. */
  lemma NotAccepted(ld: Loaded, limit: nat)
    ensures !Walk(ld, NULLABLE, [Visit(ENTRY)], [], 0, limit).Accepted?
  {
    hide Walk, Run, Entry, Example, FirstHits, LoadedAs;
    var o: Oracle := _ => Reply(0, [], false);
    ExampleOk(ld);
    Faults(Example(ld), o);
    FaultRulesOut(ld, NULLABLE, limit, Example(ld), o, 17);
  }
}
