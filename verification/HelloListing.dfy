/** The object code of hello, instruction by instruction, against its C source. */
module HelloListing {
  import opened Word
  import opened Isa
  import opened Machine
  import opened Stepping
  import Frames
  import C = Counter

  function HelloObjectAt(pc: int): Insn {
    match pc
    case 0 => Call(UidGid)
    case 1 => Alu(Lsh, 0, Imm(32))
    case 2 => Alu(Rsh, 0, Imm(32))
    case 3 => Store(DW, 10, -8, 0)
    case 4 => Alu(Mov, 2, Reg(10))
    case 5 => Alu(Add, 2, Imm(-8))
    case 6 => LoadSym(1, MapRef(CounterTable), 0)
    case 8 => Call(MapLookup)
    case 9 => Alu(Mov, 1, Imm(1))
    case 10 => JumpIf(Eq, 0, Imm(0), 2)
    case 11 => Load(DW, 1, 0, 0)
    case 12 => Alu(Add, 1, Imm(1))
    case 13 => Store(DW, 10, -16, 1)
    case 14 => Alu(Mov, 2, Reg(10))
    case 15 => Alu(Add, 2, Imm(-8))
    case 16 => Alu(Mov, 3, Reg(10))
    case 17 => Alu(Add, 3, Imm(-16))
    case 18 => LoadSym(1, MapRef(CounterTable), 0)
    case 20 => Alu(Mov, 4, Imm(0))
    case 21 => Call(MapUpdate)
    case 22 => Alu(Mov, 0, Imm(0))
    case 23 => Exit
    case _ => Second
  }

  const HELLO_OBJECT: Program := seq(24, HelloObjectAt)

  /** Slots 0 to 3: the user id is stored as the key. */
  lemma StoreKey(mem: Memory, o: Oracle) returns (g: Progress)
    ensures g.Valid() && g == Progress(HELLO_OBJECT, o, Entry(mem), 4, g.now)
    ensures g.now == State(4, g.now.regs, g.now.stack, mem, [], 1) && g.now.regs.r10 == Ptr(Stack, STACK_SIZE)
    ensures ReadBytes(mem, g.now.stack, Stack, 504, 8) == Some(Bytes(C.UserOf(o(0).value), 8))
  {
    hide Progress.Valid, Entry, C.UserOf, Put, Bytes, ReadBytes, Resolve;
    var x := o(0).value;
    C.UserIsLow(x);
    g := Begin(HELLO_OBJECT, o, mem);
    g := g.Ask(UidGid);
    g := g.KeepLow(0, x);
    Frames.ReadPut(mem, g.now.stack, 504, Bytes(C.UserOf(x), 8));
    g := g.Spill(DW, -8, 0, C.UserOf(x));
  }

  /** Slots 4 to 7: the arguments of the lookup. */
  lemma LookupArgs(g0: Progress) returns (g: Progress)
    requires g0.Valid() && g0.p == HELLO_OBJECT && g0.now.pc == 4 && g0.now.regs.r10 == Ptr(Stack, STACK_SIZE)
    ensures g.Valid() && g == g0.(steps := g0.steps + 3, now := g.now)
    ensures g.now == g0.now.(pc := 8, regs := g.now.regs)
    ensures g.now.regs.r1 == MapPtr(CounterTable) && g.now.regs.r2 == Ptr(Stack, 504)
    ensures g.now.regs.r10 == Ptr(Stack, STACK_SIZE)
  {
    hide Progress.Valid;
    g := g0.FrameSlot(2, -8);
    g := g.SymMap(1, CounterTable);
  }

  /** Slot 8: the lookup of the user's counter. */
  lemma LookUser(g0: Progress, t: C.CTable, u: U64) returns (g: Progress)
    requires g0.Valid() && g0.p == HELLO_OBJECT && g0.now.pc == 8 && g0.now.mem.counters == C.Stored(t)
    requires g0.now.regs.r1 == MapPtr(CounterTable) && g0.now.regs.r2 == Ptr(Stack, 504)
    requires ReadBytes(g0.now.mem, g0.now.stack, Stack, 504, 8) == Some(Bytes(u, 8))
    ensures g.Valid() && g == g0.(steps := g0.steps + 1, now := g.now)
    ensures g.now == g0.now.(pc := 9, regs := g.now.regs, calls := g0.now.calls + 1,
                             trace := g0.now.trace + [LookedUp(CounterTable, Bytes(u, 8))])
    ensures g.now.regs.r10 == g0.now.regs.r10
    ensures g.now.regs.r0 == if u in t then Ptr(Elem(CounterTable, Bytes(u, 8)), ELEM_HEADER) else Scalar(0)
  {
    C.StoredAt(t, u);
    hide Progress.Valid, ReadBytes, Bytes, C.Stored;
    g := g0.Look(MapLookup, CounterTable, Bytes(u, 8),
                 if u in t then Ptr(Elem(CounterTable, Bytes(u, 8)), ELEM_HEADER) else Scalar(0));
  }

  lemma FirstCount(g0: Progress, t: C.CTable, u: U64) returns (g: Progress)
    requires g0.Valid() && g0.p == HELLO_OBJECT && g0.now.pc == 9
    requires g0.now.regs.r0 == Scalar(0) && u !in t
    ensures g.Valid() && g == g0.(steps := g0.steps + 2, now := g.now)
    ensures g.now == g0.now.(pc := 13, regs := g0.now.regs.(r1 := Scalar(C.NextCount(t, u))))
  {
    hide Progress.Valid;
    g := g0.MovImm(1, 1);
    g := g.Branch(Eq, 0, Imm(0), 2, true);
  }

  lemma LoadCount(g0: Progress, t: C.CTable, u: U64) returns (g: Progress)
    requires g0.Valid() && g0.p == HELLO_OBJECT && g0.now.pc == 11 && g0.now.mem.counters == C.Stored(t)
    requires g0.now.regs.r0 == Ptr(Elem(CounterTable, Bytes(u, 8)), ELEM_HEADER) && u in t
    ensures g.Valid() && g == g0.(steps := g0.steps + 2, now := g.now)
    ensures g.now == g0.now.(pc := 13, regs := g0.now.regs.(r1 := Scalar(C.NextCount(t, u))))
  {
    C.StoredAt(t, u);
    hide Progress.Valid, Bytes, LoadValue, C.Stored;
    Frames.LoadElem(g0.now, CounterTable, Bytes(u, 8), t[u]);
    g := g0.Fetch(DW, 1, 0, 0, Scalar(t[u]));
    g := g.Calc(Add, 1, Imm(1), Scalar(C.NextCount(t, u)));
  }

  lemma LaterCount(g0: Progress, t: C.CTable, u: U64) returns (g: Progress)
    requires g0.Valid() && g0.p == HELLO_OBJECT && g0.now.pc == 9 && g0.now.mem.counters == C.Stored(t)
    requires g0.now.regs.r0 == Ptr(Elem(CounterTable, Bytes(u, 8)), ELEM_HEADER) && u in t
    ensures g.Valid() && g == g0.(steps := g0.steps + 4, now := g.now)
    ensures g.now == g0.now.(pc := 13, regs := g0.now.regs.(r1 := Scalar(C.NextCount(t, u))))
  {
    hide Progress.Valid, Bytes, C.Stored, C.NextCount;
    g := g0.MovImm(1, 1);
    g := g.Branch(Eq, 0, Imm(0), 2, false);
    g := LoadCount(g, t, u);
  }

  lemma StoreCounter(g0: Progress, n: U64) returns (g: Progress)
    requires g0.Valid() && g0.p == HELLO_OBJECT && g0.now.pc == 13
    requires g0.now.regs.r10 == Ptr(Stack, STACK_SIZE) && g0.now.regs.r1 == Scalar(n)
    ensures g.Valid() && g == g0.(steps := g0.steps + 3, now := g.now)
    ensures g.now == g0.now.(pc := 16, regs := g0.now.regs.(r2 := Ptr(Stack, 504)), stack := Put(g0.now.stack, 496, Bytes(n, 8)))
  {
    hide Progress.Valid, Put, Bytes;
    g := g0.Spill(DW, -16, 1, n);
    g := g.FrameSlot(2, -8);
  }

  /** Slots 13 to 20: the arguments of the update. */
  lemma UpdateArgs(g0: Progress, n: U64) returns (g: Progress)
    requires g0.Valid() && g0.p == HELLO_OBJECT && g0.now.pc == 13
    requires g0.now.regs.r10 == Ptr(Stack, STACK_SIZE) && g0.now.regs.r1 == Scalar(n)
    ensures g.Valid() && g == g0.(steps := g0.steps + 7, now := g.now)
    ensures g.now == g0.now.(pc := 21, regs := g.now.regs, stack := Put(g0.now.stack, 496, Bytes(n, 8)))
    ensures g.now.regs.r1 == MapPtr(CounterTable) && g.now.regs.r2 == Ptr(Stack, 504)
    ensures g.now.regs.r3 == Ptr(Stack, 496) && g.now.regs.r4 == Scalar(0)
  {
    hide Progress.Valid, Put, Bytes;
    g := StoreCounter(g0, n);
    g := g.FrameSlot(3, -16);
    g := g.SymMap(1, CounterTable);
    g := g.MovImm(4, 0);
  }

  lemma UpdateCall(g0: Progress, t: C.CTable, u: U64, n: U64) returns (g: Progress)
    requires g0.Valid() && g0.p == HELLO_OBJECT && g0.now.pc == 21 && g0.now.mem.counters == C.Stored(t)
    requires g0.now.regs.r1 == MapPtr(CounterTable) && g0.now.regs.r2 == Ptr(Stack, 504)
    requires g0.now.regs.r3 == Ptr(Stack, 496) && g0.now.regs.r4 == Scalar(0)
    requires ReadBytes(g0.now.mem, g0.now.stack, Stack, 504, 8) == Some(Bytes(u, 8))
    requires ReadBytes(g0.now.mem, g0.now.stack, Stack, 496, 8) == Some(Bytes(n, 8))
    ensures g.Valid() && g == g0.(steps := g0.steps + 1, now := g.now) && g.now.pc == 22
    ensures var t' := if C.Admits(t, u, g0.o(g0.now.calls).refuse) then t[u := n] else t;
            && g.now.mem == g0.now.mem.(counters := C.Stored(t'))
            && g.now.trace == g0.now.trace + [Updated(CounterTable, Bytes(u, 8), Bytes(n, 8), 0)]
  {
    var t' := if C.Admits(t, u, g0.o(g0.now.calls).refuse) then t[u := n] else t;
    C.StoredAt(t, u);
    C.StoredUpdate(t, u, n);
    hide Progress.Valid, Bytes, C.Stored, ReadBytes;
    g := g0.UpdateElem(CounterTable, Bytes(u, 8), Bytes(n, 8), C.Stored(t'));
  }

  /** Slots 21 to 23: the update, and the return of 0. */
  lemma UpdateUser(g0: Progress, t: C.CTable, u: U64, n: U64) returns (g: Progress)
    requires g0.Valid() && g0.p == HELLO_OBJECT && g0.now.pc == 21 && g0.now.mem.counters == C.Stored(t)
    requires g0.now.regs.r1 == MapPtr(CounterTable) && g0.now.regs.r2 == Ptr(Stack, 504)
    requires g0.now.regs.r3 == Ptr(Stack, 496) && g0.now.regs.r4 == Scalar(0)
    requires ReadBytes(g0.now.mem, g0.now.stack, Stack, 504, 8) == Some(Bytes(u, 8))
    requires ReadBytes(g0.now.mem, g0.now.stack, Stack, 496, 8) == Some(Bytes(n, 8))
    ensures g.Valid() && g == g0.(steps := g0.steps + 2, now := g.now) && g.At(Exit) && g.now.regs.r0 == Scalar(0)
    ensures var t' := if C.Admits(t, u, g0.o(g0.now.calls).refuse) then t[u := n] else t;
            && g.now.mem == g0.now.mem.(counters := C.Stored(t'))
            && g.now.trace == g0.now.trace + [Updated(CounterTable, Bytes(u, 8), Bytes(n, 8), 0)]
  {
    hide Progress.Valid, Bytes, C.Stored, ReadBytes, C.Admits;
    g := UpdateCall(g0, t, u, n);
    g := g.MovImm(0, 0);
  }

  lemma Join(g0: Progress, t: C.CTable, u: U64) returns (g: Progress)
    requires g0.Valid() && g0.p == HELLO_OBJECT && g0.now.pc == 9 && g0.now.mem.counters == C.Stored(t)
    requires g0.now.regs.r0 == if u in t then Ptr(Elem(CounterTable, Bytes(u, 8)), ELEM_HEADER) else Scalar(0)
    ensures g.Valid() && g == g0.(steps := g0.steps + if u in t then 4 else 2, now := g.now)
    ensures g.now == g0.now.(pc := 13, regs := g0.now.regs.(r1 := Scalar(C.NextCount(t, u))))
  {
    hide Progress.Valid, Bytes, C.Stored;
    if u in t { g := LaterCount(g0, t, u); } else { g := FirstCount(g0, t, u); }
  }

  lemma Tail(g0: Progress, t: C.CTable, u: U64) returns (g: Progress)
    requires g0.Valid() && g0.p == HELLO_OBJECT && g0.now.pc == 13 && g0.now.mem.counters == C.Stored(t)
    requires g0.now.regs.r10 == Ptr(Stack, STACK_SIZE) && g0.now.regs.r1 == Scalar(C.NextCount(t, u))
    requires ReadBytes(g0.now.mem, g0.now.stack, Stack, 504, 8) == Some(Bytes(u, 8))
    ensures g.Valid() && g == g0.(steps := g0.steps + 9, now := g.now) && g.At(Exit) && g.now.regs.r0 == Scalar(0)
    ensures var n := C.NextCount(t, u);
            && g.now.mem == g0.now.mem.(counters := C.Stored(if C.Admits(t, u, g0.o(g0.now.calls).refuse) then t[u := n] else t))
            && g.now.trace == g0.now.trace + [Updated(CounterTable, Bytes(u, 8), Bytes(n, 8), 0)]
  {
    var n := C.NextCount(t, u);
    hide Progress.Valid, Bytes, C.Stored, Put, ReadBytes, C.NextCount, C.Admits;
    g := UpdateArgs(g0, n);
    Frames.ReadPut(g0.now.mem, g0.now.stack, 496, Bytes(n, 8));
    Frames.ReadPutOther(g0.now.mem, g0.now.stack, 496, Bytes(n, 8), 504, 8);
    g := UpdateUser(g, t, u, n);
  }

  lemma Lookup(mem: Memory, o: Oracle, t: C.CTable) returns (g: Progress)
    requires mem.counters == C.Stored(t)
    ensures var u := C.UserOf(o(0).value);
            && g.Valid() && g == Progress(HELLO_OBJECT, o, Entry(mem), 8, g.now)
            && g.now == State(9, g.now.regs, g.now.stack, mem, [LookedUp(CounterTable, Bytes(u, 8))], 2)
            && g.now.regs.r0 == (if u in t then Ptr(Elem(CounterTable, Bytes(u, 8)), ELEM_HEADER) else Scalar(0))
            && g.now.regs.r10 == Ptr(Stack, STACK_SIZE)
            && ReadBytes(mem, g.now.stack, Stack, 504, 8) == Some(Bytes(u, 8))
  {
    hide Progress.Valid, Bytes, C.Stored, ReadBytes, C.UserOf, Entry;
    g := StoreKey(mem, o);
    g := LookupArgs(g);
    g := LookUser(g, t, C.UserOf(o(0).value));
  }

  /** Slots 9 to 22: count, and update. */
  lemma CountAndUpdate(g0: Progress, t: C.CTable, u: U64) returns (g: Progress)
    requires g0.Valid() && g0.p == HELLO_OBJECT && g0.now.pc == 9 && g0.now.mem.counters == C.Stored(t)
    requires g0.now.regs.r0 == if u in t then Ptr(Elem(CounterTable, Bytes(u, 8)), ELEM_HEADER) else Scalar(0)
    requires g0.now.regs.r10 == Ptr(Stack, STACK_SIZE) && ReadBytes(g0.now.mem, g0.now.stack, Stack, 504, 8) == Some(Bytes(u, 8))
    ensures g.Valid() && g == g0.(steps := g0.steps + if u in t then 13 else 11, now := g.now)
    ensures g.At(Exit) && g.now.regs.r0 == Scalar(0)
    ensures var n := C.NextCount(t, u);
            && g.now.mem == g0.now.mem.(counters := C.Stored(if C.Admits(t, u, g0.o(g0.now.calls).refuse) then t[u := n] else t))
            && g.now.trace == g0.now.trace + [Updated(CounterTable, Bytes(u, 8), Bytes(n, 8), 0)]
  {
    hide Progress.Valid, Bytes, C.Stored, ReadBytes, C.NextCount, C.Admits;
    g := Join(g0, t, u);
    g := Tail(g, t, u);
  }

  /** The specification of the C function, unfolded. */
  lemma WhatHelloLeaves(t: C.CTable, uidGid: U64, refuse: bool)
    ensures var u, n := C.UserOf(uidGid), C.NextCount(t, C.UserOf(uidGid));
            && C.AfterHello(t, uidGid, refuse) == (if C.Admits(t, u, refuse) then t[u := n] else t)
            && C.HelloTrace(t, uidGid)
               == [LookedUp(CounterTable, Bytes(u, 8))] + [Updated(CounterTable, Bytes(u, 8), Bytes(n, 8), 0)]
  {
    hide Bytes, C.UserOf, C.NextCount, C.Admits;
  }

  /** The object code is correct: from every memory, user and helper answer, it ends
      with result 0, the table that the C function leaves, and the C function's calls. */
  lemma ObjectMeetsC(mem: Memory, o: Oracle, t: C.CTable) returns (end: State)
    requires mem.counters == C.Stored(t)
    ensures Run(HELLO_OBJECT, o, Running(Entry(mem)), 24) == Exited(0, end)
    ensures end.mem == mem.(counters := C.Stored(C.AfterHello(t, o(0).value, o(2).refuse)))
    ensures end.trace == C.HelloTrace(t, o(0).value)
  {
    hide Progress.Valid, Run, Bytes, C.Stored, ReadBytes, C.NextCount, C.Admits, C.UserOf, C.AfterHello, C.HelloTrace, Entry;
    var g := Lookup(mem, o, t);
    g := CountAndUpdate(g, t, C.UserOf(o(0).value));
    g.Finish(24);
    end := g.now;
    WhatHelloLeaves(t, o(0).value, o(2).refuse);
  }

  /** The same, for every memory whose table of counters is well-formed. */
  lemma ObjectMeetsCEverywhere(mem: Memory, o: Oracle) returns (t: C.CTable, end: State)
    requires TableOk(CounterTable, mem.counters)
    ensures mem.counters == C.Stored(t) && Run(HELLO_OBJECT, o, Running(Entry(mem)), 24) == Exited(0, end)
    ensures end.mem == mem.(counters := C.Stored(C.AfterHello(t, o(0).value, o(2).refuse)))
    ensures end.trace == C.HelloTrace(t, o(0).value)
  {
    hide Run, Entry, C.Stored, C.AfterHello, C.HelloTrace;
    t := C.EveryTableStored(mem.counters);
    end := ObjectMeetsC(mem, o, t);
  }
}
