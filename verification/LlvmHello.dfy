/**
 The unoptimised LLVM IR of hello: locals live in alloca slots, helpers are called through
 pointers loaded from globals. It agrees with the C function, so also with the object code.
 */
module LlvmHello {
  import opened Word
  import C = Counter
  import M = Machine
  import I = Isa
  import HelloListing

  datatype Fn = GetUidGid | LookupElem | UpdateElem

  /** Contents of a virtual register or of a slot. */
  datatype IrValue = I64(n: U64) | I1(b: bool) | Null | Slot(id: nat) | Elem(key: U64) | FnPtr(f: Fn) | Context

  /** Instructions; numbers are those of the virtual registers. Alloca makes a slot named
      after its register. */
  datatype IrInsn =
    | Alloca(dst: nat)
    | StoreConst(n: U64, ptr: nat)
    | Store(val: nat, ptr: nat)
    | Load(dst: nat, ptr: nat)
    | LoadFn(dst: nat, f: Fn)
    | And(dst: nat, a: nat, mask: U64)
    | Add(dst: nat, a: nat, c: U64)
    | Bitcast(dst: nat, src: nat)
    | IsNotNull(dst: nat, src: nat)
    | Call0(dst: nat, fn: nat)
    | CallLookup(dst: nat, fn: nat, key: nat)
    | CallUpdate(dst: nat, fn: nat, key: nat, val: nat, flags: U64)
    | CondBr(cond: nat, yes: nat, no: nat)
    | Br(target: nat)
    | Ret(n: U64)

  function EntryAt(i: nat): IrInsn {
    match i
    case 0 => Alloca(2)
    case 1 => Alloca(3)
    case 2 => Alloca(4)
    case 3 => Alloca(5)
    case 4 => Store(0, 2)
    case 5 => StoreConst(0, 4)
    case 6 => LoadFn(6, GetUidGid)
    case 7 => Call0(7, 6)
    case 8 => And(8, 7, 0xFFFF_FFFF)
    case 9 => Store(8, 3)
    case 10 => LoadFn(9, LookupElem)
    case 11 => Bitcast(10, 3)
    case 12 => CallLookup(11, 9, 10)
    case 13 => Bitcast(12, 11)
    case 14 => Store(12, 5)
    case 15 => Load(13, 5)
    case 16 => IsNotNull(14, 13)
    case _ => CondBr(14, 15, 18)
  }

  function HitAt(i: nat): IrInsn {
    match i
    case 0 => Load(16, 5)
    case 1 => Load(17, 16)
    case 2 => Store(17, 4)
    case _ => Br(18)
  }

  function JoinAt(i: nat): IrInsn {
    match i
    case 0 => Load(19, 4)
    case 1 => Add(20, 19, 1)
    case 2 => Store(20, 4)
    case 3 => LoadFn(21, UpdateElem)
    case 4 => Bitcast(22, 3)
    case 5 => Bitcast(23, 4)
    case 6 => CallUpdate(24, 21, 22, 23, 0)
    case _ => Ret(0)
  }

  /** Blocks are named by their labels; the first is block 1. */
  function InsnAt(block: nat, i: nat): IrInsn {
    if block == 1 then EntryAt(i) else if block == 15 then HitAt(i) else JoinAt(i)
  }

  datatype IrState = IrState(block: nat, at: nat, regs: map<nat, IrValue>, slots: map<nat, IrValue>,
                             table: C.CTable, trace: seq<M.Event>, calls: nat)

  datatype IrStatus = Going(s: IrState) | Returned(n: U64, end: IrState) | Stuck

  function Reg(s: IrState, r: nat): IrValue {
    if r in s.regs then s.regs[r] else Context
  }

  function Set(s: IrState, dst: nat, v: IrValue): IrStatus {
    Going(s.(at := s.at + 1, regs := s.regs[dst := v]))
  }

  function Write(s: IrState, ptr: IrValue, v: IrValue): IrStatus {
    if ptr.Slot? then Going(s.(at := s.at + 1, slots := s.slots[ptr.id := v])) else Stuck
  }

  function Read(s: IrState, ptr: IrValue): M.Option<IrValue> {
    match ptr
    case Slot(id) => if id in s.slots then M.Some(s.slots[id]) else M.None
    case Elem(key) => if key in s.table then M.Some(I64(s.table[key])) else M.None
    case _ => M.None
  }

  function ReadInt(s: IrState, ptr: IrValue): M.Option<U64> {
    var v := Read(s, ptr);
    if v.Some? && v.value.I64? then M.Some(v.value.n) else M.None
  }

  function Answer(s: IrState, dst: nat, v: IrValue, e: seq<M.Event>): IrStatus {
    Going(s.(at := s.at + 1, regs := s.regs[dst := v], trace := s.trace + e, calls := s.calls + 1))
  }

  function Lookup(s: IrState, dst: nat, key: M.Option<U64>): IrStatus {
    if key.None? then Stuck else
    Answer(s, dst, if key.value in s.table then Elem(key.value) else Null, [M.LookedUp(I.CounterTable, Bytes(key.value, 8))])
  }

  function Update(s: IrState, dst: nat, key: M.Option<U64>, val: M.Option<U64>, flags: U64, r: M.Reply): IrStatus {
    if key.None? || val.None? || flags != 0 then Stuck else
    var ok := C.Admits(s.table, key.value, r.refuse);
    Answer(s.(table := if ok then s.table[key.value := val.value] else s.table), dst,
           I64(if ok then 0 else Wrap(-1 - r.value % 4095)),
           [M.Updated(I.CounterTable, Bytes(key.value, 8), Bytes(val.value, 8), flags)])
  }

  /** The answer of the update: 0 exactly if it is accepted, and an error from -4095 to -1 otherwise. */
  lemma UpdateAnswer(s: IrState, dst: nat, key: U64, val: U64, r: M.Reply)
    ensures var st, ok := Update(s, dst, M.Some(key), M.Some(val), 0, r), !r.refuse && (key in s.table || |s.table| < 5_000_000);
            && st.Going? && st.s.table == (if ok then s.table[key := val] else s.table)
            && (ok ==> Reg(st.s, dst) == I64(0))
            && (!ok ==> Reg(st.s, dst).I64? && Reg(st.s, dst).n >= 0x1_0000_0000_0000_0000 - 4095)
  {
    hide Bytes;
  }

  function Execute(i: IrInsn, s: IrState, r: M.Reply): IrStatus {
    match i
    case Alloca(d) => Set(s, d, Slot(d))
    case StoreConst(n, p) => Write(s, Reg(s, p), I64(n))
    case Store(v, p) => Write(s, Reg(s, p), Reg(s, v))
    case Load(d, p) => var v := Read(s, Reg(s, p)); if v.None? then Stuck else Set(s, d, v.value)
    case LoadFn(d, f) => Set(s, d, FnPtr(f))
    case And(d, a, m) => if Reg(s, a).I64? then Set(s, d, I64(Bits64(BitAnd, Reg(s, a).n, m))) else Stuck
    case Add(d, a, c) => if Reg(s, a).I64? then Set(s, d, I64(Wrap(Reg(s, a).n + c))) else Stuck
    case Bitcast(d, a) => Set(s, d, Reg(s, a))
    case IsNotNull(d, a) => if Reg(s, a).Null? || Reg(s, a).Elem? then Set(s, d, I1(!Reg(s, a).Null?)) else Stuck
    case Call0(d, f) => if Reg(s, f) == FnPtr(GetUidGid) then Answer(s, d, I64(r.value), []) else Stuck
    case CallLookup(d, f, k) => if Reg(s, f) == FnPtr(LookupElem) then Lookup(s, d, ReadInt(s, Reg(s, k))) else Stuck
    case CallUpdate(d, f, k, v, flags) =>
      if Reg(s, f) == FnPtr(UpdateElem) then Update(s, d, ReadInt(s, Reg(s, k)), ReadInt(s, Reg(s, v)), flags, r) else Stuck
    case CondBr(c, yes, no) => if Reg(s, c).I1? then Going(s.(block := if Reg(s, c).b then yes else no, at := 0)) else Stuck
    case Br(l) => Going(s.(block := l, at := 0))
    case Ret(n) => Returned(n, s)
  }

  function StepIr(o: M.Oracle, s: IrState): IrStatus {
    Execute(InsnAt(s.block, s.at), s, o(s.calls))
  }

  function RunIr(o: M.Oracle, st: IrStatus, n: nat): IrStatus
    decreases n, st
  {
    if n == 0 || !st.Going? then st else RunIr(o, StepIr(o, st.s), n - 1)
  }

  function Start(t: C.CTable): IrState {
    IrState(1, 0, map[0 := Context], map[], t, [], 0)
  }

  lemma {:induction false} RunIrAdd(o: M.Oracle, st: IrStatus, m: nat, n: nat)
    ensures RunIr(o, st, m + n) == RunIr(o, RunIr(o, st, m), n)
    decreases m
  {
    hide StepIr;
    if m > 0 && st.Going? { RunIrAdd(o, StepIr(o, st.s), m - 1, n); }
  }

  /** A run that has reached the state now. */
  datatype IrRun = IrRun(o: M.Oracle, start: IrState, steps: nat, now: IrState) {
    ghost predicate Valid() {
      RunIr(o, Going(start), steps) == Going(now)
    }

    lemma Next() returns (g: IrRun)
      requires Valid() && StepIr(o, now).Going?
      ensures g.Valid() && g == this.(steps := steps + 1, now := StepIr(o, now).s)
    {
      RunIrAdd(o, Going(start), steps, 1);
      g := this.(steps := steps + 1, now := StepIr(o, now).s);
    }

    /** Registers 3, 4 and 5 are the slots of uid, counter and p. */
    predicate Slots() {
      Reg(now, 3) == Slot(3) && Reg(now, 4) == Slot(4) && Reg(now, 5) == Slot(5)
    }

    predicate Holds(slot: nat, v: IrValue) {
      slot in now.slots && now.slots[slot] == v
    }

    lemma Finish(n: U64)
      requires Valid() && InsnAt(now.block, now.at) == Ret(n)
      ensures RunIr(o, Going(start), steps + 1) == Returned(n, now)
    {
      RunIrAdd(o, Going(start), steps, 1);
    }
  }

  lemma Prologue(o: M.Oracle, t: C.CTable) returns (g: IrRun)
    ensures g.Valid() && g == IrRun(o, Start(t), 6, g.now) && g.Slots() && g.Holds(4, I64(0))
    ensures g.now == IrState(1, 6, g.now.regs, g.now.slots, t, [], 0)
  {
    hide IrRun.Valid;
    g := Begin(o, t);
    g := g.Next();
    g := g.Next();
    g := g.Next();
    g := g.Next();
    g := g.Next();
    g := g.Next();
  }

  lemma Begin(o: M.Oracle, t: C.CTable) returns (g: IrRun)
    ensures g.Valid() && g == IrRun(o, Start(t), 0, Start(t))
  {
    g := IrRun(o, Start(t), 0, Start(t));
  }

  lemma StoreUid(g0: IrRun) returns (g: IrRun)
    requires g0.Valid() && g0.Slots() && g0.Holds(4, I64(0))
    requires g0.now == IrState(1, 6, g0.now.regs, g0.now.slots, g0.now.table, [], 0)
    ensures g.Valid() && g == g0.(steps := g0.steps + 4, now := g.now) && g.Slots() && g.Holds(4, I64(0))
    ensures g.Holds(3, I64(C.UserOf(g0.o(0).value)))
    ensures g.now == IrState(1, 10, g.now.regs, g.now.slots, g0.now.table, [], 1)
  {
    hide IrRun.Valid, Bits64;
    g := g0.Next();
    g := g.Next();
    g := g.Next();
    g := g.Next();
  }

  lemma CallLook(g0: IrRun, u: U64) returns (g: IrRun)
    requires g0.Valid() && g0.Slots() && g0.Holds(3, I64(u)) && g0.now.block == 1 && g0.now.at == 10
    ensures g.Valid() && g == g0.(steps := g0.steps + 3, now := g.now) && g.Slots()
    ensures Reg(g.now, 11) == if u in g0.now.table then Elem(u) else Null
    ensures g.now == g0.now.(at := 13, regs := g.now.regs, calls := g0.now.calls + 1,
                             trace := g0.now.trace + [M.LookedUp(I.CounterTable, Bytes(u, 8))])
  {
    hide IrRun.Valid, Bytes;
    g := g0.Next();
    g := g.Next();
    g := g.Next();
  }

  lemma LookUser(g0: IrRun, u: U64) returns (g: IrRun)
    requires g0.Valid() && g0.Slots() && g0.Holds(4, I64(0)) && g0.Holds(3, I64(u))
    requires g0.now == IrState(1, 10, g0.now.regs, g0.now.slots, g0.now.table, [], 1)
    ensures g.Valid() && g == g0.(steps := g0.steps + 5, now := g.now) && g.Slots() && g.Holds(4, I64(0)) && g.Holds(3, I64(u))
    ensures g.Holds(5, if u in g0.now.table then Elem(u) else Null)
    ensures g.now == IrState(1, 15, g.now.regs, g.now.slots, g0.now.table, [M.LookedUp(I.CounterTable, Bytes(u, 8))], 2)
  {
    hide IrRun.Valid, Bytes;
    g := CallLook(g0, u);
    g := g.Next();
    g := g.Next();
  }

  lemma Test(g0: IrRun, u: U64) returns (g: IrRun)
    requires g0.Valid() && g0.Slots() && g0.Holds(3, I64(u)) && g0.Holds(4, I64(0))
    requires g0.Holds(5, if u in g0.now.table then Elem(u) else Null)
    requires g0.now.block == 1 && g0.now.at == 15
    ensures g.Valid() && g == g0.(steps := g0.steps + 3, now := g.now) && g.Slots()
    ensures g.Holds(3, I64(u)) && g.Holds(4, I64(0)) && g.Holds(5, if u in g0.now.table then Elem(u) else Null)
    ensures g.now == g0.now.(block := if u in g0.now.table then 15 else 18, at := 0, regs := g.now.regs)
  {
    hide IrRun.Valid;
    g := g0.Next();
    g := g.Next();
    g := g.Next();
  }

  lemma Hit(g0: IrRun, u: U64) returns (g: IrRun)
    requires g0.Valid() && g0.Slots() && g0.Holds(5, Elem(u)) && g0.Holds(3, I64(u)) && u in g0.now.table
    requires g0.now.block == 15 && g0.now.at == 0
    ensures g.Valid() && g == g0.(steps := g0.steps + 4, now := g.now) && g.Slots()
    ensures g.Holds(3, I64(u)) && g.Holds(4, I64(g0.now.table[u]))
    ensures g.now == g0.now.(block := 18, at := 0, regs := g.now.regs, slots := g.now.slots)
  {
    hide IrRun.Valid;
    g := g0.Next();
    g := g.Next();
    g := g.Next();
    g := g.Next();
  }

  lemma CountUp(g0: IrRun, u: U64) returns (g: IrRun)
    requires g0.Valid() && g0.Slots() && g0.Holds(3, I64(u)) && g0.Holds(4, I64(C.CountIn(g0.now.table, u)))
    requires g0.now.block == 18 && g0.now.at == 0
    ensures g.Valid() && g == g0.(steps := g0.steps + 3, now := g.now) && g.Slots()
    ensures g.Holds(3, I64(u)) && g.Holds(4, I64(C.NextCount(g0.now.table, u)))
    ensures g.now == g0.now.(at := 3, regs := g.now.regs, slots := g.now.slots)
  {
    hide IrRun.Valid;
    g := g0.Next();
    g := g.Next();
    g := g.Next();
  }

  lemma UpdateUser(g0: IrRun, u: U64, n: U64) returns (g: IrRun)
    requires g0.Valid() && g0.Slots() && g0.Holds(3, I64(u)) && g0.Holds(4, I64(n))
    requires g0.now.block == 18 && g0.now.at == 3
    ensures g.Valid() && g == g0.(steps := g0.steps + 4, now := g.now) && g.now.block == 18 && g.now.at == 7
    ensures g.now.table == if C.Admits(g0.now.table, u, g0.o(g0.now.calls).refuse) then g0.now.table[u := n] else g0.now.table
    ensures g.now.trace == g0.now.trace + [M.Updated(I.CounterTable, Bytes(u, 8), Bytes(n, 8), 0)]
  {
    hide IrRun.Valid, Bytes, C.Admits;
    g := g0.Next();
    g := g.Next();
    g := g.Next();
    g := g.Next();
  }

  /** The first block, up to the test. */
  lemma FirstBlock(o: M.Oracle, t: C.CTable, u: U64) returns (g: IrRun)
    requires u == C.UserOf(o(0).value)
    ensures g.Valid() && g == IrRun(o, Start(t), 18, g.now) && g.Slots() && g.Holds(3, I64(u)) && g.Holds(4, I64(0))
    ensures g.Holds(5, if u in t then Elem(u) else Null)
    ensures g.now == IrState(if u in t then 15 else 18, 0, g.now.regs, g.now.slots, t, [M.LookedUp(I.CounterTable, Bytes(u, 8))], 2)
  {
    hide IrRun.Valid, RunIr, IrRun.Slots, IrRun.Holds, C.UserOf, Bytes, Start;
    g := Prologue(o, t);
    g := StoreUid(g);
    g := LookUser(g, u);
    g := Test(g, u);
  }

  /** The last block, up to the return. */
  lemma LastBlock(g0: IrRun, u: U64) returns (g: IrRun)
    requires g0.Valid() && g0.Slots() && g0.Holds(3, I64(u)) && g0.Holds(4, I64(C.CountIn(g0.now.table, u)))
    requires g0.now.block == 18 && g0.now.at == 0
    ensures g.Valid() && g == g0.(steps := g0.steps + 7, now := g.now) && g.now.block == 18 && g.now.at == 7
    ensures var t, n := g0.now.table, C.NextCount(g0.now.table, u);
            && g.now.table == (if C.Admits(t, u, g0.o(g0.now.calls).refuse) then t[u := n] else t)
            && g.now.trace == g0.now.trace + [M.Updated(I.CounterTable, Bytes(u, 8), Bytes(n, 8), 0)]
  {
    hide IrRun.Valid, RunIr, IrRun.Slots, IrRun.Holds, C.NextCount, C.Admits, Bytes;
    g := CountUp(g0, u);
    g := UpdateUser(g, u, C.NextCount(g0.now.table, u));
  }

  lemma AllBlocks(o: M.Oracle, t: C.CTable, u: U64) returns (g: IrRun)
    requires u == C.UserOf(o(0).value)
    ensures g.Valid() && g == IrRun(o, Start(t), if u in t then 29 else 25, g.now) && g.now.block == 18 && g.now.at == 7
    ensures var n := C.NextCount(t, u);
            && g.now.table == (if C.Admits(t, u, o(2).refuse) then t[u := n] else t)
            && g.now.trace == [M.LookedUp(I.CounterTable, Bytes(u, 8))] + [M.Updated(I.CounterTable, Bytes(u, 8), Bytes(n, 8), 0)]
  {
    hide IrRun.Valid, RunIr, IrRun.Slots, IrRun.Holds, C.UserOf, C.NextCount, C.Admits, Bytes, Start;
    g := FirstBlock(o, t, u);
    if u in t { g := Hit(g, u); }
    g := LastBlock(g, u);
  }

  /** The IR is correct: for every table, uid and gid and helper answer it returns 0, with the
      table that the C function leaves and the C function's calls. */
  lemma IrMeetsC(o: M.Oracle, t: C.CTable) returns (end: IrState)
    ensures RunIr(o, Going(Start(t)), if C.UserOf(o(0).value) in t then 30 else 26) == Returned(0, end)
    ensures end.table == C.AfterHello(t, o(0).value, o(2).refuse) && end.trace == C.HelloTrace(t, o(0).value)
  {
    var u := C.UserOf(o(0).value);
    hide IrRun.Valid, RunIr, C.UserOf, C.NextCount, C.Admits, Bytes, Start;
    var g := AllBlocks(o, t, u);
    g.Finish(0);
    end := g.now;
  }

  /** The object code does what the IR does: from a table stored byte for byte, it leaves the
      IR's table stored byte for byte, and makes the same calls. */
  lemma ObjectMeetsIr(mem: M.Memory, o: M.Oracle, t: C.CTable) returns (end: M.State, ir: IrState)
    requires mem.counters == C.Stored(t)
    ensures M.Run(HelloListing.HELLO_OBJECT, o, M.Running(M.Entry(mem)), 24) == M.Exited(0, end)
    ensures RunIr(o, Going(Start(t)), if C.UserOf(o(0).value) in t then 30 else 26) == Returned(0, ir)
    ensures end.mem == mem.(counters := C.Stored(ir.table)) && end.trace == ir.trace
  {
    hide RunIr, M.Run, M.Entry, C.UserOf, C.Stored, C.HelloTrace, C.AfterHello;
    end := HelloListing.ObjectMeetsC(mem, o, t);
    ir := IrMeetsC(o, t);
  }
}
