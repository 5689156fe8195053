/**
 Copies of the object code of hello on any number of CPUs, interleaved at every instruction:
 whatever the schedule, they do to the table what the interleaved invocations of the C
 function do.
 */
module HelloCopies {
  import opened Word
  import opened Isa
  import opened Machine
  import opened Stepping
  import opened Copies
  import opened HelloListing
  import Frames
  import C = Counter
  import N = Concurrent

  /** The access that the next instruction of CPU i makes, if it makes one. */
  function ActionOf(o: Oracle, s: State, i: nat): seq<N.Action> {
    match s.pc
    case 0 => [N.Begin(i, o(0).value)]
    case 8 => [N.Lookup(i)]
    case 10 => if s.regs.r0 == Scalar(0) then [N.Deref(i)] else []
    case 11 => [N.Reread(i)]
    case 12 => [N.Deref(i)]
    case 21 => [N.Update(i, o(2).refuse)]
    case _ => []
  }

  /** The access that the turn of CPU i makes, if it makes one. */
  function TurnOf(os: nat -> Oracle, c: Cpus, i: nat): seq<N.Action> {
    if i in c.at && c.at[i].Running? then ActionOf(os(i), c.at[i].s, i) else []
  }

  /** The accesses of a whole schedule, in order. */
  function ActionsOf(p: Program, os: nat -> Oracle, c: Cpus, schedule: seq<nat>): seq<N.Action> {
    if schedule == [] then [] else
    var before := schedule[..|schedule| - 1];
    ActionsOf(p, os, c, before) + TurnOf(os, RunOf(p, os, c, before), schedule[|schedule| - 1])
  }

  // ---- A CPU and its invocation ----

  function TaskOf(s: N.Sys, i: nat): Option<N.Task> {
    if i in s.tasks then Some(s.tasks[i]) else None
  }

  predicate HasKey(s: State, u: U64) {
    Frames.Has(s.stack, 504, Bytes(u, 8))
  }

  /** Slots 1 to 8: the id, the key and the arguments of the lookup. */
  predicate Begun(s: State, x: U64) {
    var r := s.regs;
    match s.pc
    case 1 => r.r0 == Scalar(x)
    case 2 => r.r0 == Scalar(Shl(x, 32))
    case 3 => r.r0 == Scalar(C.UserOf(x))
    case 4 => HasKey(s, C.UserOf(x))
    case 5 => HasKey(s, C.UserOf(x)) && r.r2 == Ptr(Stack, 512)
    case 6 => HasKey(s, C.UserOf(x)) && r.r2 == Ptr(Stack, 504)
    case 8 => HasKey(s, C.UserOf(x)) && r.r2 == Ptr(Stack, 504) && r.r1 == MapPtr(CounterTable)
    case _ => false
  }

  /** Slots 9 to 12: the pointer found, and what is read through it. */
  predicate Looked(s: State, u: U64, found: N.Found, table: C.CTable) {
    var r := s.regs;
    && HasKey(s, u) && (found.Element? ==> u in table)
    && match s.pc
       case 9 => r.r0 == Pointer(u, found)
       case 10 => r.r0 == Pointer(u, found) && r.r1 == Scalar(1)
       case 11 => r.r0 == Pointer(u, found) && found.Element?
       case 12 => found.Element? && r.r1 == Scalar(found.value)
       case _ => false
  }

  function Pointer(u: U64, found: N.Found): Value {
    if found.Element? then Ptr(Elem(CounterTable, Bytes(u, 8)), ELEM_HEADER) else Scalar(0)
  }

  /** Slots 13 to 21: the new count and the arguments of the update. */
  predicate Counted(s: State, u: U64, n: U64) {
    var r := s.regs;
    && HasKey(s, u) && (s.pc > 13 ==> Frames.Has(s.stack, 496, Bytes(n, 8)))
    && match s.pc
       case 13 => r.r1 == Scalar(n)
       case 14 => true
       case 15 => r.r2 == Ptr(Stack, 512)
       case 16 => r.r2 == Ptr(Stack, 504)
       case 17 => r.r2 == Ptr(Stack, 504) && r.r3 == Ptr(Stack, 512)
       case 18 => r.r2 == Ptr(Stack, 504) && r.r3 == Ptr(Stack, 496)
       case 20 => r.r2 == Ptr(Stack, 504) && r.r3 == Ptr(Stack, 496) && r.r1 == MapPtr(CounterTable)
       case 21 => r.r2 == Ptr(Stack, 504) && r.r3 == Ptr(Stack, 496) && r.r1 == MapPtr(CounterTable) && r.r4 == Scalar(0)
       case _ => false
  }

  predicate Finished(s: State) {
    s.pc == 22 || (s.pc == 23 && s.regs.r0 == Scalar(0))
  }

  /** A CPU that is in the program, and its invocation. */
  predicate InStep(o: Oracle, s: State, t: Option<N.Task>, table: C.CTable) {
    var x := o(0).value;
    && s.regs.r10 == Ptr(Stack, STACK_SIZE)
    && match t
       case None => s.pc == 0 && s.calls == 0
       case Some(Begun(u)) => u == C.UserOf(x) && s.calls == 1 && Begun(s, x)
       case Some(Looked(u, key, found, _)) => u == key == C.UserOf(x) && s.calls == 2 && Looked(s, u, found, table)
       case Some(Counted(u, key, n, _)) => u == key == C.UserOf(x) && s.calls == 2 && Counted(s, u, n)
       case Some(Finished(u)) => u == C.UserOf(x) && Finished(s)
  }

  predicate Linked(o: Oracle, st: Status, t: Option<N.Task>, table: C.CTable) {
    match st
    case Running(s) => InStep(o, s, t, table)
    case Exited(r, _) => r == 0 && t == Some(N.Finished(C.UserOf(o(0).value)))
    case Error => false
  }

  /** After its step, CPU i and the table are linked to the state of the interleaving. */
  ghost predicate Keeps(o: Oracle, st: Status, i: nat, mem: Memory, t: N.Sys) {
    && Linked(o, st, TaskOf(t, i), t.table)
    && MemoryIn(st, mem) == mem.(counters := C.Stored(t.table))
  }

  ghost predicate Before(o: Oracle, s: State, i: nat, t: N.Sys) {
    InStep(o, s, TaskOf(t, i), t.table) && s.mem.counters == C.Stored(t.table)
  }

  lemma BeginStep(o: Oracle, s: State, i: nat, t: N.Sys)
    requires Before(o, s, i, t) && s.pc == 0
    ensures Keeps(o, Step(HELLO_OBJECT, o, s), i, s.mem, N.Step(N.LocalUid, t, N.Begin(i, o(0).value)))
  {
    hide Progress.Valid, Step, C.UserOf, C.Stored;
    var g := From(HELLO_OBJECT, o, s);
    g := g.Ask(UidGid);
    g.IsStep();
  }

  /** Slots 1 and 2 keep the low half of the id. */
  lemma IdSteps(o: Oracle, s: State, i: nat, t: N.Sys)
    requires Before(o, s, i, t) && s.pc in {1, 2}
    ensures Keeps(o, Step(HELLO_OBJECT, o, s), i, s.mem, t)
  {
    hide Progress.Valid, Step, C.Stored, Shl, Shr, Bits64;
    var x := o(0).value;
    ShiftPairIsMask(x);
    var g := From(HELLO_OBJECT, o, s);
    if s.pc == 1 {
      g := g.Calc(Lsh, 0, Imm(32), Scalar(Shl(x, 32)));
    } else {
      g := g.Calc(Rsh, 0, Imm(32), Scalar(C.UserOf(x)));
    }
    g.IsStep();
  }

  lemma KeyStep(o: Oracle, s: State, i: nat, t: N.Sys)
    requires Before(o, s, i, t) && s.pc == 3
    ensures Keeps(o, Step(HELLO_OBJECT, o, s), i, s.mem, t)
  {
    hide Progress.Valid, Step, C.Stored, C.UserOf, Bytes, Put, Frames.Has;
    var u := C.UserOf(o(0).value);
    var g := From(HELLO_OBJECT, o, s);
    g := g.Spill(DW, -8, 0, u);
    g.IsStep();
    Frames.HasPut(s.stack, 504, Bytes(u, 8));
  }

  /** The instructions that set an argument register. */
  lemma LookupArgSteps(o: Oracle, s: State, i: nat, t: N.Sys)
    requires Before(o, s, i, t) && s.pc in {4, 5, 6}
    ensures Keeps(o, Step(HELLO_OBJECT, o, s), i, s.mem, t)
  {
    hide Progress.Valid, Step, C.Stored, C.UserOf, Frames.Has;
    var g := From(HELLO_OBJECT, o, s);
    if s.pc == 4 {
      g := g.MovReg(2, 10);
    } else if s.pc == 5 {
      g := g.Move(2, -8, Stack, 512);
    } else {
      g := g.SymMap(1, CounterTable);
    }
    g.IsStep();
  }

  lemma KeyArgSteps(o: Oracle, s: State, i: nat, t: N.Sys)
    requires Before(o, s, i, t) && s.pc in {14, 15}
    ensures Keeps(o, Step(HELLO_OBJECT, o, s), i, s.mem, t)
  {
    hide Progress.Valid, Step, C.Stored, C.UserOf, Frames.Has;
    var g := From(HELLO_OBJECT, o, s);
    if s.pc == 14 {
      g := g.MovReg(2, 10);
    } else {
      g := g.Move(2, -8, Stack, 512);
    }
    g.IsStep();
  }

  lemma CounterArgSteps(o: Oracle, s: State, i: nat, t: N.Sys)
    requires Before(o, s, i, t) && s.pc in {16, 17}
    ensures Keeps(o, Step(HELLO_OBJECT, o, s), i, s.mem, t)
  {
    hide Progress.Valid, Step, C.Stored, C.UserOf, Frames.Has;
    var g := From(HELLO_OBJECT, o, s);
    if s.pc == 16 {
      g := g.MovReg(3, 10);
    } else {
      g := g.Move(3, -16, Stack, 512);
    }
    g.IsStep();
  }

  lemma LastArgSteps(o: Oracle, s: State, i: nat, t: N.Sys)
    requires Before(o, s, i, t) && s.pc in {18, 20, 22}
    ensures Keeps(o, Step(HELLO_OBJECT, o, s), i, s.mem, t)
  {
    hide Progress.Valid, Step, C.Stored, C.UserOf, Frames.Has;
    var g := From(HELLO_OBJECT, o, s);
    if s.pc == 18 {
      g := g.SymMap(1, CounterTable);
    } else if s.pc == 20 {
      g := g.MovImm(4, 0);
    } else {
      g := g.MovImm(0, 0);
    }
    g.IsStep();
  }

  lemma LookupStep(o: Oracle, s: State, i: nat, t: N.Sys)
    requires Before(o, s, i, t) && s.pc == 8
    ensures Keeps(o, Step(HELLO_OBJECT, o, s), i, s.mem, N.Step(N.LocalUid, t, N.Lookup(i)))
  {
    hide Progress.Valid, Step, C.Stored, C.UserOf, Bytes, ReadBytes, Frames.Has;
    var u := C.UserOf(o(0).value);
    C.StoredAt(t.table, u);
    Frames.HasRead(s.mem, s.stack, 504, Bytes(u, 8));
    var g := From(HELLO_OBJECT, o, s);
    g := g.Look(MapLookup, CounterTable, Bytes(u, 8),
                if u in t.table then Ptr(Elem(CounterTable, Bytes(u, 8)), ELEM_HEADER) else Scalar(0));
    g.IsStep();
  }

  lemma OneStep(o: Oracle, s: State, i: nat, t: N.Sys)
    requires Before(o, s, i, t) && s.pc == 9
    ensures Keeps(o, Step(HELLO_OBJECT, o, s), i, s.mem, t)
  {
    hide Progress.Valid, Step, C.Stored, C.UserOf, Frames.Has, Pointer;
    var g := From(HELLO_OBJECT, o, s);
    g := g.MovImm(1, 1);
    g.IsStep();
  }

  lemma NullStep(o: Oracle, s: State, i: nat, t: N.Sys)
    requires Before(o, s, i, t) && s.pc == 10
    ensures Keeps(o, Step(HELLO_OBJECT, o, s), i, s.mem, if s.regs.r0 == Scalar(0) then N.Step(N.LocalUid, t, N.Deref(i)) else t)
  {
    hide Progress.Valid, Step, C.Stored, C.UserOf, Frames.Has;
    var g := From(HELLO_OBJECT, o, s);
    g := g.IfNull(0, 2, s.regs.r0 == Scalar(0));
    g.IsStep();
  }

  /** The value read is the one that the table holds now. */
  lemma LoadStep(o: Oracle, s: State, i: nat, t: N.Sys)
    requires Before(o, s, i, t) && s.pc == 11
    ensures Keeps(o, Step(HELLO_OBJECT, o, s), i, s.mem, N.Step(N.LocalUid, t, N.Reread(i)))
  {
    hide Progress.Valid, Step, C.Stored, C.UserOf, Frames.Has, Bytes, LoadValue;
    var u := C.UserOf(o(0).value);
    C.StoredAt(t.table, u);
    Frames.LoadElem(s, CounterTable, Bytes(u, 8), t.table[u]);
    var g := From(HELLO_OBJECT, o, s);
    g := g.Fetch(DW, 1, 0, 0, Scalar(t.table[u]));
    g.IsStep();
  }

  lemma AddStep(o: Oracle, s: State, i: nat, t: N.Sys)
    requires Before(o, s, i, t) && s.pc == 12
    ensures Keeps(o, Step(HELLO_OBJECT, o, s), i, s.mem, N.Step(N.LocalUid, t, N.Deref(i)))
  {
    hide Progress.Valid, Step, C.Stored, C.UserOf, Frames.Has, Wrap;
    assert Wrap(1) == 1 by { WrapOne(); }
    var g := From(HELLO_OBJECT, o, s);
    g := g.Calc(Add, 1, Imm(1), Scalar(Wrap(t.tasks[i].found.value + 1)));
    g.IsStep();
  }

  lemma WrapOne()
    ensures Wrap(1) == 1
  {
  }

  lemma CountStep(o: Oracle, s: State, i: nat, t: N.Sys)
    requires Before(o, s, i, t) && s.pc == 13
    ensures Keeps(o, Step(HELLO_OBJECT, o, s), i, s.mem, t)
  {
    hide Progress.Valid, Step, C.Stored, C.UserOf, Bytes, Put, Frames.Has;
    var u, n := C.UserOf(o(0).value), t.tasks[i].n;
    var g := From(HELLO_OBJECT, o, s);
    g := g.Spill(DW, -16, 1, n);
    g.IsStep();
    Frames.HasPut(s.stack, 496, Bytes(n, 8));
    Frames.HasKept(s.stack, 504, Bytes(u, 8), 496, Bytes(n, 8));
  }

  lemma UpdateEffect(t: N.Sys, i: nat, refuse: bool)
    requires i in t.tasks && t.tasks[i].Counted?
    ensures var u, t' := t.tasks[i].u, N.Step(N.LocalUid, t, N.Update(i, refuse));
            && t'.table == (if C.Admits(t.table, u, refuse) then t.table[u := t.tasks[i].n] else t.table)
            && TaskOf(t', i) == Some(N.Finished(u))
  {
    hide C.UserOf, C.Admits;
  }

  lemma UpdateStep(o: Oracle, s: State, i: nat, t: N.Sys)
    requires Before(o, s, i, t) && s.pc == 21
    ensures Keeps(o, Step(HELLO_OBJECT, o, s), i, s.mem, N.Step(N.LocalUid, t, N.Update(i, o(2).refuse)))
  {
    hide Progress.Valid, Step, N.Step, C.Stored, C.UserOf, Bytes, ReadBytes, Frames.Has;
    var u, n := C.UserOf(o(0).value), t.tasks[i].n;
    var table := if C.Admits(t.table, u, o(2).refuse) then t.table[u := n] else t.table;
    UpdateEffect(t, i, o(2).refuse);
    C.StoredAt(t.table, u);
    C.StoredUpdate(t.table, u, n);
    Frames.HasRead(s.mem, s.stack, 504, Bytes(u, 8));
    Frames.HasRead(s.mem, s.stack, 496, Bytes(n, 8));
    var g := From(HELLO_OBJECT, o, s);
    g := g.UpdateElem(CounterTable, Bytes(u, 8), Bytes(n, 8), C.Stored(table));
    g.IsStep();
  }

  lemma ExitStep(o: Oracle, s: State, i: nat, t: N.Sys)
    requires Before(o, s, i, t) && s.pc == 23
    ensures Keeps(o, Step(HELLO_OBJECT, o, s), i, s.mem, t)
  {
    hide C.Stored, C.UserOf;
  }

  function After(t: N.Sys, acts: seq<N.Action>): N.Sys {
    if acts == [] then t else N.Step(N.LocalUid, t, acts[0])
  }

  /** Every instruction is the action that ActionOf names, or changes nothing that matters. */
  lemma OneInstruction(o: Oracle, s: State, i: nat, t: N.Sys)
    requires Before(o, s, i, t)
    ensures Keeps(o, Step(HELLO_OBJECT, o, s), i, s.mem, After(t, ActionOf(o, s, i)))
  {
    hide Keeps, Step, N.Step;
    Places(o, s, i, t);
    hide Before;
    if s.pc == 0 { BeginStep(o, s, i, t); }
    else if s.pc in {1, 2} { IdSteps(o, s, i, t); }
    else if s.pc == 3 { KeyStep(o, s, i, t); }
    else if s.pc in {4, 5, 6} { LookupArgSteps(o, s, i, t); }
    else if s.pc == 8 { LookupStep(o, s, i, t); }
    else if s.pc == 9 { OneStep(o, s, i, t); }
    else if s.pc == 10 { NullStep(o, s, i, t); }
    else if s.pc == 11 { LoadStep(o, s, i, t); }
    else if s.pc == 12 { AddStep(o, s, i, t); }
    else if s.pc == 13 { CountStep(o, s, i, t); }
    else if s.pc in {14, 15} { KeyArgSteps(o, s, i, t); }
    else if s.pc in {16, 17} { CounterArgSteps(o, s, i, t); }
    else if s.pc == 21 { UpdateStep(o, s, i, t); }
    else if s.pc == 23 { ExitStep(o, s, i, t); }
    else { LastArgSteps(o, s, i, t); }
  }

  lemma Places(o: Oracle, s: State, i: nat, t: N.Sys)
    requires Before(o, s, i, t)
    ensures 0 <= s.pc < 24 && s.pc != 7 && s.pc != 19
  {
    hide C.UserOf, C.Stored, Frames.Has;
  }

  // ---- All CPUs ----

  predicate CpuOk(os: nat -> Oracle, c: Cpus, t: N.Sys, i: nat) {
    if i in c.at then Linked(os(i), c.at[i], TaskOf(t, i), t.table) else i !in t.tasks
  }

  ghost predicate Together(os: nat -> Oracle, c: Cpus, t: N.Sys) {
    c.mem.counters == C.Stored(t.table) && forall i: nat :: CpuOk(os, c, t, i)
  }

  lemma Others(t: N.Sys, a: N.Action, j: nat)
    requires a.i != j
    ensures var t' := N.Step(N.LocalUid, t, a); TaskOf(t', j) == TaskOf(t, j) && t.table.Keys <= t'.table.Keys
  {
    hide C.UserOf;
  }

  lemma AfterOthers(t: N.Sys, o: Oracle, s: State, i: nat, j: nat)
    requires i != j
    ensures var t' := After(t, ActionOf(o, s, i)); TaskOf(t', j) == TaskOf(t, j) && t.table.Keys <= t'.table.Keys
  {
    var acts := ActionOf(o, s, i);
    hide N.Step;
    if acts != [] { Others(t, acts[0], j); }
  }

  lemma StillLinked(o: Oracle, st: Status, t: Option<N.Task>, table: C.CTable, table': C.CTable)
    requires Linked(o, st, t, table) && table.Keys <= table'.Keys
    ensures Linked(o, st, t, table')
  {
    hide C.UserOf, Begun, Counted, Finished, HasKey, Pointer;
  }

  lemma Turn(os: nat -> Oracle, c: Cpus, i: nat, t: N.Sys)
    requires Together(os, c, t)
    ensures var c', t' := StepOf(HELLO_OBJECT, os, c, i), After(t, TurnOf(os, c, i));
            Together(os, c', t') && c'.mem == c.mem.(counters := C.Stored(t'.table))
  {
    hide Step, N.Step, Linked, InStep, C.Stored, ActionOf, Entry;
    assert CpuOk(os, c, t, i);
    var c', t' := StepOf(HELLO_OBJECT, os, c, i), After(t, TurnOf(os, c, i));
    if i !in c.at {
      Entered(os(i), c.mem, t.table);
    } else if c.at[i].Running? {
      var s := c.at[i].s.(mem := c.mem);
      assert ActionOf(os(i), s, i) == ActionOf(os(i), c.at[i].s, i) by { MemoryAside(os(i), c.at[i].s, c.mem, i, t); }
      assert Before(os(i), s, i, t) by { MemoryAside(os(i), c.at[i].s, c.mem, i, t); }
      OneInstruction(os(i), s, i, t);
    }
    forall j: nat ensures CpuOk(os, c', t', j) {
      assert CpuOk(os, c, t, j);
      if j != i && i in c.at && c.at[i].Running? {
        AfterOthers(t, os(i), c.at[i].s, i, j);
        if j in c.at { StillLinked(os(j), c.at[j], TaskOf(t, j), t.table, t'.table); }
      }
    }
  }

  lemma Entered(o: Oracle, mem: Memory, table: C.CTable)
    ensures Linked(o, Running(Entry(mem)), None, table)
  {
  }

  lemma MemoryAside(o: Oracle, s: State, mem: Memory, i: nat, t: N.Sys)
    ensures ActionOf(o, s.(mem := mem), i) == ActionOf(o, s, i)
    ensures Linked(o, Running(s), TaskOf(t, i), t.table) && mem.counters == C.Stored(t.table) ==> Before(o, s.(mem := mem), i, t)
  {
    hide C.UserOf, C.Stored;
  }

  lemma RunAfter(t: N.Sys, acts: seq<N.Action>, o: Oracle, s: State, i: nat)
    ensures N.Run(N.LocalUid, N.START, acts + ActionOf(o, s, i)) == After(N.Run(N.LocalUid, N.START, acts), ActionOf(o, s, i))
    ensures |ActionOf(o, s, i)| <= 1
  {
    var more := ActionOf(o, s, i);
    if more == [] {
      assert acts + more == acts;
    } else {
      hide N.Step, N.Run;
      N.RunAppend(N.LocalUid, N.START, acts, more);
      assert more == [more[0]];
      N.RunOne(N.LocalUid, N.Run(N.LocalUid, N.START, acts), more[0]);
    }
  }

  lemma {:induction false} CopiesTogether(os: nat -> Oracle, mem: Memory, schedule: seq<nat>)
    requires mem.counters == map[]
    ensures var c := RunOf(HELLO_OBJECT, os, Idle(mem), schedule);
            var acts := ActionsOf(HELLO_OBJECT, os, Idle(mem), schedule);
            var t := N.Run(N.LocalUid, N.START, acts);
            Together(os, c, t) && c.mem == mem.(counters := C.Stored(t.table)) && |acts| <= |schedule|
    decreases |schedule|
  {
    hide StepOf, N.Step, CpuOk, C.Stored, ActionOf;
    if schedule == [] {
      NobodyYet(os, mem);
    } else {
      var before, i := schedule[..|schedule| - 1], schedule[|schedule| - 1];
      CopiesTogether(os, mem, before);
      var c, acts := RunOf(HELLO_OBJECT, os, Idle(mem), before), ActionsOf(HELLO_OBJECT, os, Idle(mem), before);
      hide Together;
      Turn(os, c, i, N.Run(N.LocalUid, N.START, acts));
      if i in c.at && c.at[i].Running? {
        RunAfter(N.Run(N.LocalUid, N.START, acts), acts, os(i), c.at[i].s, i);
      } else {
        assert acts + [] == acts;
      }
    }
  }

  lemma NobodyYet(os: nat -> Oracle, mem: Memory)
    requires mem.counters == map[]
    ensures Together(os, Idle(mem), N.START) && mem == mem.(counters := C.Stored(map[]))
  {
    assert C.Stored(map[]) == map[];
  }

  /** Whatever the schedule, what copies of the object code do to an empty table is what the
      invocations of the C function do when they are interleaved at their accesses to it; no
      copy faults, and those that have ended returned 0. */
  lemma CopiesAreInvocations(os: nat -> Oracle, mem: Memory, schedule: seq<nat>)
    requires mem.counters == map[]
    ensures var c := RunOf(HELLO_OBJECT, os, Idle(mem), schedule);
            var t := N.Run(N.LocalUid, N.START, ActionsOf(HELLO_OBJECT, os, Idle(mem), schedule));
            && c.mem == mem.(counters := C.Stored(t.table))
            && (forall i :: i in c.at ==> !c.at[i].Error? && (c.at[i].Exited? ==> c.at[i].result == 0))
            && (forall i :: i in t.tasks ==> i in c.at && t.tasks[i].u == C.UserOf(os(i)(0).value))
  {
    hide RunOf, ActionsOf, N.Run, C.Stored;
    CopiesTogether(os, mem, schedule);
    var c := RunOf(HELLO_OBJECT, os, Idle(mem), schedule);
    var t := N.Run(N.LocalUid, N.START, ActionsOf(HELLO_OBJECT, os, Idle(mem), schedule));
    forall i: nat ensures i in c.at ==> !c.at[i].Error? && (c.at[i].Exited? ==> c.at[i].result == 0)
                  ensures i in t.tasks ==> i in c.at && t.tasks[i].u == C.UserOf(os(i)(0).value) {
      assert CpuOk(os, c, t, i);
      hide C.UserOf;
    }
  }

  /** So the results about interleaved invocations hold of the bytecode: a stored counter lies
      between 1 and the number of completed updates, and is that number if and only if none
      of them was stale. */
  lemma CopiesCount(os: nat -> Oracle, mem: Memory, schedule: seq<nat>, u: U64) returns (table: C.CTable)
    requires mem.counters == map[] && |schedule| < TWO64
    ensures RunOf(HELLO_OBJECT, os, Idle(mem), schedule).mem.counters == C.Stored(table)
    ensures var acts := ActionsOf(HELLO_OBJECT, os, Idle(mem), schedule);
            var done := N.Done(N.Run(N.LocalUid, N.START, acts), u);
            && (u in table <==> done > 0) && C.CountIn(table, u) <= done && (done > 0 ==> C.CountIn(table, u) >= 1)
            && (C.CountIn(table, u) == done <==> !N.AnyStale(acts, u))
  {
    hide RunOf, ActionsOf, N.Run, C.Stored, Together, N.AnyStale;
    CopiesTogether(os, mem, schedule);
    var acts := ActionsOf(HELLO_OBJECT, os, Idle(mem), schedule);
    table := N.Run(N.LocalUid, N.START, acts).table;
    N.LocalBounds(acts, u);
    N.ExactIffNoStale(acts, u);
  }
}
