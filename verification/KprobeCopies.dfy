/**
 Copies of the object code of kprobe_exec on any number of CPUs, interleaved at every
 instruction: of all that they share they change only c, and c as unprotected increments do.
 */
module KprobeCopies {
  import opened Word
  import opened Isa
  import opened Machine
  import opened Stepping
  import opened Copies
  import opened KprobeListing
  import C = KprobeC
  import N = KprobeCounter
  import P = KprobeProof
  import R = KprobeRun

  /** The access to c that the next instruction of CPU i makes, if it makes one. */
  function ActionOf(s: State, i: nat): seq<N.Access> {
    match s.pc
    case 3 => [N.Load(i)]
    case 6 => [N.Store(i)]
    case _ => []
  }

  function TurnOf(c: Cpus, i: nat): seq<N.Access> {
    if i in c.at && c.at[i].Running? then ActionOf(c.at[i].s, i) else []
  }

  /** The accesses of a whole schedule, in order. */
  function ActionsOf(p: Program, os: nat -> Oracle, c: Cpus, schedule: seq<nat>): seq<N.Access> {
    if schedule == [] then [] else
    var before := schedule[..|schedule| - 1];
    ActionsOf(p, os, c, before) + TurnOf(RunOf(p, os, c, before), schedule[|schedule| - 1])
  }

  // ---- Instructions that access nothing that is shared ----

  lemma PlainKeeps(i: Insn, s: State, r: Reply)
    requires !i.Store? && !i.Call?
    ensures MemoryIn(Execute(i, s, r), s.mem) == s.mem
    ensures var st := Execute(i, s, r);
            st.Running? ==> st.s.regs.r10 == s.regs.r10 && (SetsR1(i) || st.s.regs.r1 == s.regs.r1)
  {
    hide AluResult, LoadValue, Compare;
  }

  predicate SetsR1(i: Insn) {
    match i
    case Alu(_, dst, _) => dst == 1
    case Load(_, dst, _, _) => dst == 1
    case LoadImm(dst, _) => dst == 1
    case LoadSym(dst, _, _) => dst == 1
    case _ => false
  }

  lemma SpillKeeps(i: Insn, s: State, r: Reply)
    requires i.Store? && i.base == FRAME && s.regs.r10 == Ptr(Stack, STACK_SIZE)
    ensures MemoryIn(Execute(i, s, r), s.mem) == s.mem
    ensures var st := Execute(i, s, r);
            st.Running? ==> st.s.regs == s.regs && st.s.pc == s.pc + 1
  {
    hide Bytes, Put;
  }

  lemma CallKeeps(i: Insn, s: State, r: Reply)
    requires i.Call? && !i.helper.MapUpdate? && (i.helper.Comm? || i.helper.ProbeRead? ==> s.regs.r1.Ptr? && s.regs.r1.region == Stack)
    ensures MemoryIn(Execute(i, s, r), s.mem) == s.mem
    ensures var st := Execute(i, s, r);
            st.Running? ==> st.s.regs.r10 == s.regs.r10 && st.s.pc == s.pc + 1
  {
    hide ReadVia, Conversions, ScalarArgs, Put, Fit;
  }

  lemma Goes(i: Insn, s: State, r: Reply)
    requires !i.Store? && !i.Call?
    ensures var st := Execute(i, s, r);
            st.Running? ==> st.s.pc == s.pc + (if i.LoadImm? || i.LoadSym? then 2 else 1)
                            || ((i.Jump? || i.JumpIf?) && st.s.pc == s.pc + 1 + i.joff)
    ensures var st := Execute(i, s, r); i.Jump? && st.Running? ==> st.s.pc == s.pc + 1 + i.joff
    ensures i.Second? ==> Execute(i, s, r).Error?
  {
    hide AluResult, LoadValue, Compare;
  }

  // ---- Slots 7 to 88: nothing that is shared is changed ----

  /** After the store: the helpers that fill a buffer are given one in the frame. */
  predicate Late(s: State) {
    var r1 := s.regs.r1;
    && s.pc >= 7 && s.regs.r10 == Ptr(Stack, STACK_SIZE)
    && match s.pc
       case 38 | 43 | 75 => r1 == Ptr(Stack, 512)
       case 39 | 40 | 41 | 44 | 45 | 47 => r1 == Ptr(Stack, 500)
       case 76 | 77 => r1 == Ptr(Stack, 484)
       case _ => true
  }

  predicate StaysLate(st: Status, mem: Memory) {
    MemoryIn(st, mem) == mem && (st.Running? ==> Late(st.s))
  }

  lemma BufferSteps(o: Oracle, s: State)
    requires Late(s) && s.pc in {37, 38, 42, 43, 74, 75}
    ensures StaysLate(Step(KPROBE_OBJECT, o, s), s.mem)
  {
    hide Progress.Valid, Step;
    var g := From(KPROBE_OBJECT, o, s);
    if s.pc in {37, 42, 74} {
      g := g.MovReg(1, 10);
    } else if s.pc == 75 {
      g := g.Move(1, -28, Stack, 512);
    } else {
      g := g.Move(1, -12, Stack, 512);
    }
    g.IsStep();
  }

  lemma OtherSteps(o: Oracle, s: State)
    requires Late(s) && s.pc < 89 && s.pc !in {37, 38, 42, 43, 74, 75}
    ensures StaysLate(Step(KPROBE_OBJECT, o, s), s.mem)
  {
    hide Execute, KprobeObjectAt;
    var i, r := KPROBE_OBJECT[s.pc], o(s.calls);
    OtherSlots(s.pc);
    if i.Store? {
      SpillKeeps(i, s, r);
    } else if i.Call? {
      CallKeeps(i, s, r);
    } else {
      PlainKeeps(i, s, r);
      Goes(i, s, r);
    }
  }

  /** What the other slots hold. */
  lemma OtherSlots(pc: nat)
    requires 7 <= pc < 89 && pc !in {37, 38, 42, 43, 74, 75}
    ensures var i := KprobeObjectAt(pc);
            && (i.Store? ==> i.base == FRAME)
            && (i.Call? ==> !i.helper.MapUpdate? && (i.helper.Comm? || i.helper.ProbeRead? ==> pc in {47, 77}))
            && (i.Store? || i.Call? ==> pc !in {39, 40, 41, 44, 45, 46, 76}) && (pc == 46 ==> i.Second?)
            && (pc in {39, 40, 41, 44, 45, 76} ==> !SetsR1(i))
            && (i.Jump? ==> pc == 41 && i.joff == 5) && (i.JumpIf? ==> pc + 1 + i.joff in {42, 74})
            && (i.LoadImm? || i.LoadSym? ==> pc in {25, 33, 45, 48, 52, 58, 70, 81, 83})
  {
  }

  lemma LateSteps(o: Oracle, s: State)
    requires Late(s)
    ensures StaysLate(Step(KPROBE_OBJECT, o, s), s.mem)
  {
    hide Step, Late, StaysLate;
    if s.pc >= 89 {
      PastTheEnd(o, s);
    } else if s.pc in {37, 38, 42, 43, 74, 75} {
      BufferSteps(o, s);
    } else {
      OtherSteps(o, s);
    }
  }

  lemma PastTheEnd(o: Oracle, s: State)
    requires s.pc >= 89
    ensures StaysLate(Step(KPROBE_OBJECT, o, s), s.mem)
  {
  }

  // ---- Slots 0 to 6: the increment ----

  function TaskOf(t: N.Sys, i: nat): Option<N.Task> {
    if i in t.tasks then Some(t.tasks[i]) else None
  }

  function Low(x: CInt): U32 {
    x % 0x1_0000_0000
  }

  /** A CPU that is in the program, and its increment. */
  predicate InStep(s: State, t: Option<N.Task>) {
    var r := s.regs;
    && r.r10 == Ptr(Stack, STACK_SIZE)
    && match t
       case None => (s.pc == 0 && r.r1 == Ptr(Ctx, 0)) || s.pc == 1 || (s.pc == 3 && r.r1 == Ptr(Data, 0))
       case Some(Loaded(v, _)) =>
         && r.r1 == Ptr(Data, 0)
         && ((s.pc == 4 && r.r2 == Scalar(Low(v))) || (s.pc == 5 && r.r3 == Scalar(Low(v))) || (s.pc == 6 && r.r3 == Scalar(Low(v) + 1)))
       case Some(Stored) => s.pc >= 7 && Late(s)
  }

  predicate Linked(st: Status, t: Option<N.Task>) {
    match st
    case Running(s) => InStep(s, t)
    case Exited(_, _) => t == Some(N.Stored)
    case Error => t.Some?
  }

  /** Memory with c in place. */
  predicate Holds(mem: Memory, c: CInt) {
    |mem.data| >= 4 && mem.data == P.IntBytes(c) + mem.data[4..]
  }

  predicate Keeps(st: Status, i: nat, mem: Memory, t: N.Sys)
    requires |mem.data| >= 4
  {
    Linked(st, TaskOf(t, i)) && MemoryIn(st, mem) == mem.(data := P.IntBytes(t.c) + mem.data[4..])
  }

  predicate Before(s: State, i: nat, t: N.Sys) {
    InStep(s, TaskOf(t, i)) && Holds(s.mem, t.c)
  }

  lemma AddressSteps(o: Oracle, s: State, i: nat, t: N.Sys)
    requires Before(s, i, t) && s.pc in {0, 1}
    ensures Keeps(Step(KPROBE_OBJECT, o, s), i, s.mem, t)
  {
    hide Progress.Valid, Step, P.IntBytes, Late;
    var g := From(KPROBE_OBJECT, o, s);
    if s.pc == 0 {
      g := g.MovReg(6, 1);
    } else {
      g := g.SymData(1, 0);
    }
    g.IsStep();
  }

  lemma LoadStep(o: Oracle, s: State, i: nat, t: N.Sys)
    requires Before(s, i, t) && s.pc == 3
    ensures Keeps(Step(KPROBE_OBJECT, o, s), i, s.mem, N.Step(t, N.Load(i)))
  {
    hide Progress.Valid, Step, LoadValue, Bytes, Late;
    R.LoadWord(s, Low(t.c));
    var g := From(KPROBE_OBJECT, o, s);
    g := g.Fetch(W, 2, 1, 0, Scalar(Low(t.c)));
    g.IsStep();
  }

  lemma AddSteps(o: Oracle, s: State, i: nat, t: N.Sys)
    requires Before(s, i, t) && s.pc in {4, 5}
    ensures Keeps(Step(KPROBE_OBJECT, o, s), i, s.mem, t)
  {
    hide Progress.Valid, Step, P.IntBytes, Late;
    var g := From(KPROBE_OBJECT, o, s);
    if s.pc == 4 {
      g := g.MovReg(3, 2);
    } else {
      g := g.Calc(Add, 3, Imm(1), Scalar(Low(t.tasks[i].value) + 1));
    }
    g.IsStep();
  }

  /** The store of four bytes is the conversion of the sum to int. */
  lemma Sum(v: CInt) returns (c: CInt)
    ensures c == C.ToInt(v + 1) && Bytes(Low(v) + 1, 4) == P.IntBytes(c) && |P.IntBytes(c)| == 4
  {
    hide Bytes, C.ToInt;
    c := C.ToInt(v + 1);
    P.StoredInt(Low(v) + 1);
    P.NextInt(v);
  }

  lemma StoreStep(o: Oracle, s: State, i: nat, t: N.Sys)
    requires Before(s, i, t) && s.pc == 6
    ensures Keeps(Step(KPROBE_OBJECT, o, s), i, s.mem, N.Step(t, N.Store(i)))
  {
    hide Progress.Valid, Step, P.IntBytes, Bytes, C.ToInt;
    var v := t.tasks[i].value;
    var c := Sum(v);
    var data := P.IntBytes(c) + s.mem.data[4..];
    assert data == Splice(s.mem.data, 0, Bytes(Low(v) + 1, 4));
    hide Splice;
    var g := From(KPROBE_OBJECT, o, s);
    g := g.Assign(W, 1, 0, 3, Low(v) + 1, data);
    g.IsStep();
  }

  function After(t: N.Sys, acts: seq<N.Access>): N.Sys {
    if acts == [] then t else N.Step(t, acts[0])
  }

  lemma OneInstruction(o: Oracle, s: State, i: nat, t: N.Sys)
    requires Before(s, i, t)
    ensures Keeps(Step(KPROBE_OBJECT, o, s), i, s.mem, After(t, ActionOf(s, i)))
  {
    hide Step, N.Step, Late, P.IntBytes;
    if s.pc in {0, 1} { AddressSteps(o, s, i, t); }
    else if s.pc == 3 { LoadStep(o, s, i, t); }
    else if s.pc in {4, 5} { AddSteps(o, s, i, t); }
    else if s.pc == 6 { StoreStep(o, s, i, t); }
    else {
      LateSteps(o, s);
      hide StaysLate;
      LateKeeps(Step(KPROBE_OBJECT, o, s), s, i, t);
    }
  }

  lemma LateKeeps(st: Status, s: State, i: nat, t: N.Sys)
    requires Before(s, i, t) && s.pc > 6 && StaysLate(st, s.mem)
    ensures Keeps(st, i, s.mem, t) && ActionOf(s, i) == []
  {
    hide P.IntBytes;
  }

  // ---- All CPUs ----

  predicate CpuOk(c: Cpus, t: N.Sys, i: nat) {
    if i in c.at then Linked(c.at[i], TaskOf(t, i)) else i !in t.tasks
  }

  ghost predicate Together(c: Cpus, t: N.Sys) {
    Holds(c.mem, t.c) && forall i: nat :: CpuOk(c, t, i)
  }

  lemma MemoryAside(s: State, mem: Memory, i: nat, t: N.Sys)
    ensures ActionOf(s.(mem := mem), i) == ActionOf(s, i)
    ensures Linked(Running(s), TaskOf(t, i)) && Holds(mem, t.c) ==> Before(s.(mem := mem), i, t)
  {
    hide P.IntBytes;
  }

  lemma Entered(mem: Memory)
    ensures Linked(Running(Entry(mem)), None)
  {
  }

  lemma OtherTasks(t: N.Sys, s: State, i: nat, j: nat)
    requires i != j
    ensures TaskOf(After(t, ActionOf(s, i)), j) == TaskOf(t, j)
  {
    hide C.ToInt;
  }

  lemma Spliced(mem: Memory, c: CInt, mem': Memory)
    requires |mem.data| >= 4 && mem' == mem.(data := P.IntBytes(c) + mem.data[4..])
    ensures Holds(mem', c) && mem'.data[4..] == mem.data[4..]
  {
    hide Bytes;
  }

  lemma Turn(os: nat -> Oracle, c: Cpus, i: nat, t: N.Sys)
    requires Together(c, t)
    ensures var c', t' := StepOf(KPROBE_OBJECT, os, c, i), After(t, TurnOf(c, i));
            && Together(c', t') && |c.mem.data| >= 4
            && c'.mem == c.mem.(data := P.IntBytes(t'.c) + c.mem.data[4..])
  {
    hide Step, N.Step, Linked, InStep, ActionOf, Entry, P.IntBytes;
    assert CpuOk(c, t, i);
    var c', t' := StepOf(KPROBE_OBJECT, os, c, i), After(t, TurnOf(c, i));
    if i !in c.at {
      Entered(c.mem);
    } else if c.at[i].Running? {
      var s := c.at[i].s.(mem := c.mem);
      MemoryAside(c.at[i].s, c.mem, i, t);
      OneInstruction(os(i), s, i, t);
      Spliced(c.mem, t'.c, c'.mem);
    }
    forall j: nat ensures CpuOk(c', t', j) {
      assert CpuOk(c, t, j);
      if j != i && i in c.at && c.at[i].Running? { OtherTasks(t, c.at[i].s, i, j); }
    }
  }

  lemma RunAfter(c: CInt, acts: seq<N.Access>, s: State, i: nat)
    ensures N.Run(N.Start(c), acts + ActionOf(s, i)) == After(N.Run(N.Start(c), acts), ActionOf(s, i))
    ensures |ActionOf(s, i)| <= 1
  {
    hide N.Step, N.Run;
    var more := ActionOf(s, i);
    if more == [] {
      assert acts + more == acts;
    } else {
      N.RunAppend(N.Start(c), acts, more[0]);
      assert more == [more[0]];
    }
  }

  lemma {:induction false} CopiesTogether(os: nat -> Oracle, mem: Memory, c0: CInt, schedule: seq<nat>)
    requires Holds(mem, c0)
    ensures var c := RunOf(KPROBE_OBJECT, os, Idle(mem), schedule);
            var acts := ActionsOf(KPROBE_OBJECT, os, Idle(mem), schedule);
            var t := N.Run(N.Start(c0), acts);
            Together(c, t) && c.mem == mem.(data := P.IntBytes(t.c) + mem.data[4..]) && |acts| <= |schedule|
    decreases |schedule|
  {
    hide StepOf, N.Step, CpuOk, ActionOf, P.IntBytes;
    if schedule != [] {
      var before, i := schedule[..|schedule| - 1], schedule[|schedule| - 1];
      CopiesTogether(os, mem, c0, before);
      var c, acts := RunOf(KPROBE_OBJECT, os, Idle(mem), before), ActionsOf(KPROBE_OBJECT, os, Idle(mem), before);
      var t := N.Run(N.Start(c0), acts);
      Spliced(mem, t.c, c.mem);
      hide Together, Holds;
      Turn(os, c, i, t);
      if i in c.at && c.at[i].Running? {
        RunAfter(c0, acts, c.at[i].s, i);
      } else {
        assert acts + [] == acts;
      }
    } else {
      NobodyYet(mem, c0);
    }
  }

  lemma NobodyYet(mem: Memory, c: CInt)
    requires Holds(mem, c)
    ensures Together(Idle(mem), N.Start(c)) && mem == mem.(data := P.IntBytes(c) + mem.data[4..])
  {
    hide P.IntBytes;
  }

  /** Whatever the schedule: of memory only c changes, by the loads and stores of the increments.
      Below the wrap-around, k completed stores increase it by at least 1 and at most k, and by
      exactly k if and only if none of them was stale. */
  lemma CopiesCount(os: nat -> Oracle, mem: Memory, c0: CInt, schedule: seq<nat>)
    requires |mem.data| >= 4 && mem.data[..4] == P.IntBytes(c0)
    ensures var c := RunOf(KPROBE_OBJECT, os, Idle(mem), schedule);
            var acts := ActionsOf(KPROBE_OBJECT, os, Idle(mem), schedule);
            var t := N.Run(N.Start(c0), acts);
            && c.mem == mem.(data := P.IntBytes(t.c) + mem.data[4..])
            && (c0 + |schedule| < 0x8000_0000 ==>
                  && c0 + (if t.stores > 0 then 1 else 0) <= t.c <= c0 + t.stores
                  && (t.c == c0 + t.stores <==> !N.AnyStale(c0, acts)))
  {
    hide RunOf, ActionsOf, N.Run, N.AnyStale, P.IntBytes, Together;
    assert mem.data == mem.data[..4] + mem.data[4..];
    CopiesTogether(os, mem, c0, schedule);
    var acts := ActionsOf(KPROBE_OBJECT, os, Idle(mem), schedule);
    if c0 + |schedule| < 0x8000_0000 { N.Increase(c0, acts); }
  }
}
