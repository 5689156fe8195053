/**
 Verified programs among themselves: no assumption is left about what other CPUs do to
 memory, since the other CPUs run the same program.
 */
module CopiesVerified {
  import Word
  import opened Isa
  import opened Machine
  import opened Abstract
  import opened Checker
  import opened Verifier
  import opened Copies

  // ---- What any instruction does to memory ----

  lemma WriteEvolves(mem: Memory, stack: Frame, region: Region, off: int, t: seq<Word.Byte>)
    requires MemoryOk(mem)
    ensures var w := WriteBytes(mem, stack, region, off, t); w.Some? ==> Evolves(mem, w.value.0)
  {
  }

  lemma UpdateKeeps(s: State, r: Reply)
    requires MemoryOk(s.mem)
    ensures Evolves(s.mem, MemoryIn(Update(s, r), s.mem))
  {
    hide ReadBytes, Accepts;
  }

  lemma FillKeeps(s: State, r: Reply, content: seq<Word.Byte>)
    requires MemoryOk(s.mem)
    ensures Evolves(s.mem, MemoryIn(Fill(s, r, content), s.mem))
  {
    hide WriteBytes;
    if s.regs.r1.Ptr? { WriteEvolves(s.mem, s.stack, s.regs.r1.region, s.regs.r1.off, content); }
  }

  lemma CallKeeps(h: Helper, s: State, r: Reply)
    requires MemoryOk(s.mem)
    ensures Evolves(s.mem, MemoryIn(CallHelper(h, s, r), s.mem))
  {
    hide ReadVia, Fill, Update, Conversions, Evolves, Word.Fit, ScalarArgs;
    SameEvolves(Loaded(|s.mem.data|, s.mem.rodata), s.mem);
    match h
    case MapUpdate => UpdateKeeps(s, r);
    case Comm => if s.regs.r2.Scalar? { FillKeeps(s, r, Word.Fit(r.bytes, s.regs.r2.n)); }
    case ProbeRead =>
      if s.regs.r2.Scalar? {
        var src := ReadVia(s, s.regs.r3, s.regs.r2.n);
        FillKeeps(s, r, if src.Some? && !r.refuse then src.value else Word.Fit(r.bytes, s.regs.r2.n));
      }
    case _ =>
  }

  /** No instruction of any program does to memory what others may not do. */
  lemma StepEvolves(p: Program, o: Oracle, s: State)
    requires MemoryOk(s.mem)
    ensures Evolves(s.mem, MemoryIn(Step(p, o, s), s.mem))
  {
    hide CallHelper, AluResult, LoadValue, Compare, WriteBytes;
    if 0 <= s.pc < |p| {
      var i := p[s.pc];
      if i.Call? {
        CallKeeps(i.helper, s, o(s.calls));
      } else if i.Store? && s.regs.Get(i.base).Ptr? && s.regs.Get(i.val).Scalar? {
        WriteEvolves(s.mem, s.stack, s.regs.Get(i.base).region, s.regs.Get(i.base).off + i.off,
                     Word.Bytes(s.regs.Get(i.val).n, i.size.Bytes()));
      }
    }
  }

  // ---- All copies ----

  /** CPU i has ended, or is in a state that an entry describes with room for its turns above it. */
  ghost predicate CpuSafe(ld: Loaded, log: seq<Saved>, c: Cpus, i: nat, turns: nat) {
    if i !in c.at then turns == 0
    else match c.at[i]
         case Running(s) => exists j: nat :: j < |log| && j + turns <= |log| && Describes(ld, log[j], s.(mem := c.mem))
         case Exited(_, _) => true
         case Error => false
  }

  lemma EnterSafe(ld: Loaded, p: Program, log: seq<Saved>, c: Cpus, i: nat)
    requires Certified(ld, p, log) && LoadedAs(ld, c.mem) && i !in c.at
    ensures CpuSafe(ld, log, c.(at := c.at[i := Running(Entry(c.mem))]), i, 1)
  {
    hide Entry, Describes, Includes, EntryOk, LoadedAs;
    var j :| 0 <= j < |log| && Includes(log[j], ENTRY);
    EntryDescribed(ld, c.mem);
    IncludesDescribes(ld, log[j], ENTRY, Entry(c.mem));
    SameMemory(Entry(c.mem), c.mem);
  }

  lemma SameMemory(s: State, mem: Memory)
    ensures s.mem == mem ==> s.(mem := mem) == s
    ensures Entry(mem).mem == mem
  {
  }

  /** The turn of a running CPU. */
  lemma OwnTurn(ld: Loaded, p: Program, log: seq<Saved>, os: nat -> Oracle, c: Cpus, i: nat, turns: nat)
    requires Certified(ld, p, log) && i in c.at && c.at[i].Running? && CpuSafe(ld, log, c, i, turns)
    ensures CpuSafe(ld, log, StepOf(p, os, c, i), i, turns + 1)
  {
    hide Step, Describes, EntryOk, Covered;
    var s := c.at[i].s.(mem := c.mem);
    var j: nat :| j < |log| && j + turns <= |log| && Describes(ld, log[j], s);
    var k := StepBack(ld, p, log, j, s, os(i));
    var st := Step(p, os(i), s);
    if st.Running? { SameMemory(st.s, st.s.mem); }
  }

  lemma OtherTurn(ld: Loaded, log: seq<Saved>, c: Cpus, c': Cpus, j: nat, turns: nat)
    requires CpuSafe(ld, log, c, j, turns) && Evolves(c.mem, c'.mem)
    requires if j in c.at then j in c'.at && c'.at[j] == c.at[j] else j !in c'.at
    ensures CpuSafe(ld, log, c', j, turns)
  {
    hide Describes, Evolves;
    if j in c.at && c.at[j].Running? {
      var k: nat :| k < |log| && k + turns <= |log| && Describes(ld, log[k], c.at[j].s.(mem := c.mem));
      StillDescribes(ld, log[k], c.at[j].s.(mem := c.mem), c'.mem);
    }
  }

  lemma MemoryMoves(p: Program, os: nat -> Oracle, c: Cpus, i: nat)
    requires MemoryOk(c.mem)
    ensures Evolves(c.mem, StepOf(p, os, c, i).mem)
  {
    hide Step;
    SameEvolves(Loaded(|c.mem.data|, c.mem.rodata), c.mem);
    if i in c.at && c.at[i].Running? { StepEvolves(p, os(i), c.at[i].s.(mem := c.mem)); }
  }

  lemma StillLoaded(ld: Loaded, mem: Memory, mem': Memory)
    requires LoadedAs(ld, mem) && Evolves(mem, mem')
    ensures LoadedAs(ld, mem')
  {
  }

  lemma OneTurn(ld: Loaded, p: Program, log: seq<Saved>, os: nat -> Oracle, c: Cpus, i: nat, j: nat, turns: nat)
    requires Certified(ld, p, log) && LoadedAs(ld, c.mem) && CpuSafe(ld, log, c, j, turns)
    ensures CpuSafe(ld, log, StepOf(p, os, c, i), j, turns + if i == j then 1 else 0)
  {
    hide Certified, Evolves, Step, Describes, Entry;
    if i == j {
      if i !in c.at {
        EnterSafe(ld, p, log, c, i);
      } else if c.at[i].Running? {
        OwnTurn(ld, p, log, os, c, i, turns);
      }
    } else {
      MemoryMoves(p, os, c, i);
      OtherTurn(ld, log, c, StepOf(p, os, c, i), j, turns);
    }
  }

  lemma {:induction false} AllSafe(ld: Loaded, p: Program, log: seq<Saved>, os: nat -> Oracle, mem: Memory, schedule: seq<nat>, j: nat)
    requires Certified(ld, p, log) && LoadedAs(ld, mem)
    ensures var c := RunOf(p, os, Idle(mem), schedule);
            LoadedAs(ld, c.mem) && CpuSafe(ld, log, c, j, multiset(schedule)[j])
    decreases |schedule|
  {
    hide Certified, LoadedAs, StepOf, Evolves;
    if schedule != [] {
      var before: seq<nat>, i := schedule[..|schedule| - 1], schedule[|schedule| - 1];
      assert schedule == before + [i];
      AllSafe(ld, p, log, os, mem, before, j);
      hide CpuSafe;
      var c := RunOf(p, os, Idle(mem), before);
      var turns: nat := multiset(before)[j];
      OneTurn(ld, p, log, os, c, i, j, turns);
      assert MemoryOk(c.mem) by { LoadedOk(ld, c.mem); }
      MemoryMoves(p, os, c, i);
      StillLoaded(ld, c.mem, StepOf(p, os, c, i).mem);
    }
  }

  lemma LoadedOk(ld: Loaded, mem: Memory)
    requires LoadedAs(ld, mem)
    ensures MemoryOk(mem)
  {
  }

  /** Any number of CPUs run a verified program on shared memory, interleaved at every
      instruction: none ever faults, and each that the schedule names more often than the
      record has entries has ended. */
  lemma CopiesSafe(ld: Loaded, p: Program, log: seq<Saved>, os: nat -> Oracle, mem: Memory, schedule: seq<nat>, i: nat)
    requires Certified(ld, p, log) && LoadedAs(ld, mem)
    ensures var c := RunOf(p, os, Idle(mem), schedule);
            && (i in c.at ==> !c.at[i].Error?)
            && (multiset(schedule)[i] > |log| ==> i in c.at && c.at[i].Exited?)
  {
    hide Certified, LoadedAs, RunOf, Describes;
    AllSafe(ld, p, log, os, mem, schedule, i);
  }

  /** The same for every program that the walk accepts. */
  lemma AcceptedCopiesSafe(ld: Loaded, p: Program, limit: nat, os: nat -> Oracle, mem: Memory, schedule: seq<nat>, i: nat)
    requires Walk(ld, p, [Visit(ENTRY)], [], 0, limit).Accepted? && LoadedAs(ld, mem)
    ensures var c := RunOf(p, os, Idle(mem), schedule);
            && (i in c.at ==> !c.at[i].Error?)
            && (multiset(schedule)[i] > limit ==> i in c.at && c.at[i].Exited?)
  {
    WalkFromEntry(ld, p, limit);
    hide Walk, Certified, LoadedAs, RunOf;
    CopiesSafe(ld, p, Walk(ld, p, [Visit(ENTRY)], [], 0, limit).log, os, mem, schedule, i);
  }
}
