/** Runs of kprobe_exec one after another, from the state in which it is loaded. */
module KprobeRuns {
  import opened Word
  import I = Isa
  import M = Machine
  import opened Behaviours
  import opened KprobeC
  import P = KprobeProof
  import KprobeListing

  /** The globals after n runs: only c changes. */
  function AfterRuns(g: Globals, n: nat): Globals {
    if n == 0 then g else var h := AfterRuns(g, n - 1); h.(c := NextC(h))
  }

  lemma {:induction false} OnlyCounterChanges(g: Globals, n: nat)
    ensures AfterRuns(g, n) == g.(c := AfterRuns(g, n).c)
    ensures GlobalsOk(g) ==> GlobalsOk(AfterRuns(g, n))
    decreases n
  {
    hide ToInt;
    if n > 0 { OnlyCounterChanges(g, n - 1); }
  }

  /** From c = 1, the counter is n + 1 after n runs, wrapped to an int. */
  lemma {:induction false} CounterAfter(g: Globals, n: nat)
    requires g.c == 1
    ensures AfterRuns(g, n).c == ToInt(n + 1)
    decreases n
  {
    if n > 0 {
      CounterAfter(g, n - 1);
      IncrementWraps(n);
    }
  }

  lemma IncrementWraps(n: nat)
    ensures ToInt(ToInt(n) + 1) == ToInt(n + 1)
  {
    var q := n / 0x1_0000_0000;
    var r := n % 0x1_0000_0000;
    assert n == 0x1_0000_0000 * q + r;
    if r == 0xFFFF_FFFF {
      DivModUnique(n + 1, 0x1_0000_0000, q + 1, 0);
    } else {
      DivModUnique(n + 1, 0x1_0000_0000, q, r + 1);
    }
  }

  /** The events of n runs, each with its own helper answers. */
  function History(g: Globals, os: nat -> M.Oracle, n: nat): seq<CEvent>
    requires GlobalsOk(g)
  {
    if n == 0 then [] else
    OnlyCounterChanges(g, n - 1);
    History(g, os, n - 1) + EventsOf(AfterRuns(g, n - 1), os(n - 1))
  }

  method ExecMany(p: KprobeProgram, os: nat -> M.Oracle, n: nat)
    requires GlobalsOk(p.State())
    modifies p
    ensures p.State() == AfterRuns(old(p.State()), n)
    ensures p.events == old(p.events) + History(old(p.State()), os, n)
  {
    hide EventsOf, NextC;
    for i := 0 to n
      invariant p.State() == AfterRuns(old(p.State()), i)
      invariant p.events == old(p.events) + History(old(p.State()), os, i)
    {
      OnlyCounterChanges(old(p.State()), i);
      var ret := p.KprobeExec(os(i));
    }
  }

  lemma SizeOfIndex(n: nat)
    ensures ToSize(ToInt(n)) < 12 <==> n % 0x1_0000_0000 <= 11
    ensures n % 0x1_0000_0000 <= 11 ==> ToInt(n) == n % 0x1_0000_0000
  {
    IndexRange(ToInt(n));
  }

  /** The k-th run, from c = 1: its event carries k, and the characters are printed exactly if
      k + 1, as an unsigned 32-bit number, is at most 11; then the first of them is the
      global message's at that place. */
  lemma KthRun(g: Globals, o: M.Oracle, k: nat)
    requires g.c == 1 && GlobalsOk(g) && k > 0
    ensures var h, at := AfterRuns(g, k - 1), (k + 1) % 0x1_0000_0000;
            && GlobalsOk(h) && EventOf(h, o).counter == ToInt(k)
            && (at > 11 ==> Characters(h, o) == [])
            && (at <= 11 ==> Characters(h, o) == [PrintChar(ToChar(g.message[at])), PrintChar(ToChar(MessageOf(h, o)[at]))])
  {
    hide ToInt, ToSize, ToChar, Bits64, Probed, Fit;
    OnlyCounterChanges(g, k - 1);
    CounterAfter(g, k - 1);
    IncrementWraps(k);
    SizeOfIndex(k + 1);
  }

  /** So the first ten runs print, and then none until c wraps around. */
  lemma FirstRuns(g: Globals, o: M.Oracle, k: nat)
    requires g.c == 1 && GlobalsOk(g) && 0 < k < 0xFFFF_FFFF
    ensures GlobalsOk(AfterRuns(g, k - 1))
    ensures Characters(AfterRuns(g, k - 1), o) != [] <==> k <= 10
  {
    hide Characters, AfterRuns;
    KthRun(g, o, k);
  }

  /** Memory before run n + 1, when the program was loaded into mem with the globals g. */
  function MemoryAfter(mem: M.Memory, g: Globals, n: nat): M.Memory {
    mem.(data := P.IntBytes(AfterRuns(g, n).c) + g.message)
  }

  /** One run of the object code, on memory that represents the globals. */
  lemma MachineRun(mem: M.Memory, g: Globals, o: M.Oracle, n: nat)
    requires P.Represents(mem, g)
    ensures GlobalsOk(AfterRuns(g, n)) && P.Represents(MemoryAfter(mem, g, n), AfterRuns(g, n))
    ensures BehaviourOf(KprobeListing.KPROBE_OBJECT, o, MemoryAfter(mem, g, n)) ==
            Returns(0, MemoryAfter(mem, g, n + 1), P.ShownAll(EventsOf(AfterRuns(g, n), o)))
  {
    hide P.IntBytes, P.ShownAll, EventsOf, NextC, P.StoredConfig, BehaviourOf;
    OnlyCounterChanges(g, n);
    OnlyCounterChanges(g, n + 1);
    P.Behaves(AfterRuns(g, n), MemoryAfter(mem, g, n), o);
  }

  /** Memory and trace after n runs of p, each on the memory that the one before it has left;
      nothing if one of them does not return 0. */
  ghost function Repeated(p: I.Program, os: nat -> M.Oracle, mem: M.Memory, n: nat): M.Option<(M.Memory, seq<M.Event>)> {
    if n == 0 then M.Some((mem, [])) else
    var before := Repeated(p, os, mem, n - 1);
    if before.None? then M.None else
    match BehaviourOf(p, os(n - 1), before.value.0)
    case Returns(0, after, trace) => M.Some((after, before.value.1 + trace))
    case _ => M.None
  }

  /** The object code, run n times on the memory that it leaves, goes through the same
      states and shows the same events as the C function. */
  lemma {:induction false} MachineRuns(mem: M.Memory, g: Globals, os: nat -> M.Oracle, n: nat)
    requires P.Represents(mem, g)
    ensures GlobalsOk(g)
    ensures Repeated(KprobeListing.KPROBE_OBJECT, os, mem, n) == M.Some((MemoryAfter(mem, g, n), P.ShownAll(History(g, os, n))))
    decreases n
  {
    hide P.IntBytes, P.ShownAll, P.StoredConfig, EventsOf, NextC, BehaviourOf;
    if n == 0 {
      assert P.ShownAll([]) == [];
    } else {
      MachineRuns(mem, g, os, n - 1);
      MachineRun(mem, g, os(n - 1), n - 1);
      P.ShownAppend(History(g, os, n - 1), EventsOf(AfterRuns(g, n - 1), os(n - 1)));
    }
  }
}
