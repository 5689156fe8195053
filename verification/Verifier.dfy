/**
 The verifier: a depth-first walk over all paths with a stack of saved states and a
 limit on the instructions processed. What it accepts cannot fault, even if
 other CPUs change memory between any two instructions, and always ends.
 */
module Verifier {
  import opened Isa
  import opened Machine
  import opened Abstract
  import opened Checker

  // ---- Runs among other CPUs ----

  /** What others have done to memory before step k. */
  type Others = (nat, Memory) -> Memory

  ghost predicate Lawful(others: Others) {
    forall k: nat, mem: Memory {:trigger others(k, mem)} :: MemoryOk(mem) ==> Evolves(mem, others(k, mem))
  }

  /** n steps, with memory changed before each. */
  function RunAmong(p: Program, o: Oracle, others: Others, st: Status, k: nat, n: nat): Status
    decreases n, k
  {
    if n == 0 || !st.Running? then st
    else RunAmong(p, o, others, Step(p, o, st.s.(mem := others(k, st.s.mem))), k + 1, n - 1)
  }

  lemma {:induction false} EndedAmong(p: Program, o: Oracle, others: Others, st: Status, k: nat, n: nat)
    requires !st.Running?
    ensures RunAmong(p, o, others, st, k, n) == st
  {
  }

  /** Without others, this is an ordinary run. */
  lemma {:induction false} RunAlone(p: Program, o: Oracle, st: Status, k: nat, n: nat)
    ensures RunAmong(p, o, (i, mem) => mem, st, k, n) == Run(p, o, st, n)
    decreases n
  {
    if n > 0 && st.Running? {
      assert st.s.(mem := st.s.mem) == st.s;
      RunAlone(p, o, Step(p, o, st.s), k + 1, n - 1);
    }
  }

  // ---- The record of a verification ----

  /** The state t has been dealt with by one of the first n entries. */
  predicate Covered(log: seq<Saved>, n: nat, t: Saved) {
    exists j :: 0 <= j < n <= |log| && Includes(log[j], t)
  }

  /** The check of entry i passes, and all that may follow it was dealt with before. */
  predicate EntryOk(ld: Loaded, p: Program, log: seq<Saved>, i: nat)
    requires i < |log|
  {
    var next := CheckAt(ld, p, log[i]);
    next.Some? && forall k :: 0 <= k < |next.value| ==> Covered(log, i, next.value[k])
  }

  predicate Certified(ld: Loaded, p: Program, log: seq<Saved>) {
    && Covered(log, |log|, ENTRY)
    && forall i: nat :: i < |log| ==> EntryOk(ld, p, log, i)
  }

  /** A step from a state of entry i ends the program or leads to a state of an earlier entry. */
  lemma StepBack(ld: Loaded, p: Program, log: seq<Saved>, i: nat, s: State, o: Oracle) returns (c: nat)
    requires i < |log| && EntryOk(ld, p, log, i) && Describes(ld, log[i], s)
    ensures var st := Step(p, o, s);
            st.Exited? || (st.Running? && c < i && Describes(ld, log[c], st.s))
  {
    DescribesPc(ld, log[i], s);
    hide Describes, Check, Execute, Includes;
    CheckSound(ld, p[s.pc], log[i], s, o(s.calls));
    var next, st := CheckAt(ld, p, log[i]).value, Step(p, o, s);
    if st.Running? {
      var j :| 0 <= j < |next| && Describes(ld, next[j], st.s);
      assert Covered(log, i, next[j]);
      c :| 0 <= c < i && Includes(log[c], next[j]);
      IncludesDescribes(ld, log[c], next[j], st.s);
    } else {
      c := 0;
    }
  }

  lemma FirstStep(p: Program, o: Oracle, others: Others, s: State, k: nat, n: nat)
    ensures RunAmong(p, o, others, Running(s), k, n + 1) == RunAmong(p, o, others, Step(p, o, s.(mem := others(k, s.mem))), k + 1, n)
  {
    hide Step;
  }

  lemma Undisturbed(ld: Loaded, a: Saved, s: State, others: Others, k: nat)
    requires Describes(ld, a, s) && Lawful(others)
    ensures Describes(ld, a, s.(mem := others(k, s.mem)))
  {
    assert Evolves(s.mem, others(k, s.mem));
    hide Evolves, AllFit, Lawful;
    StillDescribes(ld, a, s, others(k, s.mem));
  }

  /** Entries only refer back, so a run that starts at entry i ends within i + 1 steps. */
  lemma {:induction false} EntrySafe(ld: Loaded, p: Program, log: seq<Saved>, i: nat, s: State, o: Oracle, others: Others, k: nat)
    requires Certified(ld, p, log) && i < |log| && Describes(ld, log[i], s) && Lawful(others)
    ensures RunAmong(p, o, others, Running(s), k, i + 1).Exited?
    decreases i
  {
    hide Describes, Step, Lawful, Evolves, EntryOk, RunAmong, Covered;
    var t := s.(mem := others(k, s.mem));
    Undisturbed(ld, log[i], s, others, k);
    FirstStep(p, o, others, s, k, i);
    var c := StepBack(ld, p, log, i, t, o);
    var st := Step(p, o, t);
    if st.Running? {
      EntrySafe(ld, p, log, c, st.s, o, others, k + 1);
      LongerAmong(p, o, others, st, k + 1, c + 1, i);
    } else {
      EndedAmong(p, o, others, st, k + 1, i);
    }
  }

  lemma DescribesPc(ld: Loaded, a: Saved, s: State)
    requires Describes(ld, a, s)
    ensures a.pc == s.pc
  {
  }

  lemma {:induction false} LongerAmong(p: Program, o: Oracle, others: Others, st: Status, k: nat, m: nat, n: nat)
    requires m <= n && RunAmong(p, o, others, st, k, m).Exited?
    ensures RunAmong(p, o, others, st, k, n) == RunAmong(p, o, others, st, k, m)
    decreases m
  {
    if m > 0 && st.Running? {
      LongerAmong(p, o, others, Step(p, o, st.s.(mem := others(k, st.s.mem))), k + 1, m - 1, n - 1);
    } else {
      EndedAmong(p, o, others, st, k, n);
    }
  }

  /** Soundness: a verified program faults in no run, whatever helpers answer and other
      CPUs do, and every run ends within as many steps as the record has entries. */
  lemma VerifiedIsSafe(ld: Loaded, p: Program, log: seq<Saved>, mem: Memory, o: Oracle, others: Others, n: nat)
    requires Certified(ld, p, log) && LoadedAs(ld, mem) && Lawful(others)
    ensures RunAmong(p, o, others, Running(Entry(mem)), 0, |log|).Exited?
    ensures !RunAmong(p, o, others, Running(Entry(mem)), 0, n).Error?
  {
    hide Lawful, Includes, Describes, Step, Entry, RunAmong, EntryOk, LoadedAs;
    var i :| 0 <= i < |log| && Includes(log[i], ENTRY);
    hide Certified;
    EntryDescribed(ld, mem);
    IncludesDescribes(ld, log[i], ENTRY, Entry(mem));
    EntrySafe(ld, p, log, i, Entry(mem), o, others, 0);
    LongerAmong(p, o, others, Running(Entry(mem)), 0, i + 1, |log|);
    if RunAmong(p, o, others, Running(Entry(mem)), 0, n).Error? {
      NoEarlyError(p, o, others, Running(Entry(mem)), 0, i + 1, n);
      assert false;
    }
  }

  /** A run that exits has not faulted before and does not fault later. */
  lemma {:induction false} NoEarlyError(p: Program, o: Oracle, others: Others, st: Status, k: nat, m: nat, n: nat)
    requires RunAmong(p, o, others, st, k, m).Exited?
    ensures !RunAmong(p, o, others, st, k, n).Error?
    decreases n
  {
    if m > 0 && n > 0 && st.Running? {
      NoEarlyError(p, o, others, Step(p, o, st.s.(mem := others(k, st.s.mem))), k + 1, m - 1, n - 1);
    }
  }

  /** Every state of every run is described by some entry of the record. */
  lemma {:induction false} StateDescribed(ld: Loaded, p: Program, log: seq<Saved>, i: nat, s: State, o: Oracle, others: Others, k: nat, n: nat)
    returns (j: nat)
    requires Certified(ld, p, log) && i < |log| && Describes(ld, log[i], s) && Lawful(others)
    ensures var st := RunAmong(p, o, others, Running(s), k, n);
            st.Running? ==> j < |log| && Describes(ld, log[j], st.s)
    decreases n
  {
    hide Describes, Step, Lawful, Evolves, EntryOk, RunAmong, Covered;
    if n == 0 {
      j := i;
      NoSteps(p, o, others, Running(s), k);
    } else {
      var t := s.(mem := others(k, s.mem));
      Undisturbed(ld, log[i], s, others, k);
      FirstStep(p, o, others, s, k, n - 1);
      var c := StepBack(ld, p, log, i, t, o);
      var st := Step(p, o, t);
      if st.Running? {
        j := StateDescribed(ld, p, log, c, st.s, o, others, k + 1, n - 1);
      } else {
        EndedAmong(p, o, others, st, k + 1, n - 1);
        j := 0;
      }
    }
  }

  lemma NoSteps(p: Program, o: Oracle, others: Others, st: Status, k: nat)
    ensures RunAmong(p, o, others, st, k, 0) == st
  {
  }

  /** The same, from the entry of the program on. */
  lemma RunDescribed(ld: Loaded, p: Program, log: seq<Saved>, mem: Memory, o: Oracle, others: Others, n: nat) returns (j: nat)
    requires Certified(ld, p, log) && LoadedAs(ld, mem) && Lawful(others)
    ensures var st := RunAmong(p, o, others, Running(Entry(mem)), 0, n);
            st.Running? ==> j < |log| && Describes(ld, log[j], st.s)
  {
    var i :| 0 <= i < |log| && Includes(log[i], ENTRY);
    hide Certified, Lawful, Includes, Describes, Step, Entry, RunAmong, LoadedAs;
    EntryDescribed(ld, mem);
    IncludesDescribes(ld, log[i], ENTRY, Entry(mem));
    j := StateDescribed(ld, p, log, i, Entry(mem), o, others, 0, n);
  }

  /** The same for a run on its own. */
  lemma VerifiedRuns(ld: Loaded, p: Program, log: seq<Saved>, mem: Memory, o: Oracle, n: nat)
    requires Certified(ld, p, log) && LoadedAs(ld, mem)
    ensures Run(p, o, Running(Entry(mem)), |log|).Exited? && !Run(p, o, Running(Entry(mem)), n).Error?
  {
    NoOthers();
    VerifiedIsSafe(ld, p, log, mem, o, (i, m) => m, n);
    hide Lawful, Certified, Entry, Step, LoadedAs;
    RunAlone(p, o, Running(Entry(mem)), 0, |log|);
    RunAlone(p, o, Running(Entry(mem)), 0, n);
  }

  lemma NoOthers()
    ensures Lawful((i, mem) => mem)
  {
  }

  // ---- The walk ----

  /** A state still to be looked at, or one whose successors are above it on the stack. */
  datatype Task = Visit(a: Saved) | Retire(a: Saved)

  datatype Outcome = Accepted(log: seq<Saved>) | Refused(at: Saved) | TooLong

  /** Steps of the walk from state to state. */
  predicate IsPath(ld: Loaded, p: Program, path: seq<Saved>) {
    && path != [] && path[0] == ENTRY
    && forall k {:trigger path[k]} :: 0 < k < |path| ==> Follows(ld, p, path[k - 1], path[k])
  }

  predicate Follows(ld: Loaded, p: Program, a: Saved, b: Saved) {
    CheckAt(ld, p, a).Some? && b in CheckAt(ld, p, a).value
  }

  ghost predicate Reached(ld: Loaded, p: Program, a: Saved) {
    exists path :: IsPath(ld, p, path) && path[|path| - 1] == a
  }

  lemma EntryReached(ld: Loaded, p: Program)
    ensures Reached(ld, p, ENTRY)
  {
    assert IsPath(ld, p, [ENTRY]);
  }

  lemma NextReached(ld: Loaded, p: Program, a: Saved, b: Saved)
    requires Reached(ld, p, a) && Follows(ld, p, a, b)
    ensures Reached(ld, p, b)
  {
    var path :| IsPath(ld, p, path) && path[|path| - 1] == a;
    hide Follows;
    assert IsPath(ld, p, path + [b]);
  }

  /** The state t has been dealt with, or is on the stack above position k. */
  predicate Pending(stack: seq<Task>, k: int, log: seq<Saved>, t: Saved) {
    Covered(log, |log|, t) || exists m :: k < m < |stack| && 0 <= m && stack[m].a == t
  }

  /** The states that follow the one at position k are dealt with or pending. */
  predicate TaskOk(ld: Loaded, p: Program, stack: seq<Task>, k: nat, log: seq<Saved>)
    requires k < |stack|
  {
    stack[k].Retire? ==>
      var next := CheckAt(ld, p, stack[k].a);
      next.Some? && forall j :: 0 <= j < |next.value| ==> Pending(stack, k, log, next.value[j])
  }

  predicate StackOk(ld: Loaded, p: Program, stack: seq<Task>, log: seq<Saved>) {
    && Pending(stack, -1, log, ENTRY)
    && forall k: nat :: k < |stack| ==> TaskOk(ld, p, stack, k, log)
  }

  predicate LogOk(ld: Loaded, p: Program, log: seq<Saved>) {
    forall i: nat :: i < |log| ==> EntryOk(ld, p, log, i)
  }

  lemma CoveredLater(log: seq<Saved>, a: Saved, n: nat, t: Saved)
    requires Covered(log, n, t)
    ensures Covered(log + [a], n, t) && Covered(log + [a], |log| + 1, t)
  {
    hide Includes;
    var j :| 0 <= j < n <= |log| && Includes(log[j], t);
    assert (log + [a])[j] == log[j];
  }

  /** A state that was dealt with leaves the stack. */
  lemma PendingDropped(stack: seq<Task>, k: int, log: seq<Saved>, t: Saved)
    requires stack != [] && k < |stack| - 1 && Pending(stack, k, log, t)
    requires Covered(log, |log|, stack[|stack| - 1].a)
    ensures Pending(stack[..|stack| - 1], k, log, t)
  {
    hide Covered;
    var rest := stack[..|stack| - 1];
    if !Covered(log, |log|, t) {
      var m :| k < m < |stack| && 0 <= m && stack[m].a == t;
      assert rest[m].a == t;
    }
  }

  lemma Dropped(ld: Loaded, p: Program, stack: seq<Task>, log: seq<Saved>)
    requires StackOk(ld, p, stack, log) && stack != [] && Covered(log, |log|, stack[|stack| - 1].a)
    ensures StackOk(ld, p, stack[..|stack| - 1], log)
  {
    hide Pending, Covered, CheckAt;
    var rest := stack[..|stack| - 1];
    PendingDropped(stack, -1, log, ENTRY);
    forall k: nat | k < |rest| ensures TaskOk(ld, p, rest, k, log) {
      assert TaskOk(ld, p, stack, k, log);
      if stack[k].Retire? {
        var next := CheckAt(ld, p, stack[k].a).value;
        forall j | 0 <= j < |next| ensures Pending(rest, k, log, next[j]) { PendingDropped(stack, k, log, next[j]); }
      }
    }
  }

  /** A state whose successors have all been dealt with joins the record. */
  lemma Retired(ld: Loaded, p: Program, stack: seq<Task>, log: seq<Saved>)
    requires StackOk(ld, p, stack, log) && LogOk(ld, p, log) && stack != [] && stack[|stack| - 1].Retire?
    ensures var log' := log + [stack[|stack| - 1].a];
            LogOk(ld, p, log') && StackOk(ld, p, stack, log') && Covered(log', |log'|, stack[|stack| - 1].a)
  {
    var a := stack[|stack| - 1].a;
    var log' := log + [a];
    assert Includes(log'[|log|], a);
    hide CheckAt, Includes;
    assert TaskOk(ld, p, stack, |stack| - 1, log);
    LogGrows(ld, p, log, a);
    hide Covered;
    StackKept(ld, p, stack, log, a);
  }

  lemma LogGrows(ld: Loaded, p: Program, log: seq<Saved>, a: Saved)
    requires LogOk(ld, p, log) && CheckAt(ld, p, a).Some?
    requires forall j :: 0 <= j < |CheckAt(ld, p, a).value| ==> Covered(log, |log|, CheckAt(ld, p, a).value[j])
    ensures LogOk(ld, p, log + [a])
  {
    hide CheckAt, Covered;
    var log' := log + [a];
    forall i: nat | i < |log'| ensures EntryOk(ld, p, log', i) {
      assert i < |log| ==> EntryOk(ld, p, log, i);
      var next := CheckAt(ld, p, log'[i]).value;
      forall k | 0 <= k < |next| ensures Covered(log', i, next[k]) { CoveredLater(log, a, i, next[k]); }
    }
  }

  lemma StackKept(ld: Loaded, p: Program, stack: seq<Task>, log: seq<Saved>, a: Saved)
    requires StackOk(ld, p, stack, log)
    ensures StackOk(ld, p, stack, log + [a])
  {
    hide CheckAt, Covered;
    PendingKept(stack, -1, log, ENTRY, a);
    forall k: nat | k < |stack| ensures TaskOk(ld, p, stack, k, log + [a]) {
      assert TaskOk(ld, p, stack, k, log);
      if stack[k].Retire? {
        var next := CheckAt(ld, p, stack[k].a).value;
        forall j | 0 <= j < |next| ensures Pending(stack, k, log + [a], next[j]) { PendingKept(stack, k, log, next[j], a); }
      }
    }
  }

  lemma PendingKept(stack: seq<Task>, k: int, log: seq<Saved>, t: Saved, a: Saved)
    requires Pending(stack, k, log, t)
    ensures Pending(stack, k, log + [a], t)
  {
    hide Includes;
    if Covered(log, |log|, t) { CoveredLater(log, a, |log|, t); }
    hide Covered;
  }

  function Visits(next: seq<Saved>): (r: seq<Task>)
    ensures |r| == |next| && forall k :: 0 <= k < |next| ==> r[k] == Visit(next[k])
  {
    seq(|next|, i requires 0 <= i < |next| => Visit(next[i]))
  }

  /** A visited state waits below its successors. */
  lemma Expanded(ld: Loaded, p: Program, stack: seq<Task>, log: seq<Saved>, next: seq<Saved>)
    requires StackOk(ld, p, stack, log) && stack != [] && stack[|stack| - 1].Visit?
    requires CheckAt(ld, p, stack[|stack| - 1].a) == Some(next)
    ensures var n := |stack| - 1; StackOk(ld, p, stack[..n] + [Retire(stack[n].a)] + Visits(next), log)
  {
    hide CheckAt, Covered;
    var n := |stack| - 1;
    var stack' := stack[..n] + [Retire(stack[n].a)] + Visits(next);
    assert forall m :: 0 <= m <= n ==> stack'[m].a == stack[m].a;
    PendingAbove(stack, stack', -1, log, ENTRY);
    forall k: nat | k < |stack'| ensures TaskOk(ld, p, stack', k, log) {
      if k < n {
        assert TaskOk(ld, p, stack, k, log) && stack'[k] == stack[k];
        if stack[k].Retire? {
          var all := CheckAt(ld, p, stack[k].a).value;
          forall j | 0 <= j < |all| ensures Pending(stack', k, log, all[j]) { PendingAbove(stack, stack', k, log, all[j]); }
        }
      } else if k == n {
        forall j | 0 <= j < |next| ensures Pending(stack', k, log, next[j]) { assert stack'[n + 1 + j].a == next[j]; }
      }
    }
  }

  lemma PendingAbove(stack: seq<Task>, stack': seq<Task>, k: int, log: seq<Saved>, t: Saved)
    requires Pending(stack, k, log, t) && |stack| <= |stack'| && forall m :: 0 <= m < |stack| ==> stack'[m].a == stack[m].a
    ensures Pending(stack', k, log, t)
  {
    hide Covered;
    if !Covered(log, |log|, t) {
      var m :| k < m < |stack| && 0 <= m && stack[m].a == t;
      assert stack'[m].a == t;
    }
  }

  ghost predicate AllReached(ld: Loaded, p: Program, stack: seq<Task>) {
    forall k :: 0 <= k < |stack| ==> Reached(ld, p, stack[k].a)
  }

  lemma StillReached(ld: Loaded, p: Program, stack: seq<Task>, next: seq<Saved>)
    requires AllReached(ld, p, stack) && stack != [] && CheckAt(ld, p, stack[|stack| - 1].a) == Some(next)
    ensures var n := |stack| - 1; AllReached(ld, p, stack[..n] + [Retire(stack[n].a)] + Visits(next))
  {
    var n := |stack| - 1;
    var a := stack[n].a;
    hide Reached, CheckAt;
    forall k | 0 <= k < |next| ensures Reached(ld, p, next[k]) {
      assert next[k] in next;
      NextReached(ld, p, a, next[k]);
    }
  }

  /** The walk as a function of the stack, the record and the number of instructions processed. */
  function Walk(ld: Loaded, p: Program, stack: seq<Task>, log: seq<Saved>, processed: nat, limit: nat): Outcome
    requires processed <= limit
    decreases limit - processed, |stack|
  {
    if stack == [] then Accepted(log) else
    var n := |stack| - 1;
    var a := stack[n].a;
    if stack[n].Retire? then Walk(ld, p, stack[..n], log + [a], processed, limit)
    else if Covered(log, |log|, a) then Walk(ld, p, stack[..n], log, processed, limit)
    else if processed == limit then TooLong
    else
      var next := CheckAt(ld, p, a);
      if next.None? then Refused(a)
      else Walk(ld, p, stack[..n] + [Retire(a)] + Visits(next.value), log, processed + 1, limit)
  }

  method Prunable(log: seq<Saved>, a: Saved) returns (yes: bool)
    ensures yes == Covered(log, |log|, a)
  {
    hide Includes;
    yes := false;
    for i := 0 to |log|
      invariant yes == exists j :: 0 <= j < i && Includes(log[j], a)
    {
      if Includes(log[i], a) { yes := true; }
    }
  }

  /** What the walk says is true: an accepted record is complete and within the limit, and
      a refusal names a state that some path reaches and whose check fails. */
  lemma {:induction false} WalkSound(ld: Loaded, p: Program, stack: seq<Task>, log: seq<Saved>, processed: nat, limit: nat)
    requires StackOk(ld, p, stack, log) && LogOk(ld, p, log) && AllReached(ld, p, stack)
    requires |log| + Waiting(stack) == processed <= limit
    ensures var r := Walk(ld, p, stack, log, processed, limit);
            && (r.Accepted? ==> Certified(ld, p, r.log) && |r.log| <= limit)
            && (r.Refused? ==> Reached(ld, p, r.at) && CheckAt(ld, p, r.at).None?)
    decreases limit - processed, |stack|
  {
    hide CheckAt, Includes, Reached, Pending, Covered;
    if stack == [] {
      AllDone(log, ENTRY);
    } else {
      var n := |stack| - 1;
      var a := stack[n].a;
      assert stack == stack[..n] + [stack[n]];
      WaitingSplit(stack[..n], [stack[n]]);
      var next := CheckAt(ld, p, a);
      if stack[n].Retire? {
        Retired(ld, p, stack, log);
        Dropped(ld, p, stack, log + [a]);
        WalkSound(ld, p, stack[..n], log + [a], processed, limit);
      } else if Covered(log, |log|, a) {
        Dropped(ld, p, stack, log);
        WalkSound(ld, p, stack[..n], log, processed, limit);
      } else if processed < limit && next.Some? {
        Expanded(ld, p, stack, log, next.value);
        StillReached(ld, p, stack, next.value);
        WaitingSplit(stack[..n], [Retire(a)]);
        WaitingSplit(stack[..n] + [Retire(a)], Visits(next.value));
        NoneWaiting(Visits(next.value));
        WalkSound(ld, p, stack[..n] + [Retire(a)] + Visits(next.value), log, processed + 1, limit);
      }
    }
  }

  lemma WalkFromEntry(ld: Loaded, p: Program, limit: nat)
    ensures var r := Walk(ld, p, [Visit(ENTRY)], [], 0, limit);
            && (r.Accepted? ==> Certified(ld, p, r.log) && |r.log| <= limit)
            && (r.Refused? ==> Reached(ld, p, r.at) && CheckAt(ld, p, r.at).None?)
  {
    EntryReached(ld, p);
    FirstPending();
    assert Waiting([Visit(ENTRY)]) == 0;
    hide CheckAt, Includes, Reached, Pending, Covered;
    WalkSound(ld, p, [Visit(ENTRY)], [], 0, limit);
  }

  /** Walks every path of p, processing at most limit instructions. */
  method Verify(ld: Loaded, p: Program, limit: nat) returns (result: Outcome)
    ensures result == Walk(ld, p, [Visit(ENTRY)], [], 0, limit)
    ensures result.Accepted? ==> Certified(ld, p, result.log) && |result.log| <= limit
    ensures result.Refused? ==> Reached(ld, p, result.at) && CheckAt(ld, p, result.at).None?
  {
    hide CheckAt, Includes, Reached, Covered;
    WalkFromEntry(ld, p, limit);
    var stack, log, processed := [Visit(ENTRY)], [], 0;
    while stack != []
      invariant processed <= limit
      invariant Walk(ld, p, [Visit(ENTRY)], [], 0, limit) == Walk(ld, p, stack, log, processed, limit)
      decreases limit - processed, |stack|
    {
      var n := |stack| - 1;
      var a := stack[n].a;
      if stack[n].Retire? {
        stack, log := stack[..n], log + [a];
      } else {
        var prune := Prunable(log, a);
        if prune {
          stack := stack[..n];
        } else {
          if processed == limit { return TooLong; }
          var next := CheckAt(ld, p, a);
          if next.None? { return Refused(a); }
          stack := stack[..n] + [Retire(a)] + Visits(next.value);
          processed := processed + 1;
        }
      }
    }
    return Accepted(log);
  }

  /** An accepted program faults in no run and ends within limit steps, whatever helpers
      answer and other CPUs do. */
  lemma AcceptedIsSafe(ld: Loaded, p: Program, limit: nat, mem: Memory, o: Oracle, others: Others, n: nat)
    requires Walk(ld, p, [Visit(ENTRY)], [], 0, limit).Accepted? && LoadedAs(ld, mem) && Lawful(others)
    ensures RunAmong(p, o, others, Running(Entry(mem)), 0, limit).Exited?
    ensures !RunAmong(p, o, others, Running(Entry(mem)), 0, n).Error?
  {
    WalkFromEntry(ld, p, limit);
    hide Certified, Lawful, Step, Walk, RunAmong, Entry, LoadedAs;
    var log := Walk(ld, p, [Visit(ENTRY)], [], 0, limit).log;
    VerifiedIsSafe(ld, p, log, mem, o, others, n);
    LongerAmong(p, o, others, Running(Entry(mem)), 0, |log|, limit);
  }

  lemma FirstPending()
    ensures Pending([Visit(ENTRY)], -1, [], ENTRY)
  {
    assert [Visit(ENTRY)][0].a == ENTRY;
  }

  lemma AllDone(log: seq<Saved>, t: Saved)
    ensures Pending([], -1, log, t) ==> Covered(log, |log|, t)
  {
  }

  /** The states on the stack that have been processed. */
  function Waiting(stack: seq<Task>): nat {
    if stack == [] then 0 else Waiting(stack[..|stack| - 1]) + if stack[|stack| - 1].Retire? then 1 else 0
  }

  lemma {:induction false} WaitingSplit(a: seq<Task>, b: seq<Task>)
    ensures Waiting(a + b) == Waiting(a) + Waiting(b)
    decreases |b|
  {
    if b == [] {
      assert a + b == a;
    } else {
      var c := b[..|b| - 1];
      assert (a + b)[..|a + b| - 1] == a + c;
      WaitingSplit(a, c);
    }
  }

  lemma {:induction false} NoneWaiting(b: seq<Task>)
    requires forall k :: 0 <= k < |b| ==> b[k].Visit?
    ensures Waiting(b) == 0
  {
    if b != [] { NoneWaiting(b[..|b| - 1]); }
  }
}
