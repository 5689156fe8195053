/**
 The unprotected increment of the global c, on any number of CPUs: each loads c once and
 later stores the successor of what it has loaded.
 */
module KprobeCounter {
  import opened Word
  import opened KprobeC

  /** stamp counts the stores that were completed when the value was loaded. */
  datatype Task = Loaded(value: CInt, stamp: nat) | Stored

  datatype Access = Load(i: nat) | Store(i: nat)

  datatype Sys = Sys(c: CInt, tasks: map<nat, Task>, stores: nat)

  function Start(c: CInt): Sys {
    Sys(c, map[], 0)
  }

  /** An access that its CPU is not ready for has no effect. */
  function Step(s: Sys, a: Access): Sys {
    match a
    case Load(i) => if i in s.tasks then s else s.(tasks := s.tasks[i := Loaded(s.c, s.stores)])
    case Store(i) =>
      if i in s.tasks && s.tasks[i].Loaded? then
        Sys(ToInt(s.tasks[i].value + 1), s.tasks[i := Stored], s.stores + 1)
      else s
  }

  function Run(s: Sys, acts: seq<Access>): Sys {
    if acts == [] then s else Step(Run(s, acts[..|acts| - 1]), acts[|acts| - 1])
  }

  lemma {:induction false} RunAppend(s: Sys, acts: seq<Access>, a: Access)
    ensures Run(s, acts + [a]) == Step(Run(s, acts), a)
  {
    assert (acts + [a])[..|acts|] == acts;
  }

  /** A store whose value was loaded before another store was completed. */
  predicate StaleStore(s: Sys, a: Access) {
    a.Store? && a.i in s.tasks && s.tasks[a.i].Loaded? && s.tasks[a.i].stamp != s.stores
  }

  predicate AnyStale(c: CInt, acts: seq<Access>) {
    acts != [] && (AnyStale(c, acts[..|acts| - 1]) || StaleStore(Run(Start(c), acts[..|acts| - 1]), acts[|acts| - 1]))
  }

  predicate TaskOk(c: CInt, s: Sys, t: Task) {
    t.Loaded? ==> c <= t.value <= c + t.stamp && t.stamp <= s.stores && (t.stamp == s.stores ==> t.value == s.c)
  }

  predicate Inv(c: CInt, s: Sys) {
    && c + (if s.stores > 0 then 1 else 0) <= s.c <= c + s.stores
    && forall i :: i in s.tasks ==> TaskOk(c, s, s.tasks[i])
  }

  lemma NoWrap(x: int)
    requires 0 <= x + 0x8000_0000 < 0x1_0000_0000
    ensures ToInt(x) == x
  {
  }

  lemma StepKeeps(c: CInt, s: Sys, a: Access)
    requires Inv(c, s) && c + s.stores + 1 < 0x8000_0000
    ensures var s' := Step(s, a);
            && Inv(c, s') && s'.stores <= s.stores + 1
            && (s'.c == c + s'.stores <==> s.c == c + s.stores && !StaleStore(s, a))
  {
    var s' := Step(s, a);
    if a.i in s.tasks {
      assert TaskOk(c, s, s.tasks[a.i]);
      if s.tasks[a.i].Loaded? { NoWrap(s.tasks[a.i].value + 1); }
    }
    hide ToInt;
    forall j | j in s'.tasks ensures TaskOk(c, s', s'.tasks[j]) {
      if j != a.i { assert TaskOk(c, s, s.tasks[j]); }
    }
  }

  /** Below the wrap-around: however the CPUs interleave, k completed stores have increased c by
      at least 1 and at most k, and by exactly k if and only if none of them was stale. */
  lemma {:induction false} Increase(c: CInt, acts: seq<Access>)
    requires c + |acts| < 0x8000_0000
    ensures var s := Run(Start(c), acts);
            && s.stores <= |acts| && c + (if s.stores > 0 then 1 else 0) <= s.c <= c + s.stores
            && (s.c == c + s.stores <==> !AnyStale(c, acts)) && Inv(c, s)
    decreases |acts|
  {
    hide Step, StaleStore, TaskOk;
    if acts != [] {
      var before := acts[..|acts| - 1];
      Increase(c, before);
      StepKeeps(c, Run(Start(c), before), acts[|acts| - 1]);
    }
  }
}
