/**
 Any number of invocations of hello, interleaved at their accesses to the table: lookup,
 reading through the pointer found, update. The program exists with the user id in a local
 variable and with the user id in one global variable.
 */
module Concurrent {
  import opened Word
  import opened Counter
  import opened Sequential

  datatype Variant = LocalUid | SharedUid

  datatype Found = Nothing | Element(value: U64)

  /** How far an invocation has got: u is its user and key the one that it looked up; stamp
      counts the updates of the key when its value was read. */
  datatype Task =
    | Begun(u: U64)
    | Looked(u: U64, key: U64, found: Found, stamp: nat)
    | Counted(u: U64, key: U64, n: U64, stamp: nat)
    | Finished(u: U64)

  /** One step of invocation i. The pointer of a lookup stays valid, and may show any value
      that the element has had since: Reread takes the current one. */
  datatype Action =
    | Begin(i: nat, uidGid: U64)
    | Lookup(i: nat)
    | Reread(i: nat)
    | Deref(i: nat)
    | Update(i: nat, refuse: bool)

  /** The table, the global variable, the invocations, and the number of completed updates
      for each key and in all. */
  datatype Sys = Sys(table: CTable, uid: U64, tasks: map<nat, Task>, done: map<U64, nat>, total: nat)

  const START: Sys := Sys(map[], 0, map[], map[], 0)

  function Done(s: Sys, u: U64): nat {
    if u in s.done then s.done[u] else 0
  }

  /** The variable uid as invocation i sees it. */
  function UidOf(v: Variant, s: Sys, u: U64): U64 {
    if v.LocalUid? then u else s.uid
  }

  function WithTask(s: Sys, i: nat, t: Task): Sys {
    s.(tasks := s.tasks[i := t])
  }

  function LookupStep(v: Variant, s: Sys, i: nat, u: U64): Sys {
    var key := UidOf(v, s, u);
    WithTask(s, i, Looked(u, key, if key in s.table then Element(s.table[key]) else Nothing, Done(s, key)))
  }

  function UpdateStep(v: Variant, s: Sys, i: nat, u: U64, n: U64, refuse: bool): Sys {
    var key := UidOf(v, s, u);
    var s' := WithTask(s, i, Finished(u));
    if Admits(s.table, key, refuse) then
      s'.(table := s.table[key := n], done := s.done[key := Done(s, key) + 1], total := s.total + 1)
    else s'
  }

  /** An action that its invocation is not ready for has no effect. */
  function Step(v: Variant, s: Sys, a: Action): Sys {
    match a
    case Begin(i, x) => if i in s.tasks then s else WithTask(s, i, Begun(UserOf(x))).(uid := if v.LocalUid? then s.uid else UserOf(x))
    case Lookup(i) => if i in s.tasks && s.tasks[i].Begun? then LookupStep(v, s, i, s.tasks[i].u) else s
    case Reread(i) =>
      if i in s.tasks && s.tasks[i].Looked? && s.tasks[i].found.Element? && s.tasks[i].key in s.table then
        var key := s.tasks[i].key;
        WithTask(s, i, s.tasks[i].(found := Element(s.table[key]), stamp := Done(s, key)))
      else s
    case Deref(i) =>
      if i in s.tasks && s.tasks[i].Looked? then
        var t := s.tasks[i];
        WithTask(s, i, Counted(t.u, t.key, Wrap((if t.found.Element? then t.found.value else 0) + 1), t.stamp))
      else s
    case Update(i, refuse) =>
      if i in s.tasks && s.tasks[i].Counted? then UpdateStep(v, s, i, s.tasks[i].u, s.tasks[i].n, refuse) else s
  }

  function Run(v: Variant, s: Sys, acts: seq<Action>): Sys {
    if acts == [] then s else Step(v, Run(v, s, acts[..|acts| - 1]), acts[|acts| - 1])
  }

  /** The number of updates in all is the sum of those of each key. */
  lemma {:induction false} TotalIsSum(v: Variant, acts: seq<Action>)
    ensures var s := Run(v, START, acts); Sum(s.done) == s.total
    decreases |acts|
  {
    hide UserOf, Sum, Admits;
    if acts == [] {
      EmptySum();
    } else {
      var before, a := acts[..|acts| - 1], acts[|acts| - 1];
      TotalIsSum(v, before);
      var s := Run(v, START, before);
      if a.Update? && a.i in s.tasks {
        var key := UidOf(v, s, s.tasks[a.i].u);
        SumUpdate(s.done, key, Done(s, key) + 1);
      }
    }
  }

  // ---- Uninterrupted, the steps are one call of the C function ----

  function OneCall(i: nat, uidGid: U64, refuse: bool): seq<Action> {
    [Begin(i, uidGid), Lookup(i), Deref(i), Update(i, refuse)]
  }

  lemma {:induction false} RunAppend(v: Variant, s: Sys, a: seq<Action>, b: seq<Action>)
    ensures Run(v, s, a + b) == Run(v, Run(v, s, a), b)
    decreases |b|
  {
    hide Step;
    if b == [] {
      assert a + b == a;
    } else {
      assert (a + b)[..|a + b| - 1] == a + b[..|b| - 1];
      RunAppend(v, s, a, b[..|b| - 1]);
    }
  }

  lemma RunFour(v: Variant, s: Sys, a: Action, b: Action, c: Action, d: Action)
    ensures Run(v, s, [a, b, c, d]) == Step(v, Step(v, Step(v, Step(v, s, a), b), c), d)
  {
    hide Step;
    RunAppend(v, s, [a, b, c], [d]);
    RunAppend(v, s, [a, b], [c]);
    RunAppend(v, s, [a], [b]);
    assert [a, b, c] + [d] == [a, b, c, d] && [a, b] + [c] == [a, b, c] && [a] + [b] == [a, b];
    forall x: Action, t: Sys ensures Run(v, t, [x]) == Step(v, t, x) { RunOne(v, t, x); }
  }

  lemma RunOne(v: Variant, s: Sys, a: Action)
    ensures Run(v, s, [a]) == Step(v, s, a)
  {
    hide Step;
    assert [a][..0] == [];
  }

  lemma FirstHalf(v: Variant, s: Sys, i: nat, uidGid: U64)
    requires i !in s.tasks
    ensures var s' := Step(v, Step(v, s, Begin(i, uidGid)), Lookup(i));
            var u := UserOf(uidGid);
            && s'.table == s.table && UidOf(v, s', u) == u && s'.tasks.Keys == s.tasks.Keys + {i}
            && s'.tasks[i] == Looked(u, u, if u in s.table then Element(s.table[u]) else Nothing, Done(s, u))
  {
    hide UserOf;
  }

  lemma SecondHalf(v: Variant, s: Sys, i: nat, u: U64, refuse: bool)
    requires i in s.tasks && s.tasks[i].Looked? && s.tasks[i].u == u && UidOf(v, s, u) == u
    requires s.tasks[i].found == if u in s.table then Element(s.table[u]) else Nothing
    ensures var s' := Step(v, Step(v, s, Deref(i)), Update(i, refuse));
            && s'.table == (if Admits(s.table, u, refuse) then s.table[u := NextCount(s.table, u)] else s.table)
            && s'.tasks.Keys == s.tasks.Keys
  {
    hide UserOf;
  }

  /** An invocation that nothing interrupts does what the C function does, in either variant. */
  lemma OneCallIsHello(v: Variant, s: Sys, i: nat, uidGid: U64, refuse: bool)
    requires i !in s.tasks
    ensures Run(v, s, OneCall(i, uidGid, refuse)).table == AfterHello(s.table, uidGid, refuse)
    ensures Run(v, s, OneCall(i, uidGid, refuse)).tasks.Keys == s.tasks.Keys + {i}
  {
    hide Step, UserOf, Run;
    RunFour(v, s, Begin(i, uidGid), Lookup(i), Deref(i), Update(i, refuse));
    FirstHalf(v, s, i, uidGid);
    SecondHalf(v, Step(v, Step(v, s, Begin(i, uidGid)), Lookup(i)), i, UserOf(uidGid), refuse);
  }

  function OneByOne(calls: seq<Call>): seq<Action> {
    if calls == [] then [] else
    var n := |calls| - 1;
    OneByOne(calls[..n]) + OneCall(n, calls[n].uidGid, calls[n].refuse)
  }

  /** One after another, the program with the global variable leaves the same table as the one
      with the local variable: the table that the C function prescribes. */
  lemma {:induction false} SequentialVariantsAgree(v: Variant, calls: seq<Call>)
    ensures Run(v, START, OneByOne(calls)).table == AfterCalls(map[], calls)
    ensures forall i: nat :: i in Run(v, START, OneByOne(calls)).tasks ==> i < |calls|
    decreases |calls|
  {
    hide Step, AfterHello, OneCall;
    if calls != [] {
      var n := |calls| - 1;
      SequentialVariantsAgree(v, calls[..n]);
      var s := Run(v, START, OneByOne(calls[..n]));
      RunAppend(v, START, OneByOne(calls[..n]), OneCall(n, calls[n].uidGid, calls[n].refuse));
      hide Run;
      OneCallIsHello(v, s, n, calls[n].uidGid, calls[n].refuse);
      forall i: nat | i in Run(v, START, OneByOne(calls)).tasks ensures i < |calls| {
        assert i in Run(v, START, OneByOne(calls)).tasks.Keys;
      }
    }
  }

  // ---- The local variable: every interleaving ----

  predicate LocalTaskOk(s: Sys, t: Task) {
    match t
    case Looked(u, key, Nothing, stamp) => key == u && stamp == 0
    case Looked(u, key, Element(value), stamp) => key == u && 1 <= value <= stamp <= Done(s, u)
    case Counted(u, key, n, stamp) => key == u && 1 <= n <= stamp + 1 && stamp <= Done(s, u)
    case _ => true
  }

  /** What every step keeps: a user is in the table from the first completed update on, and
      the counter lies between 1 and the number of completed updates. */
  predicate LocalInv(s: Sys) {
    && (forall u: U64 :: u in s.table <==> Done(s, u) > 0)
    && (forall u: U64 :: u in s.table ==> 1 <= s.table[u] <= Done(s, u))
    && (forall u: U64 :: Done(s, u) <= s.total)
    && (forall i :: i in s.tasks ==> LocalTaskOk(s, s.tasks[i]))
  }

  /** Nothing is forgotten: a task stays consistent while completed updates grow. */
  lemma TaskStays(s: Sys, s': Sys, t: Task)
    requires LocalTaskOk(s, t) && forall u: U64 :: Done(s, u) <= Done(s', u)
    ensures LocalTaskOk(s', t)
  {
  }

  /** A step that changes one task only. */
  lemma TaskChanged(s: Sys, i: nat, t: Task)
    requires LocalInv(s) && LocalTaskOk(s, t)
    ensures LocalInv(WithTask(s, i, t))
  {
    var s' := WithTask(s, i, t);
    assert forall u: U64 :: Done(s', u) == Done(s, u);
    hide LocalTaskOk, Done;
    forall j | j in s'.tasks ensures LocalTaskOk(s', s'.tasks[j]) { TaskStays(s, s', s'.tasks[j]); }
  }

  lemma LocalUpdate(s: Sys, i: nat, t: Task, refuse: bool)
    requires LocalInv(s) && s.total < TWO64 - 1 && i in s.tasks && s.tasks[i] == t && t.Counted?
    ensures LocalInv(UpdateStep(LocalUid, s, i, t.u, t.n, refuse))
  {
    var s' := UpdateStep(LocalUid, s, i, t.u, t.n, refuse);
    assert LocalTaskOk(s, t);
    assert forall u: U64 :: Done(s, u) <= Done(s', u);
    forall j | j in s'.tasks ensures LocalTaskOk(s', s'.tasks[j]) {
      if j != i { TaskStays(s, s', s'.tasks[j]); }
    }
    hide LocalTaskOk;
  }

  lemma LocalStep(s: Sys, a: Action)
    requires LocalInv(s) && s.total < TWO64 - 1
    ensures LocalInv(Step(LocalUid, s, a)) && s.total <= Step(LocalUid, s, a).total <= s.total + 1
  {
    assert a.i in s.tasks ==> LocalTaskOk(s, s.tasks[a.i]);
    hide UserOf, LocalInv;
    match a
    case Begin(i, x) => TaskChanged(s, i, Begun(UserOf(x)));
    case Update(i, refuse) =>
      if i in s.tasks && s.tasks[i].Counted? { LocalUpdate(s, i, s.tasks[i], refuse); }
    case _ => LocalRead(s, a);
  }

  lemma LocalRead(s: Sys, a: Action)
    requires LocalInv(s) && s.total < TWO64 - 1 && (a.Lookup? || a.Reread? || a.Deref?)
    ensures LocalInv(Step(LocalUid, s, a)) && Step(LocalUid, s, a).total == s.total
  {
    var s' := Step(LocalUid, s, a);
    if s' != s {
      var t := s'.tasks[a.i];
      assert s' == WithTask(s, a.i, t);
      assert LocalTaskOk(s, s.tasks[a.i]);
      assert LocalTaskOk(s, t);
      hide Step, LocalInv;
      TaskChanged(s, a.i, t);
    }
  }

  /** For every interleaving, as long as there are fewer than 2^64 steps. */
  lemma {:induction false} LocalRuns(acts: seq<Action>)
    requires |acts| < TWO64
    ensures var s := Run(LocalUid, START, acts); LocalInv(s) && s.total <= |acts|
  {
    hide Step, LocalInv;
    if acts != [] {
      LocalRuns(acts[..|acts| - 1]);
      LocalStep(Run(LocalUid, START, acts[..|acts| - 1]), acts[|acts| - 1]);
    } else {
      LocalStart();
    }
  }

  lemma LocalStart()
    ensures LocalInv(START)
  {
  }

  /** The bounds, read off: for every interleaving and every user. */
  lemma LocalBounds(acts: seq<Action>, u: U64)
    requires |acts| < TWO64
    ensures var s := Run(LocalUid, START, acts);
            && CountIn(s.table, u) <= Done(s, u)
            && (Done(s, u) > 0 ==> u in s.table && s.table[u] >= 1)
            && (Done(s, u) == 0 ==> u !in s.table)
  {
    hide Run;
    LocalRuns(acts);
  }

  // ---- The local variable: when the counter is exact ----

  /** If nobody has updated the key since, the value that a task has read is the current one. */
  predicate FreshTaskOk(s: Sys, t: Task) {
    match t
    case Looked(u, _, Nothing, stamp) => stamp == Done(s, u) ==> u !in s.table
    case Looked(u, _, Element(value), stamp) => stamp == Done(s, u) ==> value == CountIn(s.table, u)
    case Counted(u, _, n, stamp) => stamp == Done(s, u) ==> n == CountIn(s.table, u) + 1
    case _ => true
  }

  predicate FreshInv(s: Sys) {
    forall i :: i in s.tasks ==> FreshTaskOk(s, s.tasks[i])
  }

  /** An accepted update of u whose value was read before another update of u was completed. */
  predicate StaleUpdate(s: Sys, a: Action, u: U64) {
    && a.Update? && a.i in s.tasks && s.tasks[a.i].Counted? && s.tasks[a.i].u == u
    && Admits(s.table, u, a.refuse) && s.tasks[a.i].stamp != Done(s, u)
  }

  predicate AnyStale(acts: seq<Action>, u: U64) {
    acts != [] && (AnyStale(acts[..|acts| - 1], u) || StaleUpdate(Run(LocalUid, START, acts[..|acts| - 1]), acts[|acts| - 1], u))
  }

  lemma FreshRead(s: Sys, a: Action)
    requires LocalInv(s) && FreshInv(s) && s.total < TWO64 - 1 && !a.Update?
    ensures FreshInv(Step(LocalUid, s, a))
    ensures Step(LocalUid, s, a).table == s.table && Step(LocalUid, s, a).done == s.done
  {
    hide UserOf;
    var s' := Step(LocalUid, s, a);
    if s' != s {
      assert a.i in s.tasks ==> LocalTaskOk(s, s.tasks[a.i]) && FreshTaskOk(s, s.tasks[a.i]);
      assert FreshTaskOk(s', s'.tasks[a.i]);
    }
    forall j | j in s'.tasks ensures FreshTaskOk(s', s'.tasks[j]) {
      if j != a.i { assert FreshTaskOk(s, s.tasks[j]); }
    }
  }

  /** An accepted update makes the other tasks of its key stale and leaves those of other keys alone. */
  lemma FreshKept(s: Sys, s': Sys, key: U64, n: U64, t: Task)
    requires LocalTaskOk(s, t) && FreshTaskOk(s, t)
    requires s'.table == s.table[key := n] && s'.done == s.done[key := Done(s, key) + 1]
    ensures FreshTaskOk(s', t)
  {
  }

  lemma FreshSame(s: Sys, s': Sys, t: Task)
    requires FreshTaskOk(s, t) && s'.table == s.table && s'.done == s.done
    ensures FreshTaskOk(s', t)
  {
  }

  lemma FreshTasks(s: Sys, a: Action)
    requires LocalInv(s) && FreshInv(s) && s.total < TWO64 - 1 && a.Update?
    ensures FreshInv(Step(LocalUid, s, a))
  {
    var s' := Step(LocalUid, s, a);
    if s' != s {
      var t := s.tasks[a.i];
      assert FreshTaskOk(s', Finished(t.u));
      hide FreshTaskOk, LocalTaskOk;
      forall j | j in s'.tasks ensures FreshTaskOk(s', s'.tasks[j]) {
        if j != a.i {
          assert LocalTaskOk(s, s.tasks[j]) && FreshTaskOk(s, s.tasks[j]);
          if Admits(s.table, t.u, a.refuse) {
            FreshKept(s, s', t.u, t.n, s.tasks[j]);
          } else {
            FreshSame(s, s', s.tasks[j]);
          }
        }
      }
    }
  }

  lemma FreshUpdate(s: Sys, a: Action, u: U64)
    requires LocalInv(s) && FreshInv(s) && s.total < TWO64 - 1 && a.Update?
    ensures var s' := Step(LocalUid, s, a);
            && FreshInv(s')
            && (StaleUpdate(s, a, u) ==> CountIn(s'.table, u) < Done(s', u))
            && (!StaleUpdate(s, a, u) ==> Done(s', u) - CountIn(s'.table, u) == Done(s, u) - CountIn(s.table, u))
  {
    FreshTasks(s, a);
    if a.i in s.tasks { assert LocalTaskOk(s, s.tasks[a.i]) && FreshTaskOk(s, s.tasks[a.i]); }
    hide FreshInv, LocalInv, LocalTaskOk, FreshTaskOk;
  }

  /** A counter is exact if and only if none of its completed updates was stale, whatever
      other users do. */
  lemma {:induction false} ExactIffNoStale(acts: seq<Action>, u: U64)
    requires |acts| < TWO64
    ensures var s := Run(LocalUid, START, acts);
            FreshInv(s) && (CountIn(s.table, u) == Done(s, u) <==> !AnyStale(acts, u))
  {
    hide Step, LocalInv, FreshInv, StaleUpdate;
    if acts == [] {
      FreshStart();
    } else {
      var before, a := acts[..|acts| - 1], acts[|acts| - 1];
      ExactIffNoStale(before, u);
      LocalRuns(before);
      LocalBounds(before, u);
      LocalBounds(acts, u);
      var s := Run(LocalUid, START, before);
      if a.Update? { FreshUpdate(s, a, u); } else { FreshRead(s, a); OnlyUpdates(s, a, u); }
    }
  }

  lemma FreshStart()
    ensures FreshInv(START)
  {
  }

  lemma OnlyUpdates(s: Sys, a: Action, u: U64)
    requires !a.Update?
    ensures !StaleUpdate(s, a, u)
  {
  }

  /** An invocation that has read its value and not yet finished. */
  predicate Active(s: Sys, i: nat, u: U64) {
    i in s.tasks && (s.tasks[i].Looked? || s.tasks[i].Counted?) && s.tasks[i].u == u
  }

  /** No two invocations for u are between their lookup and their update. */
  ghost predicate Alone(s: Sys, u: U64) {
    forall i, j :: Active(s, i, u) && Active(s, j, u) ==> i == j
  }

  ghost predicate NoOverlap(acts: seq<Action>, u: U64) {
    Alone(Run(LocalUid, START, acts), u) && (acts != [] ==> NoOverlap(acts[..|acts| - 1], u))
  }

  ghost predicate UpToDate(s: Sys, u: U64) {
    forall i {:trigger Active(s, i, u)} :: Active(s, i, u) ==> s.tasks[i].stamp == Done(s, u)
  }

  lemma StaysUpToDate(s: Sys, a: Action, u: U64)
    requires UpToDate(s, u) && Alone(s, u) && LocalInv(s)
    ensures UpToDate(Step(LocalUid, s, a), u) && !StaleUpdate(s, a, u)
  {
    hide UserOf;
    var s' := Step(LocalUid, s, a);
    assert a.i in s.tasks ==> LocalTaskOk(s, s.tasks[a.i]);
    forall j | Active(s', j, u) ensures s'.tasks[j].stamp == Done(s', u) {
      if j != a.i { assert Active(s, j, u); }
      assert Active(s, a.i, u) || !Active(s, a.i, u);
    }
    assert StaleUpdate(s, a, u) ==> Active(s, a.i, u);
  }

  /** If invocations for u never overlap, its counter is the number of its completed updates. */
  lemma {:induction false} ExactWithoutOverlap(acts: seq<Action>, u: U64)
    requires |acts| < TWO64 && NoOverlap(acts, u)
    ensures !AnyStale(acts, u) && UpToDate(Run(LocalUid, START, acts), u)
    ensures CountIn(Run(LocalUid, START, acts).table, u) == Done(Run(LocalUid, START, acts), u)
  {
    hide Step, Alone, LocalInv;
    if acts != [] {
      var before := acts[..|acts| - 1];
      ExactWithoutOverlap(before, u);
      LocalRuns(before);
      StaysUpToDate(Run(LocalUid, START, before), acts[|acts| - 1], u);
    }
    ExactIffNoStale(acts, u);
  }

  lemma SmallUser(u: U64)
    requires u < 0x1_0000_0000
    ensures UserOf(u) == u
  {
    hide Bits64;
    MaskLow(u);
  }

  /** Both invocations look up user 7 before either has updated. */
  lemma BothLook()
    ensures var s := Run(LocalUid, START, [Begin(0, 7), Begin(1, 7), Lookup(0), Lookup(1)]);
            s == Sys(map[], 0, map[0 := Looked(7, 7, Nothing, 0), 1 := Looked(7, 7, Nothing, 0)], map[], 0)
  {
    hide Run, UserOf;
    SmallUser(7);
    RunFour(LocalUid, START, Begin(0, 7), Begin(1, 7), Lookup(0), Lookup(1));
  }

  /** Two overlapping invocations for one user: two completed updates, and a counter of 1. */
  lemma LostUpdate()
    ensures var s := Run(LocalUid, START, [Begin(0, 7), Begin(1, 7), Lookup(0), Lookup(1)]
                                          + [Deref(0), Deref(1), Update(0, false), Update(1, false)]);
            Done(s, 7) == 2 && CountIn(s.table, 7) == 1
  {
    hide Run, UserOf;
    BothLook();
    var s := Run(LocalUid, START, [Begin(0, 7), Begin(1, 7), Lookup(0), Lookup(1)]);
    RunAppend(LocalUid, START, [Begin(0, 7), Begin(1, 7), Lookup(0), Lookup(1)],
              [Deref(0), Deref(1), Update(0, false), Update(1, false)]);
    RunFour(LocalUid, s, Deref(0), Deref(1), Update(0, false), Update(1, false));
  }

  // ---- The global variable: every interleaving ----

  /** Some invocation has stored u in the global variable. */
  predicate Stored(s: Sys, u: U64) {
    exists i :: i in s.tasks && s.tasks[i].u == u
  }

  predicate SharedTaskOk(s: Sys, t: Task) {
    match t
    case Looked(_, _, Element(value), _) => value <= s.total
    case Counted(_, _, n, _) => n <= s.total + 1
    case _ => true
  }

  predicate SharedInv(s: Sys) {
    && (s.tasks != map[] ==> Stored(s, s.uid))
    && (forall u: U64 :: u in s.table ==> Stored(s, u) && s.table[u] <= s.total)
    && (forall i :: i in s.tasks ==> SharedTaskOk(s, s.tasks[i]))
  }

  /** A step that leaves the table alone and changes one task. */
  lemma SharedTaskChanged(s: Sys, s': Sys, i: nat, t: Task)
    requires SharedInv(s) && SharedTaskOk(s, t) && s' == WithTask(s, i, t).(uid := s'.uid)
    requires if i in s.tasks then s'.uid == s.uid && t.u == s.tasks[i].u else s'.uid == t.u
    ensures SharedInv(s')
  {
    assert i in s'.tasks && s'.tasks[i].u == t.u;
    assert Stored(s', t.u);
    forall u: U64 | Stored(s, u) ensures Stored(s', u) { StoredKept(s, s', u); }
    hide Stored;
    forall j | j in s'.tasks ensures SharedTaskOk(s', s'.tasks[j]) {
      if j != i { assert SharedTaskOk(s, s.tasks[j]); }
    }
  }

  lemma StoredKept(s: Sys, s': Sys, u: U64)
    requires Stored(s, u) && forall j :: j in s.tasks ==> j in s'.tasks && s'.tasks[j].u == s.tasks[j].u
    ensures Stored(s', u)
  {
    var j :| j in s.tasks && s.tasks[j].u == u;
    assert j in s'.tasks && s'.tasks[j].u == u;
  }

  lemma SharedUpdate(s: Sys, i: nat, t: Task, refuse: bool)
    requires SharedInv(s) && s.total < TWO64 - 1 && i in s.tasks && s.tasks[i] == t && t.Counted?
    ensures var s' := UpdateStep(SharedUid, s, i, t.u, t.n, refuse); SharedInv(s') && s.total <= s'.total <= s.total + 1
  {
    var s' := UpdateStep(SharedUid, s, i, t.u, t.n, refuse);
    assert SharedTaskOk(s, t);
    forall u: U64 | Stored(s, u) ensures Stored(s', u) { StoredKept(s, s', u); }
    hide Stored;
    forall j | j in s'.tasks ensures SharedTaskOk(s', s'.tasks[j]) {
      if j != i { assert SharedTaskOk(s, s.tasks[j]); }
    }
  }

  lemma SharedRead(s: Sys, a: Action)
    requires SharedInv(s) && s.total < TWO64 - 1 && !a.Update?
    ensures SharedInv(Step(SharedUid, s, a)) && Step(SharedUid, s, a).total == s.total
  {
    hide UserOf;
    var s' := Step(SharedUid, s, a);
    if s' != s {
      var t := s'.tasks[a.i];
      assert a.i in s.tasks ==> SharedTaskOk(s, s.tasks[a.i]);
      assert s' == WithTask(s, a.i, t).(uid := s'.uid) && SharedTaskOk(s, t);
      assert a.i in s.tasks ==> t.u == s.tasks[a.i].u;
      hide SharedInv, Step;
      SharedTaskChanged(s, s', a.i, t);
    }
  }

  lemma SharedStep(s: Sys, a: Action)
    requires SharedInv(s) && s.total < TWO64 - 1
    ensures SharedInv(Step(SharedUid, s, a)) && s.total <= Step(SharedUid, s, a).total <= s.total + 1
  {
    hide SharedInv, UserOf;
    if a.Update? {
      if a.i in s.tasks && s.tasks[a.i].Counted? { SharedUpdate(s, a.i, s.tasks[a.i], a.refuse); }
    } else {
      SharedRead(s, a);
    }
  }

  lemma SharedStart()
    ensures SharedInv(START)
  {
  }

  /** With the global variable, every key is an id that some invocation stored, and every
      value is at most the number of all updates made. */
  lemma {:induction false} SharedRuns(acts: seq<Action>)
    requires |acts| < TWO64
    ensures var s := Run(SharedUid, START, acts); SharedInv(s) && s.total == Sum(s.done) <= |acts|
  {
    hide Step, SharedInv, Sum;
    TotalIsSum(SharedUid, acts);
    if acts != [] {
      SharedRuns(acts[..|acts| - 1]);
      SharedStep(Run(SharedUid, START, acts[..|acts| - 1]), acts[|acts| - 1]);
    } else {
      SharedStart();
    }
  }

  /** Read off for one key: some invocation stored it, and its value is at most the sum of all
      completed updates. */
  lemma SharedCounters(acts: seq<Action>, u: U64)
    requires |acts| < TWO64 && u in Run(SharedUid, START, acts).table
    ensures var s := Run(SharedUid, START, acts);
            s.table[u] <= Sum(s.done) && exists i :: i in s.tasks && s.tasks[i].u == u
  {
    hide Run, Sum;
    SharedRuns(acts);
    assert Stored(Run(SharedUid, START, acts), u);
  }

  lemma FirstCall()
    ensures Run(SharedUid, START, OneCall(0, 1, false)) == Sys(map[1 := 1], 1, map[0 := Finished(1)], map[1 := 1], 1)
  {
    hide Run, Step;
    RunFour(SharedUid, START, Begin(0, 1), Lookup(0), Deref(0), Update(0, false));
    FirstLook();
    FirstStored();
  }

  lemma FirstLook()
    ensures Step(SharedUid, Step(SharedUid, START, Begin(0, 1)), Lookup(0))
         == Sys(map[], 1, map[0 := Looked(1, 1, Nothing, 0)], map[], 0)
  {
    hide UserOf;
    SmallUser(1);
    assert Step(SharedUid, START, Begin(0, 1)) == Sys(map[], 1, map[0 := Begun(1)], map[], 0);
  }

  lemma FirstStored()
    ensures Step(SharedUid, Step(SharedUid, Sys(map[], 1, map[0 := Looked(1, 1, Nothing, 0)], map[], 0), Deref(0)), Update(0, false))
         == Sys(map[1 := 1], 1, map[0 := Finished(1)], map[1 := 1], 1)
  {
    var s := Step(SharedUid, Sys(map[], 1, map[0 := Looked(1, 1, Nothing, 0)], map[], 0), Deref(0));
    assert s == Sys(map[], 1, map[0 := Counted(1, 1, 1, 0)], map[], 0);
    assert Step(SharedUid, s, Update(0, false)) == Sys(map[1 := 1], 1, map[0 := Finished(1)], map[1 := 1], 1);
  }

  lemma Interrupted()
    ensures var s := Sys(map[1 := 1], 1, map[0 := Finished(1)], map[1 := 1], 1);
            Run(SharedUid, s, [Begin(1, 1), Lookup(1), Begin(2, 2), Deref(1)])
            == Sys(map[1 := 1], 2, map[0 := Finished(1), 1 := Counted(1, 1, 2, 1), 2 := Begun(2)], map[1 := 1], 1)
  {
    hide Run, UserOf;
    SmallUser(1);
    SmallUser(2);
    RunFour(SharedUid, Sys(map[1 := 1], 1, map[0 := Finished(1)], map[1 := 1], 1), Begin(1, 1), Lookup(1), Begin(2, 2), Deref(1));
  }

  /** But a counter may exceed its own updates: the second invocation, for user 1, reads the
      counter of user 1 and, after the third has stored 2, writes it under user 2. */
  lemma SharedExceeds()
    ensures var s := Run(SharedUid, START, OneCall(0, 1, false) + [Begin(1, 1), Lookup(1), Begin(2, 2), Deref(1)] + [Update(1, false)]);
            Done(s, 2) == 1 && CountIn(s.table, 2) == 2
  {
    hide Run, UserOf;
    var acts, more := OneCall(0, 1, false), [Begin(1, 1), Lookup(1), Begin(2, 2), Deref(1)];
    RunAppend(SharedUid, START, acts + more, [Update(1, false)]);
    RunAppend(SharedUid, START, acts, more);
    FirstCall();
    Interrupted();
    RunOne(SharedUid, Run(SharedUid, START, acts + more), Update(1, false));
    assert |map[1 := 1]| == 1 by { assert map[1 := 1].Keys == {1}; }
  }

  // ---- The global variable: when the bound per user holds ----

  /** If the action is a lookup or an update that takes effect, the global variable still
      holds the invocation's own user. */
  predicate OwnUid(s: Sys, a: Action) {
    (a.Lookup? && a.i in s.tasks && s.tasks[a.i].Begun?) || (a.Update? && a.i in s.tasks && s.tasks[a.i].Counted?)
    ==> s.uid == s.tasks[a.i].u
  }

  predicate NeverOverwritten(acts: seq<Action>) {
    acts != [] ==>
      var before := acts[..|acts| - 1];
      NeverOverwritten(before) && OwnUid(Run(SharedUid, START, before), acts[|acts| - 1])
  }

  lemma OwnUidStep(s: Sys, t: Sys, a: Action)
    requires s == t.(uid := s.uid) && OwnUid(s, a)
    ensures var s' := Step(SharedUid, s, a); s' == Step(LocalUid, t, a).(uid := s'.uid)
  {
    hide UserOf;
  }

  /** As long as nobody overwrites the global variable before it has been used, the program
      with the global variable does what the one with the local variable does. */
  lemma {:induction false} SharedIsLocal(acts: seq<Action>)
    requires NeverOverwritten(acts)
    ensures var s := Run(SharedUid, START, acts); s == Run(LocalUid, START, acts).(uid := s.uid)
  {
    hide Step, OwnUid;
    if acts != [] {
      var before := acts[..|acts| - 1];
      SharedIsLocal(before);
      OwnUidStep(Run(SharedUid, START, before), Run(LocalUid, START, before), acts[|acts| - 1]);
    }
  }

  /** So the results about the local variable carry over: the bound, and when it is exact. */
  lemma SharedBounds(acts: seq<Action>, u: U64)
    requires |acts| < TWO64 && NeverOverwritten(acts)
    ensures var s := Run(SharedUid, START, acts);
            && CountIn(s.table, u) <= Done(s, u)
            && (CountIn(s.table, u) == Done(s, u) <==> !AnyStale(acts, u))
  {
    hide Run, AnyStale;
    SharedIsLocal(acts);
    LocalBounds(acts, u);
    ExactIffNoStale(acts, u);
  }

  /** An accepted update that writes to u what was read from another key. */
  predicate Foreign(s: Sys, a: Action, u: U64) {
    && a.Update? && a.i in s.tasks && s.tasks[a.i].Counted? && s.uid == u && Admits(s.table, u, a.refuse)
    && s.tasks[a.i].key != u
  }

  /** Such an update, with a value that exceeds the updates of u so far by more than one: it breaks
      the bound at once. That nothing else ever breaks it is what BoundedStep shows. */
  predicate Excessive(s: Sys, a: Action, u: U64) {
    Foreign(s, a, u) && s.tasks[a.i].n > Done(s, u) + 1
  }

  predicate AnyForeign(acts: seq<Action>, u: U64) {
    acts != [] && (AnyForeign(acts[..|acts| - 1], u) || Foreign(Run(SharedUid, START, acts[..|acts| - 1]), acts[|acts| - 1], u))
  }

  predicate AnyExcessive(acts: seq<Action>, u: U64) {
    acts != [] &&
    (AnyExcessive(acts[..|acts| - 1], u) || Excessive(Run(SharedUid, START, acts[..|acts| - 1]), acts[|acts| - 1], u))
  }

  predicate Bounded(s: Sys, u: U64) {
    CountIn(s.table, u) <= Done(s, u)
  }

  /** The bound for u holds in every state of the run. */
  predicate AlwaysBounded(acts: seq<Action>, u: U64) {
    Bounded(Run(SharedUid, START, acts), u) && (acts != [] ==> AlwaysBounded(acts[..|acts| - 1], u))
  }

  /** What was read from u is at most the number of updates of u. */
  predicate OwnReadOk(s: Sys, t: Task, u: U64) {
    match t
    case Looked(_, key, Element(value), _) => key == u ==> value <= Done(s, u)
    case Counted(_, key, n, _) => key == u ==> n <= Done(s, u) + 1
    case _ => true
  }

  predicate OwnReadsOk(s: Sys, u: U64) {
    forall i :: i in s.tasks ==> OwnReadOk(s, s.tasks[i], u)
  }

  lemma BoundedUpdate(s: Sys, a: Action, u: U64)
    requires a.Update? && SharedInv(s) && s.total < TWO64 - 1 && Bounded(s, u) && OwnReadsOk(s, u)
    ensures var s' := Step(SharedUid, s, a);
            && (Bounded(s', u) <==> !Excessive(s, a, u))
            && OwnReadsOk(s', u)
  {
    hide UserOf;
    var s' := Step(SharedUid, s, a);
    assert a.i in s.tasks ==> OwnReadOk(s, s.tasks[a.i], u) && SharedTaskOk(s, s.tasks[a.i]);
    forall j | j in s'.tasks ensures OwnReadOk(s', s'.tasks[j], u) {
      if j != a.i { assert OwnReadOk(s, s.tasks[j], u); }
    }
  }

  lemma BoundedRead(s: Sys, a: Action, u: U64)
    requires !a.Update? && SharedInv(s) && s.total < TWO64 - 1 && Bounded(s, u) && OwnReadsOk(s, u)
    ensures var s' := Step(SharedUid, s, a);
            Bounded(s', u) && !Excessive(s, a, u) && OwnReadsOk(s', u)
  {
    hide UserOf;
    var s' := Step(SharedUid, s, a);
    assert a.i in s.tasks ==> OwnReadOk(s, s.tasks[a.i], u) && SharedTaskOk(s, s.tasks[a.i]);
    forall j | j in s'.tasks ensures OwnReadOk(s', s'.tasks[j], u) {
      if j != a.i { assert OwnReadOk(s, s.tasks[j], u); }
    }
  }

  /** Reads keep the bound, and so do updates that are not excessive; those that are break it. */
  lemma BoundedStep(s: Sys, a: Action, u: U64)
    requires SharedInv(s) && s.total < TWO64 - 1 && Bounded(s, u) && OwnReadsOk(s, u)
    ensures var s' := Step(SharedUid, s, a);
            && (Bounded(s', u) <==> !Excessive(s, a, u))
            && OwnReadsOk(s', u)
  {
    hide Step, SharedInv, Bounded, OwnReadsOk, Excessive;
    if a.Update? { BoundedUpdate(s, a, u); } else { BoundedRead(s, a, u); }
  }

  lemma {:induction false} AlwaysBoundedReads(acts: seq<Action>, u: U64)
    requires |acts| < TWO64 && AlwaysBounded(acts, u)
    ensures OwnReadsOk(Run(SharedUid, START, acts), u)
  {
    hide Step, SharedInv, OwnReadsOk, Bounded, Excessive;
    if acts != [] {
      var before := acts[..|acts| - 1];
      AlwaysBoundedReads(before, u);
      SharedRuns(before);
      BoundedStep(Run(SharedUid, START, before), acts[|acts| - 1], u);
    } else {
      StartBounded(u);
    }
  }

  lemma StartBounded(u: U64)
    ensures Bounded(START, u) && OwnReadsOk(START, u)
  {
  }

  /** With the global variable, the counter of u stays within the updates of u throughout a run
      if and only if no update copies too high a value over from another key. */
  lemma {:induction false} BoundedIffNoExcess(acts: seq<Action>, u: U64)
    requires |acts| < TWO64
    ensures AlwaysBounded(acts, u) <==> !AnyExcessive(acts, u)
  {
    hide Step, SharedInv, OwnReadsOk, Bounded, Excessive;
    if acts == [] {
      StartBounded(u);
    } else {
      var before := acts[..|acts| - 1];
      BoundedIffNoExcess(before, u);
      if AlwaysBounded(before, u) {
        AlwaysBoundedReads(before, u);
        SharedRuns(before);
        AtTheEnd(before, u);
        BoundedStep(Run(SharedUid, START, before), acts[|acts| - 1], u);
      }
    }
  }

  lemma AtTheEnd(acts: seq<Action>, u: U64)
    requires AlwaysBounded(acts, u)
    ensures Bounded(Run(SharedUid, START, acts), u)
  {
  }

  lemma {:induction false} ExcessIsForeign(acts: seq<Action>, u: U64)
    ensures AnyExcessive(acts, u) ==> AnyForeign(acts, u)
  {
    hide Step;
    if acts != [] { ExcessIsForeign(acts[..|acts| - 1], u); }
  }

  /** In particular the bound holds if nothing read from another key is ever written to u. */
  lemma BoundedWithoutForeign(acts: seq<Action>, u: U64)
    requires |acts| < TWO64 && !AnyForeign(acts, u)
    ensures CountIn(Run(SharedUid, START, acts).table, u) <= Done(Run(SharedUid, START, acts), u)
  {
    hide Run, AnyForeign, AnyExcessive;
    ExcessIsForeign(acts, u);
    BoundedIffNoExcess(acts, u);
    assert AlwaysBounded(acts, u);
  }

  /** But not only then: a miss under user 1, written under user 2, is 1 as it would be anyway. */
  lemma HarmlessForeign()
    ensures var acts := [Begin(0, 1), Lookup(0), Begin(1, 2), Deref(0)] + [Update(0, false)];
            AnyForeign(acts, 2) && !AnyExcessive(acts, 2)
  {
    hide Run, UserOf;
    SmallUser(1);
    SmallUser(2);
    var acts := [Begin(0, 1), Lookup(0), Begin(1, 2), Deref(0)];
    RunFour(SharedUid, START, Begin(0, 1), Lookup(0), Begin(1, 2), Deref(0));
    var s := Run(SharedUid, START, acts);
    assert s == Sys(map[], 2, map[0 := Counted(1, 1, 1, 0), 1 := Begun(2)], map[], 0);
    assert (acts + [Update(0, false)])[..4] == acts;
    NoUpdates(acts, 2);
  }

  lemma NoUpdates(acts: seq<Action>, u: U64)
    requires forall k :: 0 <= k < |acts| ==> !acts[k].Update?
    ensures !AnyExcessive(acts, u)
  {
    hide Run;
    if acts != [] { NoUpdates(acts[..|acts| - 1], u); }
  }
}
