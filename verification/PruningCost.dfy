/**
 What pruning saves: the walk processes each state at most once, so a limit of as many
 instructions as there are states suffices, however many paths lead through them.
 */
module PruningCost {
  import opened Isa
  import opened Machine
  import opened Abstract
  import opened Checker
  import opened Verifier
  import opened Pruning
  import opened Acceptance

  // ---- How far a state is from the end ----

  lemma {:induction false} PassesLonger(ld: Loaded, p: Program, a: Saved, m: nat, n: nat)
    requires Passes(ld, p, a, m) && m <= n
    ensures Passes(ld, p, a, n)
    decreases m
  {
    hide CheckAt;
    var next := CheckAt(ld, p, a).value;
    forall k | 0 <= k < |next| ensures Passes(ld, p, next[k], n - 1) { PassesLonger(ld, p, next[k], m - 1, n - 1); }
  }

  ghost predicate Ends(ld: Loaded, p: Program, a: Saved) {
    exists n: nat :: Passes(ld, p, a, n)
  }

  ghost function Least(ld: Loaded, p: Program, a: Saved, n: nat): (d: nat)
    requires Passes(ld, p, a, n)
    ensures Passes(ld, p, a, d) && d > 0 && !Passes(ld, p, a, d - 1)
    decreases n, a
  {
    hide CheckAt;
    if Passes(ld, p, a, n - 1) then Least(ld, p, a, n - 1) else n
  }

  /** The length of the longest path from a. */
  ghost function Height(ld: Loaded, p: Program, a: Saved): (d: nat)
    requires Ends(ld, p, a)
    ensures Passes(ld, p, a, d) && d > 0 && !Passes(ld, p, a, d - 1)
  {
    hide Passes;
    var n: nat :| Passes(ld, p, a, n);
    Least(ld, p, a, n)
  }

  lemma HeightDrops(ld: Loaded, p: Program, a: Saved, k: nat)
    requires Ends(ld, p, a) && CheckAt(ld, p, a).Some? && k < |CheckAt(ld, p, a).value|
    ensures var b := CheckAt(ld, p, a).value[k]; Ends(ld, p, b) && Height(ld, p, b) < Height(ld, p, a)
  {
    hide CheckAt;
    var b, d := CheckAt(ld, p, a).value[k], Height(ld, p, a);
    assert Passes(ld, p, b, d - 1);
    hide Passes;
    if Height(ld, p, b) >= d { PassesLonger(ld, p, b, d - 1, Height(ld, p, b) - 1); }
  }

  // ---- Nothing is processed twice ----

  /** What is above a state on the stack is nearer to the end. */
  ghost predicate Descends(ld: Loaded, p: Program, stack: seq<Task>) {
    && (forall k :: 0 <= k < |stack| ==> Ends(ld, p, stack[k].a))
    && (forall k, m :: 0 <= k < m < |stack| && stack[k].Retire? ==> Height(ld, p, stack[m].a) < Height(ld, p, stack[k].a))
  }

  /** The states processed so far: those dealt with, and those that wait for their successors. */
  function Processed(stack: seq<Task>, log: seq<Saved>): set<Saved> {
    (set a | a in log) + (set k | 0 <= k < |stack| && stack[k].Retire? :: stack[k].a)
  }

  lemma IncludesSelf(a: Saved)
    ensures Includes(a, a)
  {
  }

  lemma LoggedCovered(log: seq<Saved>, a: Saved)
    requires a in log
    ensures Covered(log, |log|, a)
  {
    hide Includes;
    IncludesSelf(a);
    var j :| 0 <= j < |log| && log[j] == a;
    assert Includes(log[j], a);
  }

  lemma NotYet(ld: Loaded, p: Program, stack: seq<Task>, log: seq<Saved>)
    requires stack != [] && stack[|stack| - 1].Visit? && Descends(ld, p, stack) && !Covered(log, |log|, stack[|stack| - 1].a)
    ensures stack[|stack| - 1].a !in Processed(stack, log)
  {
    hide Covered, Height, Ends;
    var a := stack[|stack| - 1].a;
    if a in log { LoggedCovered(log, a); }
  }

  lemma DescendsOn(ld: Loaded, p: Program, stack: seq<Task>)
    requires stack != [] && Descends(ld, p, stack) && CheckAt(ld, p, stack[|stack| - 1].a).Some?
    ensures var n := |stack| - 1;
            Descends(ld, p, stack[..n] + [Retire(stack[n].a)] + Visits(CheckAt(ld, p, stack[n].a).value))
  {
    hide CheckAt, Height, Ends;
    var n := |stack| - 1;
    var a, next := stack[n].a, CheckAt(ld, p, stack[n].a).value;
    var after := stack[..n] + [Retire(a)] + Visits(next);
    forall k | 0 <= k < |next| ensures Ends(ld, p, next[k]) && Height(ld, p, next[k]) < Height(ld, p, a) { HeightDrops(ld, p, a, k); }
    assert forall k :: 0 <= k <= n ==> after[k].a == stack[k].a;
    assert forall k :: n < k < |after| ==> after[k] == Visit(next[k - n - 1]);
  }

  lemma Retiring(stack: seq<Task>, log: seq<Saved>)
    requires stack != [] && stack[|stack| - 1].Retire?
    ensures Processed(stack[..|stack| - 1], log + [stack[|stack| - 1].a]) == Processed(stack, log)
  {
    var n := |stack| - 1;
    var rest := stack[..n];
    forall a ensures a in Processed(rest, log + [stack[n].a]) <==> a in Processed(stack, log) {
      if k :| 0 <= k < |stack| && stack[k].Retire? && stack[k].a == a {
        if k < n { assert rest[k].a == a; }
      }
      if k :| 0 <= k < |rest| && rest[k].Retire? && rest[k].a == a { assert stack[k].a == a; }
    }
  }

  lemma Dropping(stack: seq<Task>, log: seq<Saved>)
    requires stack != [] && stack[|stack| - 1].Visit?
    ensures Processed(stack[..|stack| - 1], log) == Processed(stack, log)
  {
    var rest := stack[..|stack| - 1];
    forall a ensures a in Processed(rest, log) <==> a in Processed(stack, log) {
      if k :| 0 <= k < |stack| && stack[k].Retire? && stack[k].a == a { assert rest[k].a == a; }
      if k :| 0 <= k < |rest| && rest[k].Retire? && rest[k].a == a { assert stack[k].a == a; }
    }
  }

  lemma Expanding(stack: seq<Task>, log: seq<Saved>, next: seq<Saved>)
    requires stack != [] && stack[|stack| - 1].Visit?
    ensures var n := |stack| - 1;
            Processed(stack[..n] + [Retire(stack[n].a)] + Visits(next), log) == Processed(stack, log) + {stack[n].a}
  {
    var n := |stack| - 1;
    var after := stack[..n] + [Retire(stack[n].a)] + Visits(next);
    assert forall k :: n < k < |after| ==> after[k] == Visit(next[k - n - 1]);
    forall a ensures a in Processed(after, log) <==> a in Processed(stack, log) + {stack[n].a} {
      if k :| 0 <= k < |stack| && stack[k].Retire? && stack[k].a == a { assert after[k].a == a; }
      if k :| 0 <= k < |after| && after[k].Retire? && after[k].a == a { assert k < n ==> stack[k].a == a; }
      assert after[n].a == stack[n].a;
    }
  }

  lemma {:induction false} SubsetSize<T>(a: set<T>, b: set<T>)
    requires a <= b
    ensures |a| <= |b|
    decreases a
  {
    if a != {} {
      var x :| x in a;
      SubsetSize(a - {x}, b - {x});
    }
  }

  /** The states processed are distinct states of s, so the walk comes to its end. */
  lemma {:induction false} WalkWithin(ld: Loaded, p: Program, s: set<Saved>, stack: seq<Task>, log: seq<Saved>, processed: nat, limit: nat)
    requires Descends(ld, p, stack) && AllReached(ld, p, stack) && forall a :: Reached(ld, p, a) ==> a in s
    requires Processed(stack, log) <= s && |Processed(stack, log)| == processed && |s| <= limit && processed <= limit
    ensures Walk(ld, p, stack, log, processed, limit).Accepted?
    decreases limit - processed, |stack|
  {
    hide CheckAt, Covered, Reached, Height, Processed, Passes;
    if stack != [] {
      var n := |stack| - 1;
      var a := stack[n].a;
      if stack[n].Retire? {
        Retiring(stack, log);
        WalkWithin(ld, p, s, stack[..n], log + [a], processed, limit);
      } else if Covered(log, |log|, a) {
        Dropping(stack, log);
        WalkWithin(ld, p, s, stack[..n], log, processed, limit);
      } else {
        NotYet(ld, p, stack, log);
        CheckPasses(ld, p, a);
        var next := CheckAt(ld, p, a).value;
        Expanding(stack, log, next);
        assert Reached(ld, p, a);
        SubsetSize(Processed(stack, log) + {a}, s);
        DescendsOn(ld, p, stack);
        StillReached(ld, p, stack, next);
        WalkWithin(ld, p, s, stack[..n] + [Retire(a)] + Visits(next), log, processed + 1, limit);
      }
    }
  }

  lemma CheckPasses(ld: Loaded, p: Program, a: Saved)
    requires Ends(ld, p, a)
    ensures CheckAt(ld, p, a).Some?
  {
    hide CheckAt;
    var n: nat :| Passes(ld, p, a, n);
  }

  /** If the paths of a program are bounded and the check passes at the end of each, a limit of as
      many instructions as there are states on them suffices. */
  lemma StatesSuffice(ld: Loaded, p: Program, n: nat, s: set<Saved>, limit: nat)
    requires PathsPass(ld, p, n) && (forall a :: Reached(ld, p, a) ==> a in s) && |s| <= limit
    ensures Walk(ld, p, [Visit(ENTRY)], [], 0, limit).Accepted?
  {
    hide Walk, CheckAt, Passes, Reached;
    assert IsPath(ld, p, [ENTRY]);
    AllPassFrom(ld, p, [ENTRY], n);
    assert Passes(ld, p, ENTRY, n);
    EntryReached(ld, p);
    assert Processed([Visit(ENTRY)], []) == {};
    WalkWithin(ld, p, s, [Visit(ENTRY)], [], 0, limit);
  }

  // ---- Nothing is processed that an earlier state includes ----

  lemma {:induction false} PassesWithin(ld: Loaded, p: Program, a: Saved, b: Saved, n: nat)
    requires Passes(ld, p, a, n) && Within(a, b)
    ensures Passes(ld, p, b, n)
    decreases n
  {
    hide CheckAt, Within;
    CheckAtWithin(ld, p, a, b);
    var all, next := CheckAt(ld, p, a).value, CheckAt(ld, p, b).value;
    forall k | 0 <= k < |next| ensures Passes(ld, p, next[k], n - 1) {
      assert Below(all, next[k]);
      var j :| 0 <= j < |all| && Within(all[j], next[k]);
      PassesWithin(ld, p, all[j], next[k], n - 1);
    }
  }

  /** What includes a state is at least as far from the end. */
  lemma HeightWithin(ld: Loaded, p: Program, a: Saved, b: Saved)
    requires Ends(ld, p, a) && Ends(ld, p, b) && Includes(a, b) && Sane(b)
    ensures Height(ld, p, b) <= Height(ld, p, a)
  {
    hide Passes, Includes, Sane;
    PassesWithin(ld, p, a, b, Height(ld, p, a));
    if Height(ld, p, b) > Height(ld, p, a) { PassesLonger(ld, p, b, Height(ld, p, a), Height(ld, p, b) - 1); }
  }

  lemma SaneOn(ld: Loaded, p: Program, a: Saved)
    requires Sane(a) && CheckAt(ld, p, a).Some?
    ensures forall k :: 0 <= k < |CheckAt(ld, p, a).value| ==> Sane(CheckAt(ld, p, a).value[k])
  {
    hide CheckAt, Includes, Sane;
    IncludesSelf(a);
    CheckAtWithin(ld, p, a, a);
    var next := CheckAt(ld, p, a).value;
    forall k | 0 <= k < |next| ensures Sane(next[k]) {
      assert Below(next, next[k]);
    }
  }

  predicate AllSane(stack: seq<Task>) {
    forall k :: 0 <= k < |stack| ==> Sane(stack[k].a)
  }

  /** No state that waits is included in one that was dealt with. */
  predicate Fresh(stack: seq<Task>, log: seq<Saved>) {
    forall k :: 0 <= k < |stack| && stack[k].Retire? ==> !Covered(log, |log|, stack[k].a)
  }

  /** No entry is included in an earlier one. */
  predicate Irredundant(log: seq<Saved>) {
    forall i, j :: 0 <= i < j < |log| ==> !Includes(log[i], log[j])
  }

  lemma CoveredOrLast(log: seq<Saved>, a: Saved, t: Saved)
    requires Covered(log + [a], |log| + 1, t)
    ensures Covered(log, |log|, t) || Includes(a, t)
  {
    hide Includes;
    var all := log + [a];
    var j :| 0 <= j < |all| && Includes(all[j], t);
    if j < |log| { assert Includes(log[j], t); }
  }

  lemma NotCovered(log: seq<Saved>, i: nat, a: Saved)
    requires i < |log| && !Covered(log, |log|, a)
    ensures !Includes(log[i], a)
  {
    hide Includes;
  }

  lemma RetiredFresh(ld: Loaded, p: Program, stack: seq<Task>, log: seq<Saved>)
    requires stack != [] && stack[|stack| - 1].Retire? && Descends(ld, p, stack) && AllSane(stack) && Fresh(stack, log) && Irredundant(log)
    ensures var n := |stack| - 1; Fresh(stack[..n], log + [stack[n].a]) && Irredundant(log + [stack[n].a])
  {
    hide Includes, Sane, Ends, Height, Covered;
    var n := |stack| - 1;
    var a := stack[n].a;
    var log' := log + [a];
    forall k | 0 <= k < n && stack[k].Retire? ensures !Covered(log', |log'|, stack[k].a) {
      if Covered(log', |log'|, stack[k].a) {
        CoveredOrLast(log, a, stack[k].a);
        HeightWithin(ld, p, a, stack[k].a);
      }
    }
    forall i | 0 <= i < |log| ensures !Includes(log[i], a) { NotCovered(log, i, a); }
  }

  lemma ExpandedFresh(ld: Loaded, p: Program, stack: seq<Task>, log: seq<Saved>)
    requires stack != [] && AllSane(stack) && Fresh(stack, log) && !Covered(log, |log|, stack[|stack| - 1].a)
    requires CheckAt(ld, p, stack[|stack| - 1].a).Some?
    ensures var n := |stack| - 1;
            var after := stack[..n] + [Retire(stack[n].a)] + Visits(CheckAt(ld, p, stack[n].a).value);
            AllSane(after) && Fresh(after, log)
  {
    hide CheckAt, Covered, Sane;
    var n := |stack| - 1;
    SaneOn(ld, p, stack[n].a);
    var next := CheckAt(ld, p, stack[n].a).value;
    var after := stack[..n] + [Retire(stack[n].a)] + Visits(next);
    assert forall k :: n < k < |after| ==> after[k] == Visit(next[k - n - 1]);
    assert forall k :: 0 <= k < n ==> after[k] == stack[k];
  }

  lemma {:induction false} WalkPrunes(ld: Loaded, p: Program, stack: seq<Task>, log: seq<Saved>, processed: nat, limit: nat)
    requires Descends(ld, p, stack) && AllSane(stack) && Fresh(stack, log) && Irredundant(log) && processed <= limit
    ensures var r := Walk(ld, p, stack, log, processed, limit); r.Accepted? ==> Irredundant(r.log)
    decreases limit - processed, |stack|
  {
    hide CheckAt, Covered, Sane, Irredundant, Height, Ends;
    if stack != [] {
      var n := |stack| - 1;
      var a := stack[n].a;
      if stack[n].Retire? {
        RetiredFresh(ld, p, stack, log);
        WalkPrunes(ld, p, stack[..n], log + [a], processed, limit);
      } else if Covered(log, |log|, a) {
        WalkPrunes(ld, p, stack[..n], log, processed, limit);
      } else if processed < limit && CheckAt(ld, p, a).Some? {
        DescendsOn(ld, p, stack);
        ExpandedFresh(ld, p, stack, log);
        WalkPrunes(ld, p, stack[..n] + [Retire(a)] + Visits(CheckAt(ld, p, a).value), log, processed + 1, limit);
      }
    }
  }

  /** Of what the walk has processed, no state is included in one that it had dealt with before. */
  lemma NothingTwice(ld: Loaded, p: Program, limit: nat)
    ensures var r := Walk(ld, p, [Visit(ENTRY)], [], 0, limit);
            r.Accepted? ==> forall i, j :: 0 <= i < j < |r.log| ==> !Includes(r.log[i], r.log[j])
  {
    hide Walk, CheckAt, Includes, Covered, Passes;
    if Walk(ld, p, [Visit(ENTRY)], [], 0, limit).Accepted? {
      AcceptedPathsShort(ld, p, limit);
      assert IsPath(ld, p, [ENTRY]);
      AllPassFrom(ld, p, [ENTRY], limit);
      assert Passes(ld, p, ENTRY, limit);
      SaneEntry();
      WalkPrunes(ld, p, [Visit(ENTRY)], [], 0, limit);
    }
  }
}
