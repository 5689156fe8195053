/**
 When the walk reaches the end within its limit: a complete record with weights bounds the
 number of instructions that the walk processes, however few states it prunes.
 */
module Acceptance {
  import opened Word
  import opened Isa
  import opened Machine
  import opened Abstract
  import opened Checker
  import opened Verifier
  import opened Pruning

  /** The number of ways on from slot pc. */
  function Fan(p: Program, pc: int): nat {
    if 0 <= pc < |p| && p[pc].JumpIf? then 2 else 1
  }

  /** The state t is dealt with by an earlier entry, with so small a weight that all ways on from
      entry i together weigh less than the entry. */
  predicate Lighter(p: Program, log: seq<Saved>, w: seq<nat>, i: nat, t: Saved)
    requires |w| == |log| && i < |log|
  {
    exists j :: 0 <= j < i && Includes(log[j], t) && w[i] > Fan(p, log[i].pc) * w[j]
  }

  predicate EntryWeighs(ld: Loaded, p: Program, log: seq<Saved>, w: seq<nat>, i: nat)
    requires |w| == |log| && i < |log|
  {
    var next := CheckAt(ld, p, log[i]);
    next.Some? && w[i] > 0 && forall k :: 0 <= k < |next.value| ==> Lighter(p, log, w, i, next.value[k])
  }

  predicate Weighted(ld: Loaded, p: Program, log: seq<Saved>, w: seq<nat>) {
    |w| == |log| && forall i: nat :: i < |log| ==> EntryWeighs(ld, p, log, w, i)
  }

  // ---- What the walk may have to process ----

  /** price(a, n): from a state a on, n instructions are enough. */
  type Price = (Saved, nat) -> bool

  /** After one instruction, n leaves the same share for each of the ways on. */
  predicate Shares(price: Price, next: seq<Saved>, n: nat, share: nat) {
    |next| * share < n && forall k :: 0 <= k < |next| ==> price(next[k], share)
  }

  ghost predicate Pays(ld: Loaded, p: Program, price: Price, a: Saved, n: nat) {
    CheckAt(ld, p, a).Some? && exists share :: Shares(price, CheckAt(ld, p, a).value, n, share)
  }

  ghost predicate Enough(ld: Loaded, p: Program, price: Price) {
    forall a, n: nat :: price(a, n) ==> Pays(ld, p, price, a, n)
  }

  /** Each visit on the stack has its price; the rest costs nothing. */
  predicate AllPriced(price: Price, stack: seq<Task>, costs: seq<nat>) {
    |costs| == |stack| && forall k :: 0 <= k < |stack| ==> stack[k].Visit? ==> price(stack[k].a, costs[k])
  }

  function Total(costs: seq<nat>): nat {
    if costs == [] then 0 else Total(costs[..|costs| - 1]) + costs[|costs| - 1]
  }

  lemma TotalLast(costs: seq<nat>, c: nat)
    ensures Total(costs + [c]) == Total(costs) + c
  {
    assert (costs + [c])[..|costs|] == costs;
  }

  lemma FanBound(ld: Loaded, p: Program, a: Saved)
    ensures var next := CheckAt(ld, p, a); next.Some? ==> |next.value| <= Fan(p, a.pc) <= 2
  {
    hide AluKind, LoadKind, CheckCall, CheckTest, Writable, SetBy;
  }

  /** The stack after a visit, with the prices of its tasks. */
  lemma Spread(price: Price, stack: seq<Task>, costs: seq<nat>, a: Saved, next: seq<Saved>, n: nat, share: nat)
    returns (costs': seq<nat>)
    requires AllPriced(price, stack, costs) && |next| <= 2 && Shares(price, next, n, share)
    ensures AllPriced(price, stack + [Retire(a)] + Visits(next), costs') && Total(costs') < Total(costs) + n
  {
    costs' := costs + [0];
    TotalLast(costs, 0);
    if |next| > 0 {
      TotalLast(costs', share);
      costs' := costs' + [share];
    }
    if |next| > 1 {
      TotalLast(costs', share);
      costs' := costs' + [share];
    }
  }

  /** With a price for all that is on the stack, the walk reaches the end. */
  lemma {:induction false} WalkAccepts(ld: Loaded, p: Program, price: Price, stack: seq<Task>, costs: seq<nat>,
                                       log: seq<Saved>, processed: nat, limit: nat)
    requires Enough(ld, p, price) && AllPriced(price, stack, costs) && processed + Total(costs) <= limit
    ensures Walk(ld, p, stack, log, processed, limit).Accepted?
    decreases limit - processed, |stack|
  {
    hide CheckAt, Covered, Shares;
    if stack != [] {
      var n := |stack| - 1;
      var a := stack[n].a;
      assert costs == costs[..n] + [costs[n]];
      TotalLast(costs[..n], costs[n]);
      if stack[n].Retire? {
        WalkAccepts(ld, p, price, stack[..n], costs[..n], log + [a], processed, limit);
      } else if Covered(log, |log|, a) {
        WalkAccepts(ld, p, price, stack[..n], costs[..n], log, processed, limit);
      } else {
        assert Pays(ld, p, price, a, costs[n]);
        var next := CheckAt(ld, p, a).value;
        var share :| Shares(price, next, costs[n], share);
        FanBound(ld, p, a);
        var costs' := Spread(price, stack[..n], costs[..n], a, next, costs[n], share);
        WalkAccepts(ld, p, price, stack[..n] + [Retire(a)] + Visits(next), costs', log, processed + 1, limit);
      }
    }
  }

  lemma PricedAccepted(ld: Loaded, p: Program, price: Price, n: nat, limit: nat)
    requires Enough(ld, p, price) && price(ENTRY, n) && n <= limit
    ensures Walk(ld, p, [Visit(ENTRY)], [], 0, limit).Accepted?
  {
    hide Enough, Walk;
    TotalLast([], n);
    assert [] + [n] == [n];
    WalkAccepts(ld, p, price, [Visit(ENTRY)], [n], [], 0, limit);
  }

  // ---- Weighted records ----

  lemma OneOrTwo(p: Program, pc: int)
    ensures Fan(p, pc) == 1 || Fan(p, pc) == 2
  {
  }

  lemma SamePc(a: Saved, b: Saved)
    requires Within(a, b)
    ensures a.pc == b.pc
  {
  }

  lemma Onward(a: Saved, b: Saved, c: Saved)
    requires Includes(a, b) && Within(b, c)
    ensures Within(a, c)
  {
    hide Includes, Sane;
    Transitive(a, b, c);
  }

  /** A state costs no more than an entry that includes it weighs. */
  predicate Costs(log: seq<Saved>, w: seq<nat>, a: Saved, n: nat)
    requires |w| == |log|
  {
    exists c :: 0 <= c < |log| && Within(log[c], a) && w[c] <= n
  }

  lemma WeightShared(ld: Loaded, p: Program, log: seq<Saved>, w: seq<nat>, a: Saved, n: nat) returns (share: nat)
    requires Weighted(ld, p, log, w) && Costs(log, w, a, n)
    ensures CheckAt(ld, p, a).Some?
    ensures var next := CheckAt(ld, p, a).value;
            |next| * share < n && forall k :: 0 <= k < |next| ==> Costs(log, w, next[k], share)
  {
    hide CheckAt, Includes, Within, Fan;
    var c :| 0 <= c < |log| && Within(log[c], a) && w[c] <= n;
    assert EntryWeighs(ld, p, log, w, c);
    CheckAtWithin(ld, p, log[c], a);
    FanBound(ld, p, a);
    SamePc(log[c], a);
    OneOrTwo(p, a.pc);
    var fan := Fan(p, a.pc);
    share := if fan == 2 then (w[c] - 1) / 2 else w[c] - 1;
    var all, next := CheckAt(ld, p, log[c]).value, CheckAt(ld, p, a).value;
    forall k | 0 <= k < |next| ensures Costs(log, w, next[k], share) {
      assert Below(all, next[k]);
      var m :| 0 <= m < |all| && Within(all[m], next[k]);
      assert Lighter(p, log, w, c, all[m]);
      var j :| 0 <= j < c && Includes(log[j], all[m]) && w[c] > fan * w[j];
      Onward(log[j], all[m], next[k]);
      assert w[j] <= share;
    }
    if |next| == 2 { assert fan == 2; }
  }

  /** A program with a weighted record is accepted within the weight of the entry that includes
      its initial state. */
  lemma WeightedAccepted(ld: Loaded, p: Program, cert: seq<Saved>, w: seq<nat>, i: nat, limit: nat)
    requires Weighted(ld, p, cert, w) && i < |cert| && Includes(cert[i], ENTRY) && w[i] <= limit
    ensures Walk(ld, p, [Visit(ENTRY)], [], 0, limit).Accepted?
  {
    hide Includes, Walk, CheckAt, EntryWeighs;
    SaneEntry();
    assert Within(cert[i], ENTRY);
    hide Within;
    var price := (a, n: nat) => Costs(cert, w, a, n);
    forall a, n: nat | price(a, n) ensures Pays(ld, p, price, a, n) {
      var share := WeightShared(ld, p, cert, w, a, n);
      assert Shares(price, CheckAt(ld, p, a).value, n, share);
    }
    PricedAccepted(ld, p, price, w[i], limit);
  }

  lemma LighterBy(p: Program, log: seq<Saved>, w: seq<nat>, i: nat, j: nat, t: Saved)
    requires |w| == |log| && j < i < |log| && Includes(log[j], t) && w[i] > Fan(p, log[i].pc) * w[j]
    ensures Lighter(p, log, w, i, t)
  {
  }

  /** A weighted record is a complete record. */
  lemma WeightedCertified(ld: Loaded, p: Program, log: seq<Saved>, w: seq<nat>, i: nat)
    requires Weighted(ld, p, log, w) && i < |log| && Includes(log[i], ENTRY)
    ensures Certified(ld, p, log)
  {
    hide CheckAt, Includes, Fan;
    forall i: nat | i < |log| ensures EntryOk(ld, p, log, i) {
      assert EntryWeighs(ld, p, log, w, i);
      var next := CheckAt(ld, p, log[i]).value;
      forall k | 0 <= k < |next| ensures Covered(log, i, next[k]) { assert Lighter(p, log, w, i, next[k]); }
    }
  }

  // ---- Larger limits ----

  /** What the walk has decided within a limit it decides alike within every larger one. */
  lemma {:induction false} LargerLimit(ld: Loaded, p: Program, stack: seq<Task>, log: seq<Saved>, processed: nat, limit: nat, more: nat)
    requires processed <= limit <= more && !Walk(ld, p, stack, log, processed, limit).TooLong?
    ensures Walk(ld, p, stack, log, processed, more) == Walk(ld, p, stack, log, processed, limit)
    decreases limit - processed, |stack|
  {
    hide CheckAt, Covered;
    if stack != [] {
      var n := |stack| - 1;
      var a := stack[n].a;
      if stack[n].Retire? {
        LargerLimit(ld, p, stack[..n], log + [a], processed, limit, more);
      } else if Covered(log, |log|, a) {
        LargerLimit(ld, p, stack[..n], log, processed, limit, more);
      } else if CheckAt(ld, p, a).Some? {
        LargerLimit(ld, p, stack[..n] + [Retire(a)] + Visits(CheckAt(ld, p, a).value), log, processed + 1, limit, more);
      }
    }
  }

  // ---- Exactly which programs some limit suffices for ----

  /** No path from the entry is longer than n, and the check passes at the end of each. */
  ghost predicate PathsPass(ld: Loaded, p: Program, n: nat) {
    forall path :: IsPath(ld, p, path) ==> |path| <= n && CheckAt(ld, p, path[|path| - 1]).Some?
  }

  /** The same for the ways on from a. */
  predicate Passes(ld: Loaded, p: Program, a: Saved, n: nat)
    decreases n, a
  {
    n > 0 && CheckAt(ld, p, a).Some? && forall k :: 0 <= k < |CheckAt(ld, p, a).value| ==> Passes(ld, p, CheckAt(ld, p, a).value[k], n - 1)
  }

  lemma LongerPath(ld: Loaded, p: Program, path: seq<Saved>, b: Saved)
    requires IsPath(ld, p, path) && Follows(ld, p, path[|path| - 1], b)
    ensures IsPath(ld, p, path + [b])
  {
    hide Follows;
  }

  lemma {:induction false} AllPassFrom(ld: Loaded, p: Program, path: seq<Saved>, n: nat)
    requires PathsPass(ld, p, n) && IsPath(ld, p, path)
    ensures |path| <= n && Passes(ld, p, path[|path| - 1], n + 1 - |path|)
    decreases n - |path|
  {
    hide CheckAt;
    var a := path[|path| - 1];
    var next := CheckAt(ld, p, a).value;
    forall k | 0 <= k < |next| ensures Passes(ld, p, next[k], n - |path|) {
      assert next[k] in next;
      LongerPath(ld, p, path, next[k]);
      assert |path + [next[k]]| <= n;
      AllPassFrom(ld, p, path + [next[k]], n);
    }
  }

  /** Two ways on from each state at most: the paths of length n are a tree of 2^n - 1 states. */
  ghost predicate TreePrice(ld: Loaded, p: Program, a: Saved, n: nat) {
    exists d: nat :: Passes(ld, p, a, d) && Pow2(d) - 1 <= n
  }

  lemma TreePays(ld: Loaded, p: Program, price: Price, a: Saved, n: nat)
    requires price == ((b, m: nat) => TreePrice(ld, p, b, m)) && TreePrice(ld, p, a, n)
    ensures Pays(ld, p, price, a, n)
  {
    hide CheckAt, Pow2;
    var d: nat :| Passes(ld, p, a, d) && Pow2(d) - 1 <= n;
    var next := CheckAt(ld, p, a).value;
    Pow2Doubles(d);
    FanBound(ld, p, a);
    var share := Pow2(d - 1) - 1;
    assert Shares(price, next, n, share);
  }

  /** If no path is longer than n and all checks pass, a limit of 2^n - 1 suffices. */
  lemma ShortPathsAccepted(ld: Loaded, p: Program, n: nat, limit: nat)
    requires PathsPass(ld, p, n) && Pow2(n) - 1 <= limit
    ensures Walk(ld, p, [Visit(ENTRY)], [], 0, limit).Accepted?
  {
    hide Walk, CheckAt, Pow2, Pays;
    assert IsPath(ld, p, [ENTRY]);
    AllPassFrom(ld, p, [ENTRY], n);
    var price := (a, m: nat) => TreePrice(ld, p, a, m);
    forall a, m: nat | price(a, m) ensures Pays(ld, p, price, a, m) { TreePays(ld, p, price, a, m); }
    assert Passes(ld, p, ENTRY, n) && TreePrice(ld, p, ENTRY, limit);
    PricedAccepted(ld, p, price, limit, limit);
  }

  /** What is accepted within a limit has no path longer than the limit. */
  lemma AcceptedPathsShort(ld: Loaded, p: Program, limit: nat)
    requires Walk(ld, p, [Visit(ENTRY)], [], 0, limit).Accepted?
    ensures PathsPass(ld, p, limit)
  {
    WalkFromEntry(ld, p, limit);
    var log := Walk(ld, p, [Visit(ENTRY)], [], 0, limit).log;
    hide CheckAt, Walk, Certified, IsPath, Within;
    forall path | IsPath(ld, p, path) ensures |path| <= limit && CheckAt(ld, p, path[|path| - 1]).Some? {
      var j := PathCovered(ld, p, log, path);
      assert Reached(ld, p, path[|path| - 1]);
      CertifiedPaths(ld, p, log, path[|path| - 1]);
    }
  }

  /** Some limit suffices for a program if and only if the lengths of its paths have a bound
      and the check passes at the end of each. */
  lemma AcceptedIffPathsBounded(ld: Loaded, p: Program)
    ensures (exists limit: nat :: Walk(ld, p, [Visit(ENTRY)], [], 0, limit).Accepted?) <==> (exists n: nat :: PathsPass(ld, p, n))
  {
    hide Walk, PathsPass, Pow2;
    if limit: nat :| Walk(ld, p, [Visit(ENTRY)], [], 0, limit).Accepted? { AcceptedPathsShort(ld, p, limit); }
    if n: nat :| PathsPass(ld, p, n) {
      assert Pow2(n) > 0;
      ShortPathsAccepted(ld, p, n, Pow2(n) - 1);
      assert Walk(ld, p, [Visit(ENTRY)], [], 0, Pow2(n) - 1).Accepted?;
    }
  }

  // ---- Programs that no limit suffices for ----

  /** From a state of the set c, one of the ways on stays in c. */
  predicate GoesOn(ld: Loaded, p: Program, c: Saved -> bool, a: Saved) {
    var next := CheckAt(ld, p, a);
    next.Some? && exists k :: 0 <= k < |next.value| && c(next.value[k])
  }

  /** From a state of the set c, the check passes and all ways on stay in c. */
  predicate StaysIn(ld: Loaded, p: Program, c: Saved -> bool, a: Saved) {
    var next := CheckAt(ld, p, a);
    next.Some? && forall k :: 0 <= k < |next.value| ==> c(next.value[k])
  }

  /** No record deals with a state from which the walk can go on forever: entries only refer back. */
  lemma {:induction false} EndlessUncovered(ld: Loaded, p: Program, c: Saved -> bool, log: seq<Saved>, i: nat, a: Saved)
    requires LogOk(ld, p, log) && i < |log| && c(a) && (forall b :: c(b) ==> GoesOn(ld, p, c, b))
    ensures !Within(log[i], a)
    decreases i
  {
    hide CheckAt, Includes, Sane;
    if Within(log[i], a) {
      assert GoesOn(ld, p, c, a);
      var next := CheckAt(ld, p, a).value;
      var k :| 0 <= k < |next| && c(next[k]);
      assert Follows(ld, p, a, next[k]) by { assert next[k] in next; }
      assert EntryOk(ld, p, log, i);
      CheckAtWithin(ld, p, log[i], a);
      var j := NextCovered(ld, p, log, i, a, next[k]);
      EndlessUncovered(ld, p, c, log, j, next[k]);
    }
  }

  lemma {:induction false} PathStays(ld: Loaded, p: Program, c: Saved -> bool, path: seq<Saved>)
    requires IsPath(ld, p, path) && c(ENTRY) && (forall b :: c(b) ==> StaysIn(ld, p, c, b))
    ensures c(path[|path| - 1])
    decreases |path|
  {
    hide CheckAt;
    var n := |path| - 1;
    if n > 0 {
      assert path[n] == path[n] && Follows(ld, p, path[n - 1], path[n]);
      ShorterPath(ld, p, path);
      PathStays(ld, p, c, path[..n]);
      assert StaysIn(ld, p, c, path[n - 1]);
    }
  }

  /** If the walk can go on forever from the entry, and the check passes wherever it goes, then
      it meets every limit. */
  lemma EndlessIsTooLong(ld: Loaded, p: Program, c: Saved -> bool, all: Saved -> bool, limit: nat)
    requires c(ENTRY) && forall b :: c(b) ==> GoesOn(ld, p, c, b)
    requires all(ENTRY) && forall b :: all(b) ==> StaysIn(ld, p, all, b)
    ensures Walk(ld, p, [Visit(ENTRY)], [], 0, limit).TooLong?
  {
    hide Walk, CheckAt, Includes, Sane;
    WalkFromEntry(ld, p, limit);
    SaneEntry();
    var r := Walk(ld, p, [Visit(ENTRY)], [], 0, limit);
    if r.Accepted? {
      var i :| 0 <= i < |r.log| && Includes(r.log[i], ENTRY);
      EndlessUncovered(ld, p, c, r.log, i, ENTRY);
    } else if r.Refused? {
      var path :| IsPath(ld, p, path) && path[|path| - 1] == r.at;
      PathStays(ld, p, all, path);
    }
  }
}
