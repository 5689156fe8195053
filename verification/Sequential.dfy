/** Invocations of hello one after another: what the table holds after any sequence of events. */
module Sequential {
  import opened Word
  import opened Counter

  /** What one event supplies: the answer of the uid helper, and whether the kernel refuses the update. */
  datatype Call = Call(uidGid: U64, refuse: bool)

  function AfterCalls(t: CTable, calls: seq<Call>): CTable {
    if calls == [] then t else
    var c := calls[|calls| - 1];
    AfterHello(AfterCalls(t, calls[..|calls| - 1]), c.uidGid, c.refuse)
  }

  method Serve(p: CounterProgram, calls: seq<Call>)
    modifies p
    ensures p.counterTable == AfterCalls(old(p.counterTable), calls)
  {
    for i := 0 to |calls|
      invariant p.counterTable == AfterCalls(old(p.counterTable), calls[..i])
    {
      var ret := p.Hello(calls[i].uidGid, calls[i].refuse);
      assert calls[..i + 1][..i] == calls[..i];
    }
    assert calls[..|calls|] == calls;
  }

  /** The update of the last call is accepted. */
  predicate LastAccepted(t: CTable, calls: seq<Call>)
    requires calls != []
  {
    var n := |calls| - 1;
    Admits(AfterCalls(t, calls[..n]), UserOf(calls[n].uidGid), calls[n].refuse)
  }

  function Rejected(t: CTable, calls: seq<Call>): nat {
    if calls == [] then 0 else Rejected(t, calls[..|calls| - 1]) + if LastAccepted(t, calls) then 0 else 1
  }

  function AcceptedOf(t: CTable, calls: seq<Call>, u: U64): nat {
    if calls == [] then 0 else
    var n := |calls| - 1;
    AcceptedOf(t, calls[..n], u) + if UserOf(calls[n].uidGid) == u && LastAccepted(t, calls) then 1 else 0
  }

  function CallsOf(calls: seq<Call>, u: U64): nat {
    if calls == [] then 0 else
    var n := |calls| - 1;
    CallsOf(calls[..n], u) + if UserOf(calls[n].uidGid) == u then 1 else 0
  }

  // ---- The sum of all counters ----

  ghost function Sum(t: map<U64, nat>): nat
    decreases |t|
  {
    if t == map[] then 0 else
    var k :| k in t;
    Smaller(t, k);
    t[k] + Sum(t - {k})
  }

  lemma Smaller(t: map<U64, nat>, k: U64)
    requires k in t
    ensures |t - {k}| < |t|
  {
    assert (t - {k}).Keys == t.Keys - {k};
    assert |t.Keys - {k}| == |t.Keys| - 1;
  }

  /** The order in which a sum is taken does not matter. */
  lemma {:induction false} SumWithout(t: map<U64, nat>, k: U64)
    requires k in t
    ensures Sum(t) == t[k] + Sum(t - {k})
    decreases |t|
  {
    var j: U64 :| j in t && Sum(t) == t[j] + Sum(t - {j});
    if j != k {
      Smaller(t, j);
      Smaller(t, k);
      SumWithout(t - {j}, k);
      SumWithout(t - {k}, j);
      assert t - {j} - {k} == t - {k} - {j};
    }
  }

  lemma SumUpdate(t: map<U64, nat>, u: U64, n: nat)
    ensures Sum(t[u := n]) == Sum(t) - (if u in t then t[u] else 0) + n
  {
    SumWithout(t[u := n], u);
    if u in t {
      SumWithout(t, u);
      assert t[u := n] - {u} == t - {u};
    } else {
      assert t[u := n] - {u} == t;
    }
  }

  lemma CountBelowSum(t: CTable, u: U64)
    ensures CountIn(t, u) <= Sum(t)
  {
    if u in t { SumWithout(t, u); }
  }

  /** An accepted event adds one to one counter. */
  lemma SumOfNext(t: CTable, u: U64)
    requires Sum(t) < TWO64 - 1
    ensures Sum(t[u := NextCount(t, u)]) == Sum(t) + 1
  {
    hide Sum;
    CountBelowSum(t, u);
    SumUpdate(t, u, NextCount(t, u));
  }

  lemma {:induction false} SumGrows(t: CTable, calls: seq<Call>)
    requires Sum(t) + |calls| < TWO64
    ensures Sum(AfterCalls(t, calls)) + Rejected(t, calls) == Sum(t) + |calls|
    decreases |calls|
  {
    hide UserOf, Sum, NextCount, Admits;
    if calls != [] {
      var n := |calls| - 1;
      SumGrows(t, calls[..n]);
      var before, u := AfterCalls(t, calls[..n]), UserOf(calls[n].uidGid);
      if LastAccepted(t, calls) { SumOfNext(before, u); }
    }
  }

  lemma EmptySum()
    ensures Sum(map[]) == 0
  {
  }

  /** Conservation: every event is either counted or rejected. */
  lemma Conservation(calls: seq<Call>)
    requires |calls| < TWO64
    ensures Sum(AfterCalls(map[], calls)) + Rejected(map[], calls) == |calls|
  {
    hide Sum, AfterCalls, Rejected;
    EmptySum();
    SumGrows(map[], calls);
  }

  /** A counter is the number of the user's accepted events. */
  lemma {:induction false} CounterIsAccepted(calls: seq<Call>, u: U64)
    requires |calls| < TWO64
    ensures CountIn(AfterCalls(map[], calls), u) == AcceptedOf(map[], calls, u) <= |calls|
    decreases |calls|
  {
    hide UserOf;
    if calls != [] { CounterIsAccepted(calls[..|calls| - 1], u); }
  }

  /** Once a user is in the table, every further event counts, unless the kernel itself
      refuses it; keys never disappear. */
  lemma {:induction false} ExactOnceTracked(t: CTable, calls: seq<Call>, u: U64)
    requires u in t && t[u] + |calls| < TWO64
    ensures u in AfterCalls(t, calls)
    ensures (forall k :: 0 <= k < |calls| ==> !calls[k].refuse) ==> AfterCalls(t, calls)[u] == t[u] + CallsOf(calls, u)
    ensures CallsOf(calls, u) <= |calls|
    decreases |calls|
  {
    hide UserOf;
    if calls != [] { ExactOnceTracked(t, calls[..|calls| - 1], u); }
  }

  lemma {:induction false} AfterMore(t: CTable, a: seq<Call>, b: seq<Call>)
    ensures AfterCalls(t, a + b) == AfterCalls(AfterCalls(t, a), b)
    decreases |b|
  {
    hide AfterHello;
    if b == [] {
      assert a + b == a;
    } else {
      assert (a + b)[..|a + b| - 1] == a + b[..|b| - 1];
      AfterMore(t, a, b[..|b| - 1]);
    }
  }

  lemma {:induction false} KeysStay(t: CTable, calls: seq<Call>)
    ensures t.Keys <= AfterCalls(t, calls).Keys
    decreases |calls|
  {
    hide UserOf;
    if calls != [] { KeysStay(t, calls[..|calls| - 1]); }
  }

  /** The table never holds more than 5,000,000 entries. */
  lemma {:induction false} SizeBound(t: CTable, calls: seq<Call>)
    requires |t| <= 5_000_000
    ensures |AfterCalls(t, calls)| <= 5_000_000
    decreases |calls|
  {
    hide UserOf;
    if calls != [] {
      var n := |calls| - 1;
      SizeBound(t, calls[..n]);
      var before, u := AfterCalls(t, calls[..n]), UserOf(calls[n].uidGid);
      GrowsByOne(before, u, NextCount(before, u));
    }
  }

  /** An event that the kernel does not refuse is rejected exactly if the user is new and the
      table already holds 5,000,000 entries; otherwise it counts for the user. */
  lemma RejectedIffFull(t: CTable, calls: seq<Call>)
    requires |t| <= 5_000_000 && calls != [] && !calls[|calls| - 1].refuse
    ensures var before, after := AfterCalls(t, calls[..|calls| - 1]), AfterCalls(t, calls);
            var u := calls[|calls| - 1].uidGid % 0x1_0000_0000;
            && (!LastAccepted(t, calls) <==> u !in before && |before| == 5_000_000)
            && (!LastAccepted(t, calls) ==> after == before)
            && (LastAccepted(t, calls) ==> after == before[u := if u !in before then 1 else if before[u] == 0xFFFF_FFFF_FFFF_FFFF then 0 else before[u] + 1])
  {
    hide UserOf, NextCount, Bits64;
    var c := calls[|calls| - 1];
    assert UserOf(c.uidGid) == c.uidGid % 0x1_0000_0000 by { UserIsLow(c.uidGid); }
    SizeBound(t, calls[..|calls| - 1]);
    NextSpelled(AfterCalls(t, calls[..|calls| - 1]), UserOf(c.uidGid));
  }

  lemma NextSpelled(t: CTable, u: U64)
    ensures NextCount(t, u) == if u !in t then 1 else if t[u] == 0xFFFF_FFFF_FFFF_FFFF then 0 else t[u] + 1
  {
  }

  lemma GrowsByOne(t: CTable, u: U64, n: U64)
    ensures |t[u := n]| == |t| + if u in t then 0 else 1
  {
    assert t[u := n].Keys == t.Keys + {u};
    assert |t[u := n]| == |t[u := n].Keys| && |t| == |t.Keys|;
  }

  /** All at once, from an empty table: what is in the table after the events a stays, and
      counts each further event of its user exactly. */
  lemma TableHistory(a: seq<Call>, b: seq<Call>, u: U64)
    requires |a| + |b| < TWO64 && forall k :: 0 <= k < |b| ==> !b[k].refuse
    ensures var t := AfterCalls(map[], a + b);
            && AfterCalls(map[], a).Keys <= t.Keys && |t| <= 5_000_000
            && (u in AfterCalls(map[], a) ==> t[u] == AfterCalls(map[], a)[u] + CallsOf(b, u))
  {
    hide UserOf, CallsOf, AfterCalls;
    AfterMore(map[], a, b);
    var t := AfterCalls(map[], a);
    KeysStay(t, b);
    SizeBound(map[], a + b);
    CounterIsAccepted(a, u);
    if u in t { ExactOnceTracked(t, b, u); }
  }
}
