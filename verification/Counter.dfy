/**
 The C program that counts, for every user, how often it has run: one invocation of
 hello on a table with integer keys.
 */
module Counter {
  import opened Word
  import M = Machine
  import I = Isa
  import opened Tables

  type CTable = map<U64, U64>

  const CAPACITY := 5_000_000

  /** The user id is the low half of what the helper returns. */
  function UserOf(uidGid: U64): U64 {
    Bits64(BitAnd, uidGid, 0xFFFF_FFFF)
  }

  lemma UserIsLow(x: U64)
    ensures UserOf(x) == x % 0x1_0000_0000
  {
    hide Bits64;
    MaskLow(x);
  }

  function CountIn(t: CTable, u: U64): U64 {
    if u in t then t[u] else 0
  }

  function NextCount(t: CTable, u: U64): U64 {
    Wrap(CountIn(t, u) + 1)
  }

  /** A new user needs room in the table; the kernel may refuse any update. */
  predicate Admits(t: CTable, u: U64, refuse: bool) {
    !refuse && (u in t || |t| < CAPACITY)
  }

  /** Updates with any flags; the programs here use 0, which asks for neither. */
  predicate AdmitsWith(t: CTable, u: U64, flags: U64, refuse: bool) {
    Admits(t, u, refuse) && flags <= 2 && (flags == 1 ==> u !in t) && (flags == 2 ==> u in t)
  }

  function AfterHello(t: CTable, uidGid: U64, refuse: bool): CTable {
    var u := UserOf(uidGid);
    if Admits(t, u, refuse) then t[u := NextCount(t, u)] else t
  }

  class CounterProgram {
    var counterTable: CTable

    constructor ()
      ensures counterTable == map[]
    {
      counterTable := map[];
    }

    /** The update helper: flag 1 asks for a new key and flag 2 for an old one. */
    method UpdateElem(uid: U64, counter: U64, flags: U64, refuse: bool) returns (ret: int)
      modifies this
      ensures ret == 0 <==> (!refuse && (flags == 0 || (flags == 1 && uid !in old(counterTable)) || (flags == 2 && uid in old(counterTable)))
                             && (uid in old(counterTable) || |old(counterTable)| < 5_000_000))
      ensures ret == 0 <==> AdmitsWith(old(counterTable), uid, flags, refuse)
      ensures ret <= 0 && counterTable == if ret == 0 then old(counterTable)[uid := counter] else old(counterTable)
    {
      if refuse { return -1; }
      if flags > 2 { return -22; }
      if flags == 1 && uid in counterTable { return -17; }
      if flags == 2 && uid !in counterTable { return -2; }
      if uid !in counterTable && |counterTable| >= CAPACITY { return -7; }
      counterTable := counterTable[uid := counter];
      ret := 0;
    }

    method Hello(uidGid: U64, refuse: bool) returns (ret: int)
      modifies this
      ensures ret == 0 && counterTable == AfterHello(old(counterTable), uidGid, refuse)
      ensures var t, u := old(counterTable), uidGid % 0x1_0000_0000;
              counterTable == if !refuse && (u in t || |t| < 5_000_000)
                              then t[u := if u !in t then 1 else if t[u] == 0xFFFF_FFFF_FFFF_FFFF then 0 else t[u] + 1] else t
    {
      MaskLow(uidGid);
      var counter: U64 := 0;
      var uid := Bits64(BitAnd, uidGid, 0xFFFF_FFFF);
      if uid in counterTable {
        counter := counterTable[uid];
      }
      counter := Wrap(counter + 1);
      var ignored := UpdateElem(uid, counter, 0, refuse);
      ret := 0;
    }
  }

  /** The variant that keeps the user id in a global variable. */
  class SharedCounterProgram {
    var counterTable: CTable
    var uid: U64

    constructor ()
      ensures counterTable == map[] && uid == 0
    {
      counterTable := map[];
      uid := 0;
    }

    method Hello(uidGid: U64, refuse: bool) returns (ret: int)
      modifies this
      ensures ret == 0 && uid == UserOf(uidGid)
      ensures counterTable == AfterHello(old(counterTable), uidGid, refuse)
      ensures var t, u := old(counterTable), uidGid % 0x1_0000_0000;
              counterTable == if !refuse && (u in t || |t| < 5_000_000)
                              then t[u := if u !in t then 1 else if t[u] == 0xFFFF_FFFF_FFFF_FFFF then 0 else t[u] + 1] else t
    {
      MaskLow(uidGid);
      var counter: U64 := 0;
      uid := Bits64(BitAnd, uidGid, 0xFFFF_FFFF);
      if uid in counterTable {
        counter := counterTable[uid];
      }
      counter := Wrap(counter + 1);
      if !refuse && (uid in counterTable || |counterTable| < CAPACITY) {
        counterTable := counterTable[uid := counter];
      }
      ret := 0;
    }
  }

  // ---- The same table as the machine keeps it ----

  ghost function Values(t: CTable): map<U64, seq<Byte>> {
    map u | u in t :: Bytes(t[u], 8)
  }

  lemma Fits(t: CTable)
    ensures KeysFit(Values(t), 8)
  {
    Pow2Values();
  }

  ghost function Stored(t: CTable): M.Table {
    Fits(t);
    Spelled(Values(t), 8)
  }

  lemma StoredAt(t: CTable, u: U64)
    ensures Bytes(u, 8) in Stored(t) <==> u in t
    ensures u in t ==> Stored(t)[Bytes(u, 8)] == Bytes(t[u], 8)
    ensures |Stored(t)| == |t|
  {
    Fits(t);
    Pow2Values();
    hide Spelled, Bytes, Pow2;
    SpelledAt(Values(t), 8, u);
    SpelledSize(Values(t), 8);
    assert Values(t).Keys == t.Keys;
    assert |Values(t)| == |t| by { assert |Values(t).Keys| == |t.Keys|; }
  }

  lemma ValuesUpdate(t: CTable, u: U64, n: U64)
    ensures Values(t[u := n]) == Values(t)[u := Bytes(n, 8)]
  {
    hide Bytes;
    assert Values(t[u := n]).Keys == Values(t)[u := Bytes(n, 8)].Keys;
  }

  lemma StoredUpdate(t: CTable, u: U64, n: U64)
    ensures Stored(t[u := n]) == Stored(t)[Bytes(u, 8) := Bytes(n, 8)]
  {
    ValuesUpdate(t, u, n);
    Fits(t);
    assert u < Pow2(8 * 8) by { Pow2Values(); }
    hide Values, Bytes, Pow2;
    SpelledUpdate(Values(t), 8, u, Bytes(n, 8));
  }

  lemma ValueDecodes(b: seq<Byte>)
    requires |b| == 8
    ensures FromBytes(b) < TWO64 && Bytes(FromBytes(b), 8) == b
  {
    Pow2Values();
    FromBytesRoundTrip(b);
  }

  /** Every well-formed table of the machine is some C table, stored. */
  lemma EveryTableStored(m: M.Table) returns (t: CTable)
    requires M.TableOk(I.CounterTable, m)
    ensures Stored(t) == m
  {
    hide Bytes, FromBytes, Spelled, Decoded;
    var d := Decoded(m, 8);
    DecodedSpells(m, 8);
    forall u: U64 | u in d ensures FromBytes(d[u]) < TWO64 && Bytes(FromBytes(d[u]), 8) == d[u] { ValueDecodes(d[u]); }
    t := map u | u in d :: FromBytes(d[u]);
    assert Values(t) == d;
  }

  /** The calls that hello makes, with their arguments. */
  ghost function HelloTrace(t: CTable, uidGid: U64): seq<M.Event> {
    var u := UserOf(uidGid);
    [M.LookedUp(I.CounterTable, Bytes(u, 8)), M.Updated(I.CounterTable, Bytes(u, 8), Bytes(NextCount(t, u), 8), 0)]
  }
}
