/** A complete record for the object code of hello: the verifier's check passes on every path. */
module HelloVerified {
  import opened Isa
  import opened Machine
  import opened Abstract
  import opened Checker
  import opened Verifier
  import opened Records
  import opened Acceptance
  import opened HelloListing

  /** What needs to be known before slot pc; the second slot of a wide load repeats the next. */
  function Before(pc: int): Saved {
    match pc
    case 0 => Saved(0, BARE, {}, 0)
    case 1 => Saved(1, BARE.(k0 := ANY), {}, 0)
    case 2 => Saved(2, BARE.(k0 := ANY), {}, 0)
    case 3 => Saved(3, BARE.(k0 := ANY), {}, 0)
    case 4 => Saved(4, BARE, Cells(504, 8), 0)
    case 5 => Saved(5, BARE.(k2 := TOP), Cells(504, 8), 0)
    case 6 => Saved(6, BARE.(k2 := Slot(-8)), Cells(504, 8), 0)
    case 7 => Saved(8, BARE.(k1 := Map(CounterTable), k2 := Slot(-8)), Cells(504, 8), 0)
    case 8 => Saved(8, BARE.(k1 := Map(CounterTable), k2 := Slot(-8)), Cells(504, 8), 0)
    case 9 => Saved(9, BARE.(k0 := MaybeNull(CounterTable, ELEM_HEADER)), Cells(504, 8), 0)
    case 10 => Saved(10, BARE.(k0 := MaybeNull(CounterTable, ELEM_HEADER), k1 := ANY), Cells(504, 8), 0)
    case 11 => Saved(11, BARE.(k0 := To(InElem(CounterTable), ELEM_HEADER, ELEM_HEADER)), Cells(504, 8), 0)
    case 12 => Saved(12, BARE.(k1 := ANY), Cells(504, 8), 0)
    case 13 => Saved(13, BARE.(k1 := ANY), Cells(504, 8), 0)
    case 14 => Saved(14, BARE, Cells(496, 16), 0)
    case 15 => Saved(15, BARE.(k2 := TOP), Cells(496, 16), 0)
    case 16 => Saved(16, BARE.(k2 := Slot(-8)), Cells(496, 16), 0)
    case 17 => Saved(17, BARE.(k2 := Slot(-8), k3 := TOP), Cells(496, 16), 0)
    case 18 => Saved(18, BARE.(k2 := Slot(-8), k3 := Slot(-16)), Cells(496, 16), 0)
    case 19 => Saved(20, BARE.(k1 := Map(CounterTable), k2 := Slot(-8), k3 := Slot(-16)), Cells(496, 16), 0)
    case 20 => Saved(20, BARE.(k1 := Map(CounterTable), k2 := Slot(-8), k3 := Slot(-16)), Cells(496, 16), 0)
    case 21 => Saved(21, BARE.(k1 := Map(CounterTable), k2 := Slot(-8), k3 := Slot(-16), k4 := ANY), Cells(496, 16), 0)
    case 22 => Saved(22, BARE, {}, 0)
    case _ => Saved(23, BARE.(k0 := ANY), {}, 0)
  }

  /** The record holds the slots from the last to the first. */
  function EntryAt(i: int): Saved {
    Before(23 - i)
  }

  const RECORD: seq<Saved> := seq(24, EntryAt)

  /** At most this many instructions are processed from slot pc on, both ways of the branch included. */
  function Weight(pc: int): nat {
    if pc > 23 then 0 else if pc > 10 then 24 - pc else 37 - pc
  }

  function WeightAt(i: int): nat {
    Weight(23 - i)
  }

  const WEIGHTS: seq<nat> := seq(24, i => WeightAt(i))

  lemma MovesAndSums(ld: Loaded, pc: nat)
    requires pc in {1, 2, 4, 5, 6, 9, 12, 14, 15, 16, 17, 18, 20, 22}
    ensures Leads(ld, HelloObjectAt(pc), Before(pc), Before(pc + 1))
  {
    hide CheckCall, CheckTest, LoadKind, SetBy, Writable, Cells;
  }

  lemma Stores(ld: Loaded, pc: nat)
    requires pc in {3, 13}
    ensures Leads(ld, HelloObjectAt(pc), Before(pc), Before(pc + 1))
  {
    hide CheckCall, CheckTest, LoadKind, Cells;
    CellsJoin(496, 8, 8);
  }

  lemma Calls(ld: Loaded, pc: nat)
    requires pc in {0, 8, 21}
    ensures Leads(ld, HelloObjectAt(pc), Before(pc), Before(pc + 1))
  {
    hide CheckTest, LoadKind, Conversions, Cells;
    CellsAre(504, 8);
    CellsAre(496, 16);
  }

  lemma LoadCounter(ld: Loaded)
    ensures Leads(ld, HelloObjectAt(11), Before(11), Before(12))
  {
    hide CheckCall, CheckTest, Cells;
  }

  lemma Null(ld: Loaded)
    ensures var next := Check(ld, HelloObjectAt(10), Before(10));
            next.Some? && |next.value| == 2 && Includes(Before(11), next.value[0]) && Includes(Before(13), next.value[1])
  {
    hide CheckCall, LoadKind, Cells;
  }

  lemma Ends(ld: Loaded)
    ensures Check(ld, HelloObjectAt(23), Before(23)) == Some([])
  {
  }

  lemma Slots(pc: nat)
    requires pc < 24
    ensures Before(pc).pc == if pc == 7 then 8 else if pc == 19 then 20 else pc
  {
    hide Cells;
  }

  /** The way on from slot pc leads to slot pc + 1, except for the branch and the end. */
  lemma OneWay(ld: Loaded, pc: nat)
    requires pc < 23 && pc != 7 && pc != 10 && pc != 19
    ensures Leads(ld, HelloObjectAt(pc), Before(pc), Before(pc + 1))
  {
    hide Leads, HelloObjectAt, Before;
    if pc in {3, 13} { Stores(ld, pc); }
    else if pc in {0, 8, 21} { Calls(ld, pc); }
    else if pc == 11 { LoadCounter(ld); }
    else { MovesAndSums(ld, pc); }
  }

  lemma SlotOk(ld: Loaded, i: nat)
    requires i < 24
    ensures EntryWeighs(ld, HELLO_OBJECT, RECORD, WEIGHTS, i)
  {
    hide Check, HelloObjectAt, Before, Includes, Lighter;
    Slots(23 - i);
    Tests();
    var pc := RECORD[i].pc;
    var next := Check(ld, HELLO_OBJECT[pc], RECORD[i]);
    Doubles();
    assert RECORD[i] == Before(pc);
    if pc == 23 {
      Ends(ld);
    } else if pc == 10 {
      Null(ld);
      assert RECORD[12] == Before(11) && RECORD[10] == Before(13);
      LighterBy(HELLO_OBJECT, RECORD, WEIGHTS, i, 12, next.value[0]);
      LighterBy(HELLO_OBJECT, RECORD, WEIGHTS, i, 10, next.value[1]);
    } else {
      OneWay(ld, pc);
      assert RECORD[22 - pc] == Before(pc + 1);
      LighterBy(HELLO_OBJECT, RECORD, WEIGHTS, i, 22 - pc, next.value[0]);
    }
  }

  lemma Tests()
    ensures forall pc :: Fan(HELLO_OBJECT, pc) == if pc == 10 then 2 else 1
  {
    forall pc ensures Fan(HELLO_OBJECT, pc) == if pc == 10 then 2 else 1 { OneTest(pc); }
  }

  lemma OneTest(pc: int)
    ensures Fan(HELLO_OBJECT, pc) == if pc == 10 then 2 else 1
  {
  }

  lemma Doubles()
    ensures Before(7) == Before(8) && Before(19) == Before(20)
  {
    hide Cells;
  }

  lemma StartsAtEntry()
    ensures Includes(Before(0), ENTRY)
  {
    hide Cells;
  }

  lemma HelloWeighted(ld: Loaded)
    ensures Weighted(ld, HELLO_OBJECT, RECORD, WEIGHTS) && Includes(RECORD[23], ENTRY)
  {
    hide EntryWeighs, Includes, Before, HelloObjectAt;
    StartsAtEntry();
    assert RECORD[23] == Before(0);
    forall i: nat | i < 24 ensures EntryWeighs(ld, HELLO_OBJECT, RECORD, WEIGHTS, i) { SlotOk(ld, i); }
  }

  /** The record is complete, whatever the sections hold. */
  lemma HelloCertified(ld: Loaded)
    ensures Certified(ld, HELLO_OBJECT, RECORD)
  {
    hide Weighted, Includes, Certified;
    HelloWeighted(ld);
    WeightedCertified(ld, HELLO_OBJECT, RECORD, WEIGHTS, 23);
  }

  /** The verifier accepts hello, after at most 37 instructions. */
  lemma HelloAccepted(ld: Loaded)
    ensures Walk(ld, HELLO_OBJECT, [Visit(ENTRY)], [], 0, 37).Accepted?
    ensures Walk(ld, HELLO_OBJECT, [Visit(ENTRY)], [], 0, 1_000_000).Accepted?
  {
    hide Weighted, Includes, Walk;
    HelloWeighted(ld);
    assert WEIGHTS[23] == 37;
    WeightedAccepted(ld, HELLO_OBJECT, RECORD, WEIGHTS, 23, 37);
    WeightedAccepted(ld, HELLO_OBJECT, RECORD, WEIGHTS, 23, 1_000_000);
  }

  /** No run of hello faults, and every run ends within 24 steps, whatever the helpers
      answer and other CPUs do to memory between its instructions. */
  lemma HelloSafeAmongOthers(mem: Memory, o: Oracle, others: Others, n: nat)
    requires MemoryOk(mem) && Lawful(others)
    ensures RunAmong(HELLO_OBJECT, o, others, Running(Entry(mem)), 0, 24).Exited?
    ensures !RunAmong(HELLO_OBJECT, o, others, Running(Entry(mem)), 0, n).Error?
  {
    hide Certified, Lawful, RunAmong, Entry;
    HelloCertified(Loaded(|mem.data|, mem.rodata));
    VerifiedIsSafe(Loaded(|mem.data|, mem.rodata), HELLO_OBJECT, RECORD, mem, o, others, n);
  }
}
