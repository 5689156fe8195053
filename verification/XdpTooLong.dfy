/**
 The verifier and the listing of xdp_drop_prog: the walk meets every limit, as each round of
 the loop makes a new state, although every run of the program is short.
 */
module XdpTooLong {
  import opened Word
  import opened Isa
  import opened Machine
  import opened Abstract
  import opened Checker
  import opened Verifier
  import opened Acceptance
  import opened XdpListing

  const CTX: Kind := To(InCtx, 0, 0)
  const START_OF_PACKET: Kind := To(InPacket, 0, 0)

  /** What is known before the slots of the head. */
  predicate HeadFine(a: Saved) {
    var ks := a.kinds;
    match a.pc
    case 0 => ks.k1 == CTX
    case 1 => ks.k1 == CTX && ks.k6.Num?
    case 2 => ks.k1 == CTX && ks.k2.PacketEnd? && ks.k6.Num?
    case 3 => ks.k1 == START_OF_PACKET && ks.k2.PacketEnd? && ks.k6.Num?
    case 4 => ks.k1 == START_OF_PACKET && ks.k3 == START_OF_PACKET && ks.k2.PacketEnd? && ks.k6.Num?
    case 5 => ks.k1 == START_OF_PACKET && ks.k3 == To(InPacket, 14, 14) && ks.k2.PacketEnd? && ks.k6.Num?
    case 6 => ks.k1 == START_OF_PACKET && a.packet >= 14
    case 7 => ks.k1 == START_OF_PACKET && a.packet >= 14 && ks.k2.Num?
    case 8 => ks.k2.Num? && ks.k7.Num?
    case 9 => ks.k2.Num? && ks.k7.Num?
    case 10 => ks.k7 == ANY
    case 11 => ks.k7 == ANY && ks.k6.Num?
    case 12 => ks.k7.Num? && ks.k6.Num?
    case _ => false
  }

  /** What is known in every round of the loop; r8 is any number. */
  predicate LoopFine(a: Saved) {
    var ks := a.kinds;
    && ks.k6.Num? && ks.k7.Num? && ks.k8.Num?
    && match a.pc
       case 13 => true
       case 15 => ks.k1 == To(InRodata, 0, 0)
       case 16 => ks.k1 == To(InRodata, 0, 0) && ks.k2 == Num(27, 27)
       case 17 => ks.k1 == To(InRodata, 0, 0) && ks.k2 == Num(27, 27) && ks.k3.Num?
       case 18 => true
       case 19 => true
       case 20 => ks.k1.Num?
       case 21 => ks.k1 == ANY
       case 22 => ks.k1 == Num(0, 0xFFFF_FFFF)
       case _ => false
  }

  predicate TailFine(a: Saved) {
    var ks := a.kinds;
    match a.pc
    case 23 => ks.k6.Num? && ks.k7.Num?
    case 24 => ks.k6.Num?
    case 25 => ks.k6.Num?
    case 27 => ks.k6.Num? && ks.k1 == To(InRodata, 27, 27)
    case 28 => ks.k6.Num? && ks.k1 == To(InRodata, 27, 27) && ks.k2 == Num(24, 24)
    case 29 => ks.k6.Num?
    case 30 => ks.k0.Num?
    case _ => false
  }

  /** The states from which the loop can be entered or repeated. */
  predicate Looping(a: Saved) {
    if a.pc < 13 then HeadFine(a) else LoopFine(a)
  }

  predicate Fine(a: Saved) {
    if a.pc < 23 then Looping(a) else TailFine(a)
  }

  /** All ways on are fine, and one of them goes towards the loop or stays in it. */
  predicate Onwards(next: Option<seq<Saved>>) {
    && next.Some? && (forall k :: 0 <= k < |next.value| ==> Fine(next.value[k]))
    && exists k :: 0 <= k < |next.value| && Looping(next.value[k])
  }

  lemma OneWay(next: Option<seq<Saved>>, b: Saved)
    requires next == Some([b]) && b.pc < 23 && Looping(b)
    ensures Onwards(next)
  {
    hide HeadFine, LoopFine;
    assert Looping(next.value[0]);
  }

  lemma SmallImmediates()
    ensures Wrap(0) == 0 && Wrap(1) == 1 && Wrap(2) == 2 && Wrap(14) == 14
  {
  }

  lemma HeadMoves(ld: Loaded, a: Saved)
    requires a.pc in {0, 3, 10, 12} && HeadFine(a)
    ensures Onwards(Check(ld, XdpHeadAt(a.pc), a))
  {
    hide Onwards, CheckCall, CheckTest, LoadKind, Writable, SetBy, Shr, Wrap, NumResult;
    SmallImmediates();
    var next := Check(ld, XdpHeadAt(a.pc), a);
    OneWay(next, next.value[0]);
  }

  lemma PastTheHeader()
    ensures AluKind(Add, START_OF_PACKET, Num(14, 14)) == Some(To(InPacket, 14, 14))
    ensures forall ks: Kinds :: OperandKind(ks, Imm(14)) == Num(14, 14)
  {
  }

  lemma HeadAdds(ld: Loaded, a: Saved)
    requires a.pc == 4 && HeadFine(a)
    ensures Onwards(Check(ld, XdpHeadAt(4), a))
  {
    hide Onwards, CheckCall, CheckTest, LoadKind, Writable, SetBy, AluKind, OperandKind;
    PastTheHeader();
    assert OperandKind(a.kinds, Imm(14)) == Num(14, 14);
    var next := Check(ld, XdpHeadAt(4), a);
    OneWay(next, next.value[0]);
  }

  lemma HeadCombines(ld: Loaded, a: Saved)
    requires a.pc in {8, 9} && HeadFine(a)
    ensures Onwards(Check(ld, XdpHeadAt(a.pc), a))
  {
    hide Onwards, CheckCall, CheckTest, LoadKind, Writable, SetBy, Shr;
    var next := Check(ld, XdpHeadAt(a.pc), a);
    OneWay(next, next.value[0]);
  }

  lemma HeadLoads(ld: Loaded, a: Saved)
    requires a.pc in {1, 2, 6, 7} && HeadFine(a)
    ensures Onwards(Check(ld, XdpHeadAt(a.pc), a))
  {
    hide Onwards, CheckCall, CheckTest, Writable, SetBy;
    var next := Check(ld, XdpHeadAt(a.pc), a);
    OneWay(next, next.value[0]);
  }

  lemma HeadTests(ld: Loaded, a: Saved)
    requires a.pc in {5, 11} && HeadFine(a)
    ensures Onwards(Check(ld, XdpHeadAt(a.pc), a))
  {
    hide CheckCall, LoadKind, Writable, SetBy;
    var next := Check(ld, XdpHeadAt(a.pc), a);
    assert Looping(next.value[0]);
  }

  lemma LoopMoves(ld: Loaded, a: Saved)
    requires a.pc in {13, 15, 16, 18, 19, 20} && LoopFine(a)
    ensures Onwards(Check(ld, XdpLoopAt(a.pc), a))
  {
    hide Onwards, CheckCall, CheckTest, LoadKind, Writable, SetBy, Shr;
    var next := Check(ld, XdpLoopAt(a.pc), a);
    OneWay(next, next.value[0]);
  }

  /** After the shift to the left nothing is known; after the shift back, 32 bits. */
  lemma LoopShift(ld: Loaded, a: Saved)
    requires a.pc == 21 && LoopFine(a)
    ensures Onwards(Check(ld, XdpLoopAt(21), a))
  {
    hide Onwards, CheckCall, CheckTest, LoadKind, Writable, SetBy, Shr;
    assert Shr(0, 32) == 0 && Shr(MAX64, 32) == 0xFFFF_FFFF by { ShiftedEnds(); }
    var next := Check(ld, XdpLoopAt(21), a);
    OneWay(next, next.value[0]);
  }

  lemma ShiftedEnds()
    ensures Shr(0, 32) == 0 && Shr(MAX64, 32) == 0xFFFF_FFFF
  {
    Pow2Values();
  }

  lemma LoopPrint(ld: Loaded, a: Saved)
    requires a.pc == 17 && LoopFine(a) && TextsOk(ld.rodata)
    ensures Onwards(Check(ld, XdpLoopAt(17), a))
  {
    hide Onwards, CheckTest, LoadKind, Conversions;
    var next := Check(ld, XdpLoopAt(17), a);
    OneWay(next, next.value[0]);
  }

  lemma LoopTest(ld: Loaded, a: Saved)
    requires a.pc == 22 && LoopFine(a)
    ensures Onwards(Check(ld, XdpLoopAt(22), a))
  {
    hide CheckCall, LoadKind, Writable, SetBy;
    var next := Check(ld, XdpLoopAt(22), a);
    assert Looping(next.value[1]);
  }

  lemma TailMoves(ld: Loaded, a: Saved)
    requires a.pc in {23, 24, 25, 27, 29, 30} && TailFine(a)
    ensures var next := Check(ld, XdpTailAt(a.pc), a);
            next.Some? && forall k :: 0 <= k < |next.value| ==> Fine(next.value[k])
  {
    hide CheckCall, LoadKind, Writable, SetBy;
  }

  lemma TailPrint(ld: Loaded, a: Saved)
    requires a.pc == 28 && TailFine(a) && TextsOk(ld.rodata)
    ensures var next := Check(ld, XdpTailAt(28), a);
            next.Some? && forall k :: 0 <= k < |next.value| ==> Fine(next.value[k])
  {
    hide CheckTest, LoadKind, Conversions;
  }

  lemma Places(a: Saved)
    ensures a.pc < 13 && HeadFine(a) ==> 0 <= a.pc
    ensures LoopFine(a) ==> 13 <= a.pc <= 22 && a.pc != 14
    ensures TailFine(a) ==> 23 <= a.pc <= 30 && a.pc != 26
  {
  }

  lemma LoopingGoesOn(ld: Loaded, a: Saved)
    requires TextsOk(ld.rodata) && Looping(a)
    ensures GoesOn(ld, XDP, Looping, a) && StaysIn(ld, XDP, Fine, a)
  {
    hide HeadFine, LoopFine, Check, XdpAt, TextsOk;
    Places(a);
    assert Onwards(Check(ld, XDP[a.pc], a)) by {
      SlotIs(a.pc);
      if a.pc in {0, 3, 10, 12} { HeadMoves(ld, a); }
      else if a.pc == 4 { HeadAdds(ld, a); }
      else if a.pc in {8, 9} { HeadCombines(ld, a); }
      else if a.pc in {1, 2, 6, 7} { HeadLoads(ld, a); }
      else if a.pc in {5, 11} { HeadTests(ld, a); }
      else if a.pc == 21 { LoopShift(ld, a); }
      else if a.pc == 17 { LoopPrint(ld, a); }
      else if a.pc == 22 { LoopTest(ld, a); }
      else { LoopMoves(ld, a); }
    }
  }

  lemma SlotIs(pc: int)
    requires 0 <= pc < 31
    ensures XDP[pc] == if pc < 13 then XdpHeadAt(pc) else if pc < 23 then XdpLoopAt(pc) else XdpTailAt(pc)
  {
    hide XdpHeadAt, XdpLoopAt, XdpTailAt;
  }

  lemma FineStays(ld: Loaded, a: Saved)
    requires TextsOk(ld.rodata) && Fine(a)
    ensures StaysIn(ld, XDP, Fine, a)
  {
    hide Looping, TailFine, Check, XdpAt, TextsOk;
    if a.pc < 23 {
      LoopingGoesOn(ld, a);
    } else {
      Places(a);
      SlotIs(a.pc);
      if a.pc == 28 { TailPrint(ld, a); } else { TailMoves(ld, a); }
    }
  }

  /** The walk meets every limit on this program: it is neither accepted nor refused. */
  lemma XdpIsTooLong(ld: Loaded, limit: nat)
    requires TextsOk(ld.rodata)
    ensures Walk(ld, XDP, [Visit(ENTRY)], [], 0, limit).TooLong?
  {
    hide Walk, GoesOn, StaysIn, TextsOk;
    assert Looping(ENTRY);
    assert Fine(ENTRY);
    hide Looping, Fine;
    forall a | Looping(a) ensures GoesOn(ld, XDP, Looping, a) { LoopingGoesOn(ld, a); }
    forall a | Fine(a) ensures StaysIn(ld, XDP, Fine, a) { FineStays(ld, a); }
    EndlessIsTooLong(ld, XDP, Looping, Fine, limit);
  }

  /** So the verifier gives up on a program that ends, without a fault, on every packet. */
  lemma GivesUpOnASafeProgram(mem: Memory, o: Oracle) returns (end: State)
    requires TextsOk(mem.rodata)
    ensures Walk(Loaded(|mem.data|, mem.rodata), XDP, [Visit(ENTRY)], [], 0, 1_000_000).TooLong?
    ensures Run(XDP, o, Running(Entry(mem)), 589_832) == Exited(Verdict(mem.packet), end)
  {
    hide Walk, Run, TextsOk, Entry, Messages, InsnCount;
    XdpIsTooLong(Loaded(|mem.data|, mem.rodata), 1_000_000);
    end := XdpRuns(mem, o);
    CountBound(mem.packet);
    var n := InsnCount(mem.packet);
    RunAdd(XDP, o, Running(Entry(mem)), n, 589_832 - n);
    RunEnded(XDP, o, Exited(Verdict(mem.packet), end), 589_832 - n);
  }
}
