/** The machine code of hello: exactly the compilation of its rewritten bytecode. */
module HelloJit {
  import opened Isa
  import opened Machine
  import opened Behaviours
  import opened X86
  import opened Jit
  import opened HelloRewritten
  import Rewriter
  import C = Counter
  import HelloListing

  /** Where the body starts, behind the prologue. */
  const BASE := 0x12

  /** The instructions in order, each with its address. */
  function HelloX86At(i: int): (int, XInsn) {
    match i
    case 0 => (0x12, CallQ(UidGid))
    case 1 => (0x17, ShiftImm(Lsh, RAX, 32))
    case 2 => (0x1b, ShiftImm(Rsh, RAX, 32))
    case 3 => (0x1f, MovStore(DW, RBP, -8, RAX))
    case 4 => (0x23, MovRR(RSI, RBP))
    case 5 => (0x26, AddImm(RSI, -8))
    case 6 => (0x2a, MovAbs(RDI, MapRef(CounterTable), 0))
    case 7 => (0x34, CallQ(RawLookup))
    case 8 => (0x39, TestSelf(RAX))
    case 9 => (0x3c, JeTo(0x42))
    case 10 => (0x3e, AddImm(RAX, 56))
    case 11 => (0x42, MovImm32(RDI, 1))
    case 12 => (0x47, TestSelf(RAX))
    case 13 => (0x4a, JeTo(0x54))
    case 14 => (0x4c, MovLoad(DW, RDI, RAX, 0))
    case 15 => (0x50, AddImm(RDI, 1))
    case 16 => (0x54, MovStore(DW, RBP, -16, RDI))
    case 17 => (0x58, MovRR(RSI, RBP))
    case 18 => (0x5b, AddImm(RSI, -8))
    case 19 => (0x5f, MovRR(RDX, RBP))
    case 20 => (0x62, AddImm(RDX, -16))
    case 21 => (0x66, MovAbs(RDI, MapRef(CounterTable), 0))
    case 22 => (0x70, XorSelf(RCX))
    case 23 => (0x72, CallQ(MapUpdate))
    case 24 => (0x77, XorSelf(RAX))
    case _ => (0x79, Leave)
  }

  const HELLO_X86: XProgram := seq(26, i => HelloX86At(i).1)

  /** The machine instruction with which slot k of the bytecode starts. */
  function FirstOf(k: int): int {
    if k == 8 || k == 9 then k - 1 else if 13 <= k <= 21 then k + 1 else k
  }

  lemma Kinds(k: nat)
    requires k < 26
    ensures var i := HelloRewrittenAt(k);
            && (i == Second <==> k == 7 || k == 21) && (Wide(i) <==> k == 6 || k == 20)
            && (i.Jump? || i.JumpIf? ==> (k == 9 && i.joff == 1) || (k == 12 && i.joff == 2))
  {
  }

  lemma CoveredSlots(k: nat)
    requires k < 26
    ensures Covered(HelloRewrittenAt(k))
  {
  }

  lemma SameEmit(k: nat, t: int)
    requires k < 26 && Covered(HELLO_REWRITTEN[k]) && (k == 9 ==> t == 0x42) && (k == 12 ==> t == 0x54)
    ensures 0 <= FirstOf(k) <= FirstOf(k + 1) <= 26
    ensures Emit(HELLO_REWRITTEN[k], t) == HELLO_X86[FirstOf(k)..FirstOf(k + 1)]
  {
    hide Covered;
    var a, n := Emit(HELLO_REWRITTEN[k], t), FirstOf(k + 1) - FirstOf(k);
    assert |a| == n;
    assert n > 0 ==> a[0] == HELLO_X86[FirstOf(k)];
    assert n > 1 ==> a[1] == HELLO_X86[FirstOf(k) + 1];
  }

  /** The addresses of the listing follow from the lengths of its instructions. */
  lemma Addresses(i: nat)
    requires i < 25
    ensures HelloX86At(i + 1).0 == HelloX86At(i).0 + Length(HelloX86At(i).1)
  {
  }

  lemma Sizes(k: nat)
    requires k < 26 && Covered(HELLO_REWRITTEN[k])
    ensures var code := Emit(HELLO_REWRITTEN[k], 0);
            && |code| == FirstOf(k + 1) - FirstOf(k)
            && (k < 25 ==> TotalLength(code) == HelloX86At(FirstOf(k + 1)).0 - HelloX86At(FirstOf(k)).0)
  {
    hide Covered, HelloX86At, HelloRewrittenAt, Emit, Length, TotalLength;
    var t := if k == 9 then 0x42 else 0x54;
    SameEmit(k, t);
    var a := Emit(HELLO_REWRITTEN[k], t);
    EmitShape(HELLO_REWRITTEN[k], 0, t);
    LengthOfFew(a);
    if k < 25 && |a| > 0 { Addresses(FirstOf(k)); }
    if k < 25 && |a| > 1 { Addresses(FirstOf(k) + 1); }
  }

  lemma LengthOfFew(code: XProgram)
    ensures |code| == 0 ==> TotalLength(code) == 0
    ensures |code| == 1 ==> TotalLength(code) == Length(code[0])
    ensures |code| == 2 ==> TotalLength(code) == Length(code[0]) + Length(code[1])
  {
    hide Length;
    if |code| == 2 { assert code[..1] == [code[0]]; }
  }

  lemma {:induction false} Placed(base: int, k: nat)
    requires k < 26
    ensures SlotAddress(HELLO_REWRITTEN, base, k) == base + HelloX86At(FirstOf(k)).0 - BASE
  {
    if k > 0 {
      hide Emit, HelloRewrittenAt, TotalLength, HelloX86At, FirstOf, Covered;
      CoveredSlots(k - 1);
      Sizes(k - 1);
      Placed(base, k - 1);
    }
  }

  lemma Distances(k: nat)
    requires k < 26
    ensures k == 9 ==> Reaches(HELLO_REWRITTEN, k + 1, 11)
    ensures k == 12 ==> Reaches(HELLO_REWRITTEN, k + 1, 15)
  {
    hide SlotAddress;
    Placed(0, 10);
    Placed(0, 11);
    Placed(0, 13);
    Placed(0, 15);
  }

  lemma HelloSlot(k: nat)
    requires k < 26
    ensures Covered(HELLO_REWRITTEN[k]) && SlotOk(HELLO_REWRITTEN, k)
  {
    hide Covered, HelloRewrittenAt;
    CoveredSlots(k);
    Kinds(k);
    Kinds(10);
    Kinds(15);
    if k + 1 < 26 { Kinds(k + 1); }
    if k + 2 < 26 { Kinds(k + 2); }
    Distances(k);
    hide SlotAddress;
  }

  lemma HelloCompilable()
    ensures Compilable(HELLO_REWRITTEN)
  {
    hide Covered, SlotOk;
    forall k: nat | k < 26 ensures Covered(HELLO_REWRITTEN[k]) && SlotOk(HELLO_REWRITTEN, k) { HelloSlot(k); }
  }

  lemma {:induction false} Starts(k: nat)
    requires k <= 26 && Compilable(HELLO_REWRITTEN)
    ensures Index(HELLO_REWRITTEN, k) == FirstOf(k)
    ensures k < 26 ==> SlotAddress(HELLO_REWRITTEN, BASE, k) == HelloX86At(FirstOf(k)).0
  {
    if k < 26 { Placed(BASE, k); }
    if k > 0 {
      assert Covered(HELLO_REWRITTEN[k - 1]);
      hide Compilable, Emit, HelloRewrittenAt, TotalLength, HelloX86At, FirstOf, Covered, SlotAddress;
      Sizes(k - 1);
      Starts(k - 1);
    }
  }

  lemma Targets(k: nat)
    requires k < 26 && Compilable(HELLO_REWRITTEN)
    ensures k == 9 ==> JumpAddress(HELLO_REWRITTEN, BASE, k) == 0x42
    ensures k == 12 ==> JumpAddress(HELLO_REWRITTEN, BASE, k) == 0x54
  {
    hide Compilable, SlotAddress;
    Starts(11);
    Starts(15);
  }

  lemma SameCode(k: nat)
    requires k < 26 && Compilable(HELLO_REWRITTEN)
    ensures 0 <= FirstOf(k) <= FirstOf(k + 1) <= 26
    ensures CodeFor(HELLO_REWRITTEN, BASE, k) == HELLO_X86[FirstOf(k)..FirstOf(k + 1)]
  {
    assert Covered(HELLO_REWRITTEN[k]);
    hide Compilable, Covered, Emit, JumpAddress, FirstOf, HelloX86At, HelloRewrittenAt;
    Targets(k);
    SameEmit(k, JumpAddress(HELLO_REWRITTEN, BASE, k));
  }

  lemma {:induction false} SameUpTo(k: nat)
    requires k <= 26 && Compilable(HELLO_REWRITTEN)
    ensures 0 <= FirstOf(k) <= 26 && CompileTo(HELLO_REWRITTEN, BASE, k) == HELLO_X86[..FirstOf(k)]
  {
    if k > 0 {
      SameUpTo(k - 1);
      SameCode(k - 1);
      hide CodeFor, HelloX86At, HelloRewrittenAt, Compilable;
    }
  }

  /** The listing is the compilation, instruction by instruction and address by address. */
  lemma HelloIsCompiled()
    ensures Compilable(HELLO_REWRITTEN) && HELLO_X86 == Compile(HELLO_REWRITTEN, BASE)
    ensures forall k: nat :: k < 26 ==> SlotAddress(HELLO_REWRITTEN, BASE, k) == HelloX86At(FirstOf(k)).0
  {
    HelloCompilable();
    SameUpTo(26);
    forall k: nat | k < 26 ensures SlotAddress(HELLO_REWRITTEN, BASE, k) == HelloX86At(FirstOf(k)).0 { Starts(k); }
  }

  /** From C to machine code: all four forms of hello have the behaviour that the C
      function prescribes, for every table, user and helper answer. */
  lemma HelloEndToEnd(mem: Memory, o: Oracle, t: C.CTable)
    requires mem.counters == C.Stored(t)
    ensures var spec := Returns(0, mem.(counters := C.Stored(C.AfterHello(t, o(0).value, o(2).refuse))), C.HelloTrace(t, o(0).value));
            && BehaviourOf(HelloListing.HELLO_OBJECT, o, mem) == spec
            && BehaviourOf(HELLO_REWRITTEN, o, mem) == spec
            && BehaviourOfX(HELLO_X86, BASE, o, mem) == spec
  {
    hide Compilable, Compile, Run, Entry, C.Stored, C.AfterHello, C.HelloTrace, Rewriter.Rewrite, Rewriter.Rewritable;
    var end := HelloListing.ObjectMeetsC(mem, o, t);
    BehaviourIs(HelloListing.HELLO_OBJECT, o, mem, 24);
    HelloIsRewritten();
    Rewriter.RewritePreservesBehaviour(HelloListing.HELLO_OBJECT, o, mem);
    HelloIsCompiled();
    CompilePreservesBehaviour(HELLO_REWRITTEN, BASE, o, mem);
  }
}
