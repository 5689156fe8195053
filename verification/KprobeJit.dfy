/** The machine code of kprobe_exec: exactly the compilation of its rewritten bytecode. */
module KprobeJit {
  import opened Isa
  import opened Machine
  import opened Behaviours
  import opened X86
  import opened Jit
  import opened KprobeRewritten
  import HelloJit
  import Rewriter
  import C = KprobeC
  import P = KprobeProof
  import KprobeListing

  /** Where the body starts, behind the prologue. It ends at 0x187, where the listing restores the
      callee-saved registers before it leaves; the last instruction here stands for that epilogue. */
  const BASE := 0x15

  function X86CountAt(i: int): (int, XInsn) {
    match i
    case 0 => (0x15, MovRR(RBX, RDI))
    case 1 => (0x18, MovAbs(RDI, DataRef, 0))
    case 2 => (0x22, MovLoad(W, RSI, RDI, 0))
    case 3 => (0x25, MovRR(RDX, RSI))
    case 4 => (0x28, AddImm(RDX, 1))
    case 5 => (0x2c, MovStore(W, RDI, 0, RDX))
    case 6 => (0x2f, XorSelf(RDI))
    case 7 => (0x31, MovStore(W, RBP, -8, RDI))
    case 8 => (0x34, MovStore(W, RBP, -12, RDI))
    case 9 => (0x37, MovStore(W, RBP, -16, RDI))
    case 10 => (0x3a, MovStore(W, RBP, -20, RDI))
    case 11 => (0x3d, MovStore(W, RBP, -24, RDI))
    case 12 => (0x40, MovStore(W, RBP, -28, RDI))
    case 13 => (0x43, MovStore(W, RBP, -4, RDI))
    case 14 => (0x46, MovStore(W, RBP, -32, RSI))
    case 15 => (0x49, CallQ(PidTgid))
    case 16 => (0x4e, MovStore(W, RBP, -40, RAX))
    case 17 => (0x51, CallQ(UidGid))
    case _ => (0x56, MovStore(W, RBP, -36, RAX))
  }

  function X86IdentifyAt(i: int): (int, XInsn) {
    match i
    case 19 => (0x59, ShiftImm(Lsh, RAX, 32))
    case 20 => (0x5d, ShiftImm(Rsh, RAX, 32))
    case 21 => (0x61, MovStore(DW, RBP, -48, RAX))
    case 22 => (0x65, MovRR(RSI, RBP))
    case 23 => (0x68, AddImm(RSI, -48))
    case 24 => (0x6c, MovAbs(RDI, MapRef(MyConfig), 0))
    case 25 => (0x76, CallQ(RawLookup))
    case 26 => (0x7b, TestSelf(RAX))
    case 27 => (0x7e, JeTo(0x84))
    case 28 => (0x80, AddImm(RAX, 56))
    case 29 => (0x84, MovRR(R13, RAX))
    case 30 => (0x87, TestSelf(R13))
    case 31 => (0x8a, JeTo(0xbe))
    case 32 => (0x8c, MovLoad(B, RDX, R13, 0))
    case 33 => (0x91, ShiftImm(Lsh, RDX, 56))
    case 34 => (0x95, ShiftImm(Arsh, RDX, 56))
    case _ => (0x99, MovAbs(RDI, RodataRef, 0))
  }

  function X86CopyAt(i: int): (int, XInsn) {
    match i
    case 36 => (0xa3, MovImm32(RSI, 3))
    case 37 => (0xa8, CallQ(Printk))
    case 38 => (0xad, MovRR(RDI, RBP))
    case 39 => (0xb0, AddImm(RDI, -12))
    case 40 => (0xb4, MovImm32(RSI, 12))
    case 41 => (0xb9, MovRR(RDX, R13))
    case 42 => (0xbc, JmpTo(0xd4))
    case 43 => (0xbe, MovRR(RDI, RBP))
    case 44 => (0xc1, AddImm(RDI, -12))
    case 45 => (0xc5, MovImm32(RSI, 12))
    case 46 => (0xca, MovAbs(RDX, DataRef, 4))
    case 47 => (0xd4, CallQ(ProbeRead))
    case 48 => (0xd9, MovAbs(R13, DataRef, 0))
    case 49 => (0xe3, MovLoad(W, RDI, R13, 0))
    case 50 => (0xe7, CmpImm(RDI, 11))
    case 51 => (0xeb, JaTo(0x150))
    case _ => (0xed, MovAbs(RSI, DataRef, 4))
  }

  function X86GlobalAt(i: int): (int, XInsn) {
    match i
    case 53 => (0xf7, AddRR(RSI, RDI))
    case 54 => (0xfa, MovLoad(B, RDX, RSI, 0))
    case 55 => (0xff, ShiftImm(Lsh, RDX, 56))
    case 56 => (0x103, ShiftImm(Arsh, RDX, 56))
    case 57 => (0x107, MovAbs(RDI, RodataRef, 3))
    case 58 => (0x111, MovImm32(RSI, 3))
    case 59 => (0x116, CallQ(Printk))
    case 60 => (0x11b, MovLoad(W, RDI, R13, 0))
    case 61 => (0x11f, CmpImm(RDI, 11))
    case 62 => (0x123, JaTo(0x150))
    case 63 => (0x125, MovRR(RSI, RBP))
    case 64 => (0x128, AddImm(RSI, -40))
    case 65 => (0x12c, AddRR(RSI, RDI))
    case 66 => (0x12f, MovLoad(B, RDX, RSI, 28))
    case 67 => (0x134, ShiftImm(Lsh, RDX, 56))
    case 68 => (0x138, ShiftImm(Arsh, RDX, 56))
    case 69 => (0x13c, MovAbs(RDI, RodataRef, 6))
    case _ => (0x146, MovImm32(RSI, 3))
  }

  function X86EmitAt(i: int): (int, XInsn) {
    match i
    case 71 => (0x14b, CallQ(Printk))
    case 72 => (0x150, MovRR(RDI, RBP))
    case 73 => (0x153, AddImm(RDI, -28))
    case 74 => (0x157, MovImm32(RSI, 16))
    case 75 => (0x15c, CallQ(Comm))
    case 76 => (0x161, MovRR(RCX, RBP))
    case 77 => (0x164, AddImm(RCX, -40))
    case 78 => (0x168, MovRR(RDI, RBX))
    case 79 => (0x16b, MovAbs(RSI, MapRef(OutputMap), 0))
    case 80 => (0x175, MovImm32(RDX, 4294967295))
    case 81 => (0x17a, MovImm32(R8, 40))
    case 82 => (0x180, CallQ(PerfOutput))
    case 83 => (0x185, XorSelf(RAX))
    case _ => (0x187, Leave)
  }

  /** The instructions in order, each with its address. */
  function KprobeX86At(i: int): (int, XInsn) {
    if i < 19 then X86CountAt(i) else if i < 36 then X86IdentifyAt(i) else if i < 53 then X86CopyAt(i)
    else if i < 71 then X86GlobalAt(i) else X86EmitAt(i)
  }

  const KPROBE_X86: XProgram := seq(85, i => KprobeX86At(i).1)

  /** The machine instruction with which slot k of the bytecode starts. */
  function FirstOf(k: int): int {
    if k <= 2 then k else if k <= 26 then k - 1 else if k <= 28 then k - 2 else if k <= 31 then k - 1
    else if k <= 36 then k else if k <= 48 then k - 1 else if k <= 51 then k - 2 else if k <= 53 then k - 3
    else if k <= 55 then k - 2 else if k <= 61 then k - 3 else if k <= 65 then k - 4 else if k <= 73 then k - 3
    else if k <= 84 then k - 4 else if k <= 86 then k - 5 else k - 6
  }

  predicate SecondSlot(k: int) {
    k == 2 || k == 26 || k == 36 || k == 48 || k == 51 || k == 55 || k == 61 || k == 73 || k == 84 || k == 86
  }

  lemma Kinds(k: nat)
    requires k < 91
    ensures var i := KprobeRewrittenAt(k);
            (i == Second <==> SecondSlot(k)) && (Wide(i) <==> SecondSlot(k + 1))
  {
  }

  lemma JumpSlots(k: nat)
    requires k < 91
    ensures var i := KprobeRewrittenAt(k);
            && (i.Jump? || i.JumpIf? <==> k == 28 || k == 31 || k == 43 || k == 53 || k == 65)
            && (i.Jump? || i.JumpIf? ==>
                  i.joff == if k == 28 then 1 else if k == 31 then 12 else if k == 43 then 5 else if k == 53 then 22 else 10)
  {
  }

  lemma CoveredSlots(k: nat)
    requires k < 91
    ensures Covered(KprobeRewrittenAt(k))
  {
    hide Covered;
    if k < 32 { CoveredFirst(k); } else { CoveredLast(k); }
  }

  lemma CoveredFirst(k: nat)
    requires k < 32
    ensures Covered(KprobeRewrittenAt(k))
  {
    hide NewCopyAt, NewGlobalAt, NewEmitAt;
  }

  lemma CoveredLast(k: nat)
    requires 32 <= k < 91
    ensures Covered(KprobeRewrittenAt(k))
  {
    hide NewCountAt, NewIdentifyAt;
  }

  /** The targets of the jumps in the listing. */
  predicate Aimed(k: nat, t: int) {
    (k == 28 ==> t == 0x84) && (k == 31 ==> t == 0xbe) && (k == 43 ==> t == 0xd4)
    && (k == 53 ==> t == 0x150) && (k == 65 ==> t == 0x150)
  }

  /** Slot k becomes the instructions from i on. */
  predicate Becomes(k: nat, t: int, i: int, n: int)
    requires k < 91 && Covered(KprobeRewrittenAt(k))
  {
    var a := Emit(KprobeRewrittenAt(k), t);
    && |a| == n <= 2 && 0 <= i <= i + n <= 85
    && (n > 0 ==> a[0] == KprobeX86At(i).1) && (n > 1 ==> a[1] == KprobeX86At(i + 1).1)
  }

  lemma SameCount(k: nat, t: int)
    requires 0 <= k < 16 && Covered(KprobeRewrittenAt(k)) && Aimed(k, t)
    ensures Becomes(k, t, FirstOf(k), FirstOf(k + 1) - FirstOf(k))
  {
    hide Covered, NewIdentifyAt, NewCopyAt, NewGlobalAt, NewEmitAt;
  }

  lemma SameIdentify(k: nat, t: int)
    requires 16 <= k < 32 && Covered(KprobeRewrittenAt(k)) && Aimed(k, t)
    ensures Becomes(k, t, FirstOf(k), FirstOf(k + 1) - FirstOf(k))
  {
    hide Covered, NewCountAt, NewCopyAt, NewGlobalAt, NewEmitAt;
  }

  lemma SameCopy(k: nat, t: int)
    requires 32 <= k < 50 && Covered(KprobeRewrittenAt(k)) && Aimed(k, t)
    ensures Becomes(k, t, FirstOf(k), FirstOf(k + 1) - FirstOf(k))
  {
    hide Covered, NewCountAt, NewIdentifyAt, NewGlobalAt, NewEmitAt;
  }

  lemma SameGlobal(k: nat, t: int)
    requires 50 <= k < 66 && Covered(KprobeRewrittenAt(k)) && Aimed(k, t)
    ensures Becomes(k, t, FirstOf(k), FirstOf(k + 1) - FirstOf(k))
  {
    hide Covered, NewCountAt, NewIdentifyAt, NewCopyAt, NewEmitAt;
  }

  lemma SameEvent(k: nat, t: int)
    requires 66 <= k < 91 && Covered(KprobeRewrittenAt(k)) && Aimed(k, t)
    ensures Becomes(k, t, FirstOf(k), FirstOf(k + 1) - FirstOf(k))
  {
    hide Covered, NewCountAt, NewIdentifyAt, NewCopyAt, NewGlobalAt;
  }

  lemma SameEmit(k: nat, t: int)
    requires k < 91 && Covered(KPROBE_REWRITTEN[k]) && Aimed(k, t)
    ensures 0 <= FirstOf(k) <= FirstOf(k + 1) <= 85
    ensures Emit(KPROBE_REWRITTEN[k], t) == KPROBE_X86[FirstOf(k)..FirstOf(k + 1)]
  {
    hide Covered, KprobeRewrittenAt, KprobeX86At, Emit;
    if k < 16 { SameCount(k, t); } else if k < 32 { SameIdentify(k, t); } else if k < 50 { SameCopy(k, t); }
    else if k < 66 { SameGlobal(k, t); } else { SameEvent(k, t); }
  }

  lemma FirstAddresses(i: nat)
    requires i < 36
    ensures KprobeX86At(i + 1).0 == KprobeX86At(i).0 + Length(KprobeX86At(i).1)
  {
    hide X86GlobalAt, X86EmitAt;
  }

  lemma LastAddresses(i: nat)
    requires 36 <= i < 84
    ensures KprobeX86At(i + 1).0 == KprobeX86At(i).0 + Length(KprobeX86At(i).1)
  {
    hide X86CountAt, X86IdentifyAt;
  }

  /** The addresses of the listing follow from the lengths of its instructions. */
  lemma Addresses(i: nat)
    requires i < 84
    ensures KprobeX86At(i + 1).0 == KprobeX86At(i).0 + Length(KprobeX86At(i).1)
  {
    hide KprobeX86At, Length;
    if i < 36 { FirstAddresses(i); } else { LastAddresses(i); }
  }

  lemma Sizes(k: nat)
    requires k < 91 && Covered(KPROBE_REWRITTEN[k])
    ensures var code := Emit(KPROBE_REWRITTEN[k], 0);
            && |code| == FirstOf(k + 1) - FirstOf(k)
            && (k < 90 ==> TotalLength(code) == KprobeX86At(FirstOf(k + 1)).0 - KprobeX86At(FirstOf(k)).0)
  {
    var t := if k == 28 then 0x84 else if k == 31 then 0xbe else if k == 43 then 0xd4 else 0x150;
    hide Covered, KprobeX86At, KprobeRewrittenAt, Emit, Length, TotalLength;
    SameEmit(k, t);
    var a := Emit(KPROBE_REWRITTEN[k], t);
    EmitShape(KPROBE_REWRITTEN[k], 0, t);
    HelloJit.LengthOfFew(a);
    if k < 90 && |a| > 0 { Addresses(FirstOf(k)); }
    if k < 90 && |a| > 1 { Addresses(FirstOf(k) + 1); }
  }

  lemma {:induction false} Placed(base: int, k: nat)
    requires k < 91
    ensures SlotAddress(KPROBE_REWRITTEN, base, k) == base + KprobeX86At(FirstOf(k)).0 - BASE
  {
    if k > 0 {
      hide Emit, KprobeRewrittenAt, TotalLength, KprobeX86At, FirstOf, Covered;
      CoveredSlots(k - 1);
      Sizes(k - 1);
      Placed(base, k - 1);
    }
  }

  lemma Distances(k: nat)
    requires k < 91
    ensures k == 28 ==> Reaches(KPROBE_REWRITTEN, 29, 30)
    ensures k == 31 ==> Reaches(KPROBE_REWRITTEN, 32, 44)
    ensures k == 43 ==> Reaches(KPROBE_REWRITTEN, 44, 49)
    ensures k == 53 ==> Reaches(KPROBE_REWRITTEN, 54, 76)
    ensures k == 65 ==> Reaches(KPROBE_REWRITTEN, 66, 76)
  {
    hide SlotAddress, KprobeRewrittenAt;
    Placed(0, 29);
    Placed(0, 30);
    Placed(0, 32);
    Placed(0, 44);
    Placed(0, 49);
    Placed(0, 54);
    Placed(0, 66);
    Placed(0, 76);
  }

  lemma KprobeSlot(k: nat)
    requires k < 91
    ensures Covered(KPROBE_REWRITTEN[k]) && SlotOk(KPROBE_REWRITTEN, k)
  {
    hide Covered, KprobeRewrittenAt;
    CoveredSlots(k);
    JumpSlots(k);
    var i := KPROBE_REWRITTEN[k];
    Kinds(k);
    if k + 1 < 91 { Kinds(k + 1); }
    if k + 2 < 91 { Kinds(k + 2); }
    if i.Jump? || i.JumpIf? { Kinds(k + 1 + i.joff); }
    Distances(k);
    hide SlotAddress;
  }

  lemma KprobeCompilable()
    ensures Compilable(KPROBE_REWRITTEN)
  {
    hide Covered, SlotOk;
    forall k: nat | k < 91 ensures Covered(KPROBE_REWRITTEN[k]) && SlotOk(KPROBE_REWRITTEN, k) { KprobeSlot(k); }
  }

  lemma {:induction false} Starts(k: nat)
    requires k <= 91 && Compilable(KPROBE_REWRITTEN)
    ensures Index(KPROBE_REWRITTEN, k) == FirstOf(k)
    ensures k < 91 ==> SlotAddress(KPROBE_REWRITTEN, BASE, k) == KprobeX86At(FirstOf(k)).0
  {
    if k < 91 { Placed(BASE, k); }
    if k > 0 {
      assert Covered(KPROBE_REWRITTEN[k - 1]);
      hide Compilable, Emit, KprobeRewrittenAt, TotalLength, KprobeX86At, FirstOf, Covered, SlotAddress;
      Sizes(k - 1);
      Starts(k - 1);
    } else {
      hide Compilable;
    }
  }

  lemma Targets(k: nat)
    requires k < 91 && Compilable(KPROBE_REWRITTEN)
    ensures Aimed(k, JumpAddress(KPROBE_REWRITTEN, BASE, k))
  {
    hide Compilable, SlotAddress, KprobeRewrittenAt, Covered, Emit, SlotOk;
    JumpSlots(k);
    Starts(30);
    Starts(44);
    Starts(49);
    Starts(76);
  }

  lemma SameCode(k: nat)
    requires k < 91 && Compilable(KPROBE_REWRITTEN)
    ensures 0 <= FirstOf(k) <= FirstOf(k + 1) <= 85
    ensures CodeFor(KPROBE_REWRITTEN, BASE, k) == KPROBE_X86[FirstOf(k)..FirstOf(k + 1)]
  {
    assert Covered(KPROBE_REWRITTEN[k]);
    hide Compilable, Covered, Emit, JumpAddress, FirstOf, KprobeX86At, KprobeRewrittenAt, Aimed;
    Targets(k);
    SameEmit(k, JumpAddress(KPROBE_REWRITTEN, BASE, k));
  }

  lemma {:induction false} SameUpTo(k: nat)
    requires k <= 91 && Compilable(KPROBE_REWRITTEN)
    ensures 0 <= FirstOf(k) <= 85 && CompileTo(KPROBE_REWRITTEN, BASE, k) == KPROBE_X86[..FirstOf(k)]
  {
    if k > 0 {
      hide CodeFor, KprobeX86At, KprobeRewrittenAt, Compilable, FirstOf;
      SameUpTo(k - 1);
      SameCode(k - 1);
    }
  }

  /** The listing is the compilation, instruction by instruction and address by address. */
  lemma KprobeIsCompiled()
    ensures Compilable(KPROBE_REWRITTEN) && KPROBE_X86 == Compile(KPROBE_REWRITTEN, BASE)
    ensures forall k: nat :: k < 91 ==> SlotAddress(KPROBE_REWRITTEN, BASE, k) == KprobeX86At(FirstOf(k)).0
  {
    KprobeCompilable();
    hide Compilable, KprobeX86At, KprobeRewrittenAt;
    SameUpTo(91);
    forall k: nat | k < 91 ensures SlotAddress(KPROBE_REWRITTEN, BASE, k) == KprobeX86At(FirstOf(k)).0 { Starts(k); }
  }

  /** From C to machine code: all forms of kprobe_exec have the behaviour that the C
      function prescribes, for all globals, tables and helper answers. */
  lemma KprobeEndToEnd(g: C.Globals, mem: Memory, o: Oracle)
    requires P.Represents(mem, g)
    ensures var spec := Returns(0, mem.(data := P.IntBytes(C.NextC(g)) + g.message), P.ShownAll(C.EventsOf(g, o)));
            && BehaviourOf(KprobeListing.KPROBE_OBJECT, o, mem) == spec
            && BehaviourOf(KPROBE_REWRITTEN, o, mem) == spec
            && BehaviourOfX(KPROBE_X86, BASE, o, mem) == spec
  {
    hide Compilable, Compile, Rewriter.Rewrite, Rewriter.Rewritable, P.IntBytes, P.ShownAll, C.EventsOf, C.NextC, P.Represents;
    P.Behaves(g, mem, o);
    KprobeIsRewritten();
    Rewriter.RewritePreservesBehaviour(KprobeListing.KPROBE_OBJECT, o, mem);
    KprobeIsCompiled();
    CompilePreservesBehaviour(KPROBE_REWRITTEN, BASE, o, mem);
  }
}
