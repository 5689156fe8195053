/** The bytecode of kprobe_exec as the kernel rewrote it: exactly the rewriting of its object code. */
module KprobeRewritten {
  import opened Isa
  import opened Rewriter
  import opened KprobeListing

  /** Slots 0 to 15: c is read and incremented, the buffer cleared. */
  function NewCountAt(pc: int): Insn {
    match pc
    case 0 => Alu(Mov, 6, Reg(1))
    case 1 => LoadSym(1, DataRef, 0)
    case 3 => Load(W, 2, 1, 0)
    case 4 => Alu(Mov, 3, Reg(2))
    case 5 => Alu(Add, 3, Imm(1))
    case 6 => Store(W, 1, 0, 3)
    case 7 => Alu(Mov, 1, Imm(0))
    case 8 => Store(W, 10, -8, 1)
    case 9 => Store(W, 10, -12, 1)
    case 10 => Store(W, 10, -16, 1)
    case 11 => Store(W, 10, -20, 1)
    case 12 => Store(W, 10, -24, 1)
    case 13 => Store(W, 10, -28, 1)
    case 14 => Store(W, 10, -4, 1)
    case 15 => Store(W, 10, -32, 2)
    case _ => Second
  }

  /** Slots 16 to 31: process, user, and the lookup, with the step over the header. */
  function NewIdentifyAt(pc: int): Insn {
    match pc
    case 16 => Call(PidTgid)
    case 17 => Store(W, 10, -40, 0)
    case 18 => Call(UidGid)
    case 19 => Store(W, 10, -36, 0)
    case 20 => Alu(Lsh, 0, Imm(32))
    case 21 => Alu(Rsh, 0, Imm(32))
    case 22 => Store(DW, 10, -48, 0)
    case 23 => Alu(Mov, 2, Reg(10))
    case 24 => Alu(Add, 2, Imm(-48))
    case 25 => LoadSym(1, MapRef(MyConfig), 0)
    case 27 => Call(RawLookup)
    case 28 => JumpIf(Eq, 0, Imm(0), 1)
    case 29 => Alu(Add, 0, Imm(56))
    case 30 => Alu(Mov, 7, Reg(0))
    case 31 => JumpIf(Eq, 7, Imm(0), 12)
    case _ => Second
  }

  /** Slots 32 to 49: the greeting and the copy of a message. */
  function NewCopyAt(pc: int): Insn {
    match pc
    case 32 => Load(B, 3, 7, 0)
    case 33 => Alu(Lsh, 3, Imm(56))
    case 34 => Alu(Arsh, 3, Imm(56))
    case 35 => LoadSym(1, RodataRef, 0)
    case 37 => Alu(Mov, 2, Imm(3))
    case 38 => Call(Printk)
    case 39 => Alu(Mov, 1, Reg(10))
    case 40 => Alu(Add, 1, Imm(-12))
    case 41 => Alu(Mov, 2, Imm(12))
    case 42 => Alu(Mov, 3, Reg(7))
    case 43 => Jump(5)
    case 44 => Alu(Mov, 1, Reg(10))
    case 45 => Alu(Add, 1, Imm(-12))
    case 46 => Alu(Mov, 2, Imm(12))
    case 47 => LoadSym(3, DataRef, 4)
    case 49 => Call(ProbeRead)
    case _ => Second
  }

  /** Slots 50 to 65: the character at c of the global message. */
  function NewGlobalAt(pc: int): Insn {
    match pc
    case 50 => LoadSym(7, DataRef, 0)
    case 52 => Load(W, 1, 7, 0)
    case 53 => JumpIf(Gt, 1, Imm(11), 22)
    case 54 => LoadSym(2, DataRef, 4)
    case 56 => Alu(Add, 2, Reg(1))
    case 57 => Load(B, 3, 2, 0)
    case 58 => Alu(Lsh, 3, Imm(56))
    case 59 => Alu(Arsh, 3, Imm(56))
    case 60 => LoadSym(1, RodataRef, 3)
    case 62 => Alu(Mov, 2, Imm(3))
    case 63 => Call(Printk)
    case 64 => Load(W, 1, 7, 0)
    case 65 => JumpIf(Gt, 1, Imm(11), 10)
    case _ => Second
  }

  /** Slots 66 to 90: the character at c of the copy, and the event. */
  function NewEmitAt(pc: int): Insn {
    match pc
    case 66 => Alu(Mov, 2, Reg(10))
    case 67 => Alu(Add, 2, Imm(-40))
    case 68 => Alu(Add, 2, Reg(1))
    case 69 => Load(B, 3, 2, 28)
    case 70 => Alu(Lsh, 3, Imm(56))
    case 71 => Alu(Arsh, 3, Imm(56))
    case 72 => LoadSym(1, RodataRef, 6)
    case 74 => Alu(Mov, 2, Imm(3))
    case 75 => Call(Printk)
    case 76 => Alu(Mov, 1, Reg(10))
    case 77 => Alu(Add, 1, Imm(-28))
    case 78 => Alu(Mov, 2, Imm(16))
    case 79 => Call(Comm)
    case 80 => Alu(Mov, 4, Reg(10))
    case 81 => Alu(Add, 4, Imm(-40))
    case 82 => Alu(Mov, 1, Reg(6))
    case 83 => LoadSym(2, MapRef(OutputMap), 0)
    case 85 => LoadImm(3, 0xFFFF_FFFF)
    case 87 => Alu(Mov, 5, Imm(40))
    case 88 => Call(PerfOutput)
    case 89 => Alu(Mov, 0, Imm(0))
    case 90 => Exit
    case _ => Second
  }

  function KprobeRewrittenAt(pc: int): Insn {
    if pc < 16 then NewCountAt(pc) else if pc < 32 then NewIdentifyAt(pc) else if pc < 50 then NewCopyAt(pc)
    else if pc < 66 then NewGlobalAt(pc) else NewEmitAt(pc)
  }

  const KPROBE_REWRITTEN: Program := seq(91, KprobeRewrittenAt)

  function NewPlace(k: int): int {
    if k <= 27 then k else k + 2
  }

  lemma OneLookup(k: nat)
    requires k < 89
    ensures KprobeObjectAt(k) == Call(MapLookup) <==> k == 27
  {
  }

  lemma {:induction false} Places(k: nat)
    requires k <= 89
    ensures Pos(KPROBE_OBJECT, k) == NewPlace(k)
  {
    if k > 0 {
      OneLookup(k - 1);
      hide KprobeObjectAt;
      Places(k - 1);
    }
  }

  lemma Jumps(k: nat)
    requires k < 89 && (KprobeObjectAt(k).Jump? || KprobeObjectAt(k).JumpIf?)
    ensures (k == 29 && KprobeObjectAt(k).joff == 12) || (k == 41 && KprobeObjectAt(k).joff == 5)
         || (k == 51 && KprobeObjectAt(k).joff == 22) || (k == 63 && KprobeObjectAt(k).joff == 10)
  {
  }

  lemma Symbols(k: nat)
    requires k < 89
    ensures Wide(KprobeObjectAt(k)) ==> k + 1 < 89 && KprobeObjectAt(k + 1) == Second
    ensures KprobeObjectAt(k).LoadSym? ==> KprobeObjectAt(k).addend <= 6
  {
  }

  lemma KprobeRewritable()
    ensures Rewritable(KPROBE_OBJECT)
  {
    hide KprobeObjectAt;
    forall k: nat | k < 89
      ensures Wide(KPROBE_OBJECT[k]) ==> k + 1 < 89 && KPROBE_OBJECT[k + 1] == Second
      ensures KPROBE_OBJECT[k].LoadSym? ==> KPROBE_OBJECT[k].addend <= 6
    {
      Symbols(k);
    }
    forall k: nat | k < 89 && (KPROBE_OBJECT[k].Jump? || KPROBE_OBJECT[k].JumpIf?)
      ensures 0 <= k + 1 + KPROBE_OBJECT[k].joff <= 89
      ensures Pos(KPROBE_OBJECT, k + 1 + KPROBE_OBJECT[k].joff) - Pos(KPROBE_OBJECT, k) - 1 == KPROBE_OBJECT[k].joff
    {
      Jumps(k);
      Places(k);
      Places(k + 1 + KPROBE_OBJECT[k].joff);
    }
  }

  lemma SameJump(k: nat)
    requires k < 89 && Rewritable(KPROBE_OBJECT) && (KPROBE_OBJECT[k].Jump? || KPROBE_OBJECT[k].JumpIf?)
    ensures NewOffset(KPROBE_OBJECT, k) == KPROBE_OBJECT[k].joff
  {
    hide KprobeObjectAt, Rewritable;
    Jumps(k);
    Places(k);
    Places(k + 1 + KPROBE_OBJECT[k].joff);
  }

  lemma SameParts(k: nat)
    requires k < 89
    ensures NewPlace(k + 1) == NewPlace(k) + |Replaced(KprobeObjectAt(k))|
    ensures KprobeRewrittenAt(NewPlace(k)) == Replaced(KprobeObjectAt(k))[0]
    ensures k == 27 ==> KprobeRewrittenAt(28) == Replaced(KprobeObjectAt(k))[1] && KprobeRewrittenAt(29) == Replaced(KprobeObjectAt(k))[2]
  {
    if k < 16 {
    } else if k < 30 {
    } else if k < 48 {
    } else if k < 64 {
    } else {
    }
  }

  lemma SamePatch(k: nat)
    requires k < 89 && Rewritable(KPROBE_OBJECT)
    ensures NewPlace(k + 1) <= 91 && Patch(KPROBE_OBJECT, k) == KPROBE_REWRITTEN[NewPlace(k)..NewPlace(k + 1)]
  {
    SameParts(k);
    OneLookup(k);
    ReplacedSize(KPROBE_OBJECT[k]);
    if KPROBE_OBJECT[k].Jump? || KPROBE_OBJECT[k].JumpIf? { SameJump(k); }
    PatchIs(KPROBE_OBJECT, k);
    hide Patch, KprobeObjectAt, KprobeRewrittenAt, Replaced, Rewritable, Pos;
    var r := Replaced(KPROBE_OBJECT[k]);
    assert r[0] == KPROBE_REWRITTEN[NewPlace(k)];
    if k == 27 { assert r[1] == KPROBE_REWRITTEN[28] && r[2] == KPROBE_REWRITTEN[29]; }
  }

  lemma {:induction false} SameUpTo(k: nat)
    requires k <= 89 && Rewritable(KPROBE_OBJECT)
    ensures RewriteTo(KPROBE_OBJECT, k) == KPROBE_REWRITTEN[..NewPlace(k)]
  {
    if k > 0 {
      hide Patch, KprobeObjectAt, KprobeRewrittenAt, Rewritable, Pos;
      SameUpTo(k - 1);
      SamePatch(k - 1);
    }
  }

  lemma KprobeIsRewritten()
    ensures Rewritable(KPROBE_OBJECT) && KPROBE_REWRITTEN == Rewrite(KPROBE_OBJECT)
  {
    hide KprobeObjectAt, KprobeRewrittenAt, Rewritable;
    KprobeRewritable();
    SameUpTo(89);
  }
}
