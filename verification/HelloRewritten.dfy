/** The bytecode of hello as the kernel rewrote it: exactly the rewriting of its object code. */
module HelloRewritten {
  import opened Isa
  import opened Rewriter
  import opened HelloListing

  function HelloRewrittenAt(pc: int): Insn {
    match pc
    case 0 => Call(UidGid)
    case 1 => Alu(Lsh, 0, Imm(32))
    case 2 => Alu(Rsh, 0, Imm(32))
    case 3 => Store(DW, 10, -8, 0)
    case 4 => Alu(Mov, 2, Reg(10))
    case 5 => Alu(Add, 2, Imm(-8))
    case 6 => LoadSym(1, MapRef(CounterTable), 0)
    case 8 => Call(RawLookup)
    case 9 => JumpIf(Eq, 0, Imm(0), 1)
    case 10 => Alu(Add, 0, Imm(56))
    case 11 => Alu(Mov, 1, Imm(1))
    case 12 => JumpIf(Eq, 0, Imm(0), 2)
    case 13 => Load(DW, 1, 0, 0)
    case 14 => Alu(Add, 1, Imm(1))
    case 15 => Store(DW, 10, -16, 1)
    case 16 => Alu(Mov, 2, Reg(10))
    case 17 => Alu(Add, 2, Imm(-8))
    case 18 => Alu(Mov, 3, Reg(10))
    case 19 => Alu(Add, 3, Imm(-16))
    case 20 => LoadSym(1, MapRef(CounterTable), 0)
    case 22 => Alu(Mov, 4, Imm(0))
    case 23 => Call(MapUpdate)
    case 24 => Alu(Mov, 0, Imm(0))
    case 25 => Exit
    case _ => Second
  }

  const HELLO_REWRITTEN: Program := seq(26, HelloRewrittenAt)

  function NewPlace(k: int): int {
    if k <= 8 then k else k + 2
  }

  lemma {:induction false} Places(k: nat)
    requires k <= 24
    ensures Pos(HELLO_OBJECT, k) == NewPlace(k)
  {
    if k > 0 { Places(k - 1); }
  }

  lemma HelloRewritable()
    ensures Rewritable(HELLO_OBJECT)
  {
    Places(10);
    Places(13);
    hide HelloObjectAt;
    forall k: nat | k < 24
      ensures Wide(HELLO_OBJECT[k]) ==> k + 1 < 24 && HELLO_OBJECT[k + 1] == Second
      ensures HELLO_OBJECT[k].LoadSym? ==> HELLO_OBJECT[k].addend == 0
      ensures HELLO_OBJECT[k].Jump? || HELLO_OBJECT[k].JumpIf? ==> k == 10 && HELLO_OBJECT[k].joff == 2
    {
      Slots(k);
    }
  }

  lemma Slots(k: nat)
    requires k < 24
    ensures Wide(HelloObjectAt(k)) ==> k + 1 < 24 && HelloObjectAt(k + 1) == Second
    ensures HelloObjectAt(k).LoadSym? ==> HelloObjectAt(k).addend == 0
    ensures HelloObjectAt(k).Jump? || HelloObjectAt(k).JumpIf? ==> k == 10 && HelloObjectAt(k).joff == 2
  {
  }

  lemma {:induction false} SameUpTo(k: nat)
    requires k <= 24 && Rewritable(HELLO_OBJECT)
    ensures RewriteTo(HELLO_OBJECT, k) == HELLO_REWRITTEN[..NewPlace(k)]
  {
    if k > 0 {
      SameUpTo(k - 1);
      Places(k - 1);
      SamePatch(k - 1);
      hide Patch, HelloObjectAt, HelloRewrittenAt;
    }
  }

  lemma SameParts(k: nat)
    requires k < 24
    ensures NewPlace(k + 1) == NewPlace(k) + |Replaced(HelloObjectAt(k))| <= 26
    ensures HelloRewrittenAt(NewPlace(k)) == Replaced(HelloObjectAt(k))[0]
    ensures k == 8 ==> HelloRewrittenAt(9) == Replaced(HelloObjectAt(k))[1] && HelloRewrittenAt(10) == Replaced(HelloObjectAt(k))[2]
    ensures k != 8 ==> |Replaced(HelloObjectAt(k))| == 1
  {
  }

  lemma SamePatch(k: nat)
    requires k < 24 && Rewritable(HELLO_OBJECT)
    ensures NewPlace(k + 1) <= 26 && Patch(HELLO_OBJECT, k) == HELLO_REWRITTEN[NewPlace(k)..NewPlace(k + 1)]
  {
    SameParts(k);
    Slots(k);
    Places(10);
    Places(13);
    hide Pos, HelloObjectAt, HelloRewrittenAt, Rewritable, Patch, Replaced;
    PatchIs(HELLO_OBJECT, k);
    var r := Replaced(HELLO_OBJECT[k]);
    assert r[0] == HELLO_REWRITTEN[NewPlace(k)];
    if k == 8 { assert r[1] == HELLO_REWRITTEN[9] && r[2] == HELLO_REWRITTEN[10]; }
  }

  lemma HelloIsRewritten()
    ensures Rewritable(HELLO_OBJECT) && HELLO_REWRITTEN == Rewrite(HELLO_OBJECT)
  {
    HelloRewritable();
    SameUpTo(24);
  }
}
