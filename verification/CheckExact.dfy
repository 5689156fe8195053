/**
 The check refuses nothing without need: on a state that is known in full it fails exactly if the
 instruction is an error, apart from three kinds of instruction that the verifier never allows.
 */
module CheckExact {
  import opened Word
  import opened Isa
  import opened Machine
  import opened Abstract
  import opened Checker

  /** All is known about a value. */
  predicate Exactly(k: Kind, v: Value) {
    match v
    case Uninit => k == NotInit
    case Scalar(n) => k == Num(n, n)
    case Ptr(_, off) => k.To? && k.first == off && k.last == off
    case MapPtr(m) => k == Map(m)
  }

  /** A saved state that describes s and leaves nothing open. */
  ghost predicate Complete(ld: Loaded, a: Saved, s: State) {
    && Describes(ld, a, s) && a.packet == |s.mem.packet|
    && (forall i :: 0 <= i < 512 && s.stack[i] != -1 ==> i in a.init)
    && (forall r: RegId :: Exactly(a.kinds.Get(r), s.regs.Get(r)))
  }

  /** What the verifier does not allow although the machine could do it: signed division by a
      negative number, comparing two pointers into the packet, and formats outside the constants. */
  predicate Disallowed(i: Insn, a: Saved) {
    match i
    case Alu(op, _, src) => (op == SDiv || op == SMod) && OperandKind(a.kinds, src).Num? && OperandKind(a.kinds, src).lo >= 0x8000_0000_0000_0000
    case JumpIf(op, left, right, _) => a.kinds.Get(left).To? && OperandKind(a.kinds, right).To?
    case Call(Printk) => a.kinds.k1.To? && a.kinds.k1.base != InRodata
    case _ => false
  }

  lemma KnownRegister(ld: Loaded, a: Saved, s: State, r: RegId)
    requires Complete(ld, a, s)
    ensures Exactly(a.kinds.Get(r), s.regs.Get(r)) && Fits(a.kinds.Get(r), s.regs.Get(r), s.mem)
  {
    hide Exactly, Fits;
    GetFits(a.kinds, s.regs, s.mem, r);
  }

  lemma KnownOperand(ld: Loaded, a: Saved, s: State, src: Operand)
    requires Complete(ld, a, s)
    ensures Exactly(OperandKind(a.kinds, src), OperandValue(s.regs, src)) && Fits(OperandKind(a.kinds, src), OperandValue(s.regs, src), s.mem)
  {
    hide Complete;
    if src.Reg? { KnownRegister(ld, a, s, src.reg); }
  }

  // ---- Accesses ----

  lemma ReadExact(ld: Loaded, a: Saved, s: State, k: Kind, v: Value, off: int, n: nat)
    requires Complete(ld, a, s) && Exactly(k, v) && Fits(k, v, s.mem) && v.Ptr? && v.region != Ctx
    ensures Readable(ld, a, k, off, n) <==> ReadBytes(s.mem, s.stack, v.region, v.off + off, n).Some?
  {
    hide AllFit;
  }

  lemma WriteExact(ld: Loaded, a: Saved, s: State, k: Kind, v: Value, off: int, t: seq<Byte>)
    requires Complete(ld, a, s) && Exactly(k, v) && Fits(k, v, s.mem) && v.Ptr?
    ensures Writable(ld, a, k, off, |t|) <==> WriteBytes(s.mem, s.stack, v.region, v.off + off, t).Some?
  {
    hide AllFit;
  }

  lemma LoadExact(ld: Loaded, a: Saved, s: State, i: Insn, r: Reply)
    requires Complete(ld, a, s) && i.Load?
    ensures Check(ld, i, a).Some? <==> !Execute(i, s, r).Error?
  {
    hide Complete, Readable, ReadBytes, Word64;
    var k, v := a.kinds.Get(i.base), s.regs.Get(i.base);
    KnownRegister(ld, a, s, i.base);
    if v.Ptr? && v.region != Ctx { ReadExact(ld, a, s, k, v, i.off, i.size.Bytes()); }
  }

  lemma NotWritable(ld: Loaded, a: Saved, k: Kind, off: int, n: nat)
    ensures !k.To? ==> !Writable(ld, a, k, off, n)
  {
  }

  lemma StoreExact(ld: Loaded, a: Saved, s: State, i: Insn, r: Reply)
    requires Complete(ld, a, s) && i.Store?
    ensures Check(ld, i, a).Some? <==> !Execute(i, s, r).Error?
  {
    hide Complete, Writable, WriteBytes, Bytes, SetBy;
    var k, v, x := a.kinds.Get(i.base), s.regs.Get(i.base), s.regs.Get(i.val);
    KnownRegister(ld, a, s, i.base);
    KnownRegister(ld, a, s, i.val);
    if v.Ptr? && x.Scalar? {
      var t := Bytes(x.n, i.size.Bytes());
      assert |t| == i.size.Bytes();
      WriteExact(ld, a, s, k, v, i.off, t);
    } else {
      NotWritable(ld, a, k, i.off, i.size.Bytes());
    }
  }

  // ---- Arithmetic and comparisons ----

  lemma AluExact(ld: Loaded, a: Saved, s: State, i: Insn, r: Reply)
    requires Complete(ld, a, s) && i.Alu? && !Disallowed(i, a)
    ensures Check(ld, i, a).Some? <==> !Execute(i, s, r).Error?
  {
    hide Complete, OperandKind, OperandValue, ScalarAlu, NumResult;
    KnownRegister(ld, a, s, i.dst);
    KnownOperand(ld, a, s, i.src);
  }

  lemma TestExact(ld: Loaded, a: Saved, s: State, i: Insn, r: Reply)
    requires Complete(ld, a, s) && i.JumpIf? && !Disallowed(i, a)
    ensures Check(ld, i, a).Some? <==> !Execute(i, s, r).Error?
  {
    hide Complete, OperandKind, OperandValue, Holds, Narrow;
    KnownRegister(ld, a, s, i.left);
    KnownOperand(ld, a, s, i.right);
  }

  // ---- Calls ----

  lemma ArgumentsKnown(ld: Loaded, a: Saved, s: State)
    requires Complete(ld, a, s)
    ensures var k, v := a.kinds, s.regs;
            && Exactly(k.k1, v.r1) && Exactly(k.k2, v.r2) && Exactly(k.k3, v.r3) && Exactly(k.k4, v.r4) && Exactly(k.k5, v.r5)
            && Fits(k.k1, v.r1, s.mem) && Fits(k.k2, v.r2, s.mem) && Fits(k.k3, v.r3, s.mem) && Fits(k.k4, v.r4, s.mem) && Fits(k.k5, v.r5, s.mem)
  {
    hide Complete, Exactly, Fits;
    KnownRegister(ld, a, s, 1);
    KnownRegister(ld, a, s, 2);
    KnownRegister(ld, a, s, 3);
    KnownRegister(ld, a, s, 4);
    KnownRegister(ld, a, s, 5);
  }

  /** A buffer argument of n bytes. */
  lemma BufferExact(ld: Loaded, a: Saved, s: State, k: Kind, v: Value, n: nat)
    requires Complete(ld, a, s) && Exactly(k, v) && Fits(k, v, s.mem)
    ensures Readable(ld, a, k, 0, n) <==> ReadVia(s, v, n).Some?
  {
    hide Complete, ReadBytes;
    if v.Ptr? && v.region != Ctx { ReadExact(ld, a, s, k, v, 0, n); } else { NothingRead(s, v, n); }
  }

  lemma NothingRead(s: State, v: Value, n: nat)
    requires !v.Ptr? || v.region == Ctx
    ensures ReadVia(s, v, n).None?
  {
  }

  lemma TableCallExact(ld: Loaded, a: Saved, s: State, h: Helper, r: Reply)
    requires Complete(ld, a, s) && (h.MapLookup? || h.RawLookup? || h.MapUpdate?)
    ensures CheckCall(ld, a, h).Some? <==> !CallHelper(h, s, r).Error?
  {
    hide Complete, Readable, ReadVia, Accepts, WithTable, TableOf;
    ArgumentsKnown(ld, a, s);
    if s.regs.r1.MapPtr? {
      BufferExact(ld, a, s, a.kinds.k2, s.regs.r2, KeySize(s.regs.r1.m));
      BufferExact(ld, a, s, a.kinds.k3, s.regs.r3, ValueSize(s.regs.r1.m));
    }
  }

  lemma FillCallExact(ld: Loaded, a: Saved, s: State, h: Helper, r: Reply)
    requires Complete(ld, a, s) && (h.Comm? || h.ProbeRead?)
    ensures CheckCall(ld, a, h).Some? <==> !CallHelper(h, s, r).Error?
  {
    hide Complete, Writable, WriteBytes, ReadVia, Fit, SetBy;
    ArgumentsKnown(ld, a, s);
    var p, n := s.regs.r1, s.regs.r2;
    NotWritable(ld, a, a.kinds.k1, 0, if n.Scalar? then n.n else 0);
    if n.Scalar? && p.Ptr? {
      var src := ReadVia(s, s.regs.r3, n.n);
      var t := if h.ProbeRead? && src.Some? && !r.refuse then src.value else Fit(r.bytes, n.n);
      assert |t| == n.n;
      WriteExact(ld, a, s, a.kinds.k1, p, 0, t);
    }
  }

  lemma OtherCallExact(ld: Loaded, a: Saved, s: State, h: Helper, r: Reply)
    requires Complete(ld, a, s) && (h.PidTgid? || h.UidGid? || h.PerfOutput?)
    ensures CheckCall(ld, a, h).Some? <==> !CallHelper(h, s, r).Error?
  {
    hide Complete, Readable, ReadVia;
    ArgumentsKnown(ld, a, s);
    if s.regs.r5.Scalar? { BufferExact(ld, a, s, a.kinds.k4, s.regs.r4, s.regs.r5.n); }
  }

  lemma PrintExact(ld: Loaded, a: Saved, s: State, r: Reply)
    requires Complete(ld, a, s) && (a.kinds.k1.To? ==> a.kinds.k1.base == InRodata)
    ensures CheckCall(ld, a, Printk).Some? <==> !CallHelper(Printk, s, r).Error?
  {
    hide Complete, Conversions;
    ArgumentsKnown(ld, a, s);
    SameConstants(ld, a, s);
  }

  lemma SameConstants(ld: Loaded, a: Saved, s: State)
    requires Complete(ld, a, s)
    ensures ld.rodata == s.mem.rodata
  {
  }

  lemma CallExact(ld: Loaded, a: Saved, s: State, i: Insn, r: Reply)
    requires Complete(ld, a, s) && i.Call? && !Disallowed(i, a)
    ensures Check(ld, i, a).Some? <==> !Execute(i, s, r).Error?
  {
    hide Complete, CheckCall, CallHelper;
    match i.helper
    case MapLookup | RawLookup | MapUpdate => TableCallExact(ld, a, s, i.helper, r);
    case Comm | ProbeRead => FillCallExact(ld, a, s, i.helper, r);
    case Printk => PrintExact(ld, a, s, r);
    case PidTgid | UidGid | PerfOutput => OtherCallExact(ld, a, s, i.helper, r);
  }

  /** What is known in full passes its check exactly if it is no error. */
  lemma CheckIsExact(ld: Loaded, a: Saved, s: State, i: Insn, r: Reply)
    requires Complete(ld, a, s) && !Disallowed(i, a)
    ensures Check(ld, i, a).Some? <==> !Execute(i, s, r).Error?
  {
    hide Complete, Disallowed, Check, Execute;
    match i
    case Alu(_, _, _) => AluExact(ld, a, s, i, r);
    case Load(_, _, _, _) => LoadExact(ld, a, s, i, r);
    case Store(_, _, _, _) => StoreExact(ld, a, s, i, r);
    case JumpIf(_, _, _, _) => TestExact(ld, a, s, i, r);
    case Call(_) => CallExact(ld, a, s, i, r);
    case _ => OtherExact(ld, a, s, i, r);
  }

  lemma OtherExact(ld: Loaded, a: Saved, s: State, i: Insn, r: Reply)
    requires Complete(ld, a, s) && (i.LoadImm? || i.LoadSym? || i.Second? || i.Jump? || i.Exit?)
    ensures Check(ld, i, a).Some? <==> !Execute(i, s, r).Error?
  {
    KnownRegister(ld, a, s, 0);
    hide Complete, ResolveKind, Resolve;
  }
}
