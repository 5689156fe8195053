/**
 Pruning loses nothing: what passes for a saved state passes for every state that it
 includes. So the walk accepts a program exactly if the check passes on every path.
 */
module Pruning {
  import opened Word
  import opened Isa
  import opened Machine
  import opened Abstract
  import opened Checker
  import opened Verifier

  /** Ranges that hold at least one value. */
  predicate KindSane(k: Kind) {
    match k
    case Num(lo, hi) => lo <= hi
    case To(_, first, last) => first <= last
    case _ => true
  }

  predicate Sane(a: Saved) {
    var ks := a.kinds;
    && KindSane(ks.k0) && KindSane(ks.k1) && KindSane(ks.k2) && KindSane(ks.k3) && KindSane(ks.k4) && KindSane(ks.k5)
    && KindSane(ks.k6) && KindSane(ks.k7) && KindSane(ks.k8) && KindSane(ks.k9) && KindSane(ks.k10)
  }

  /** a includes b, and b stands for some state. */
  predicate Within(a: Saved, b: Saved) {
    Includes(a, b) && Sane(b)
  }

  predicate KindWithin(k: Kind, l: Kind) {
    KindIncludes(k, l) && KindSane(l)
  }

  lemma GetWithin(a: Saved, b: Saved, r: RegId)
    requires Within(a, b)
    ensures KindWithin(a.kinds.Get(r), b.kinds.Get(r))
  {
    hide KindIncludes, KindSane;
  }

  lemma WithWithin(a: Saved, b: Saved, r: RegId, k: Kind, l: Kind)
    requires Within(a, b) && KindWithin(k, l)
    ensures Within(a.(kinds := a.kinds.With(r, k)), b.(kinds := b.kinds.With(r, l)))
  {
    hide KindIncludes, KindSane;
  }

  /** Each state that follows b is included in one that follows a. */
  predicate AllWithin(next: Option<seq<Saved>>, next': Option<seq<Saved>>) {
    next.Some? ==> next'.Some? && forall k :: 0 <= k < |next'.value| ==> Below(next.value, next'.value[k])
  }

  predicate Below(next: seq<Saved>, b: Saved) {
    exists j :: 0 <= j < |next| && Within(next[j], b)
  }

  lemma OneWithin(a: Saved, b: Saved)
    requires Within(a, b)
    ensures AllWithin(Some([a]), Some([b]))
  {
    hide Within;
    assert Within([a][0], b);
  }

  // ---- Arithmetic ----

  lemma ShrMonotone(x: U64, y: U64, k: nat)
    requires x <= y
    ensures Shr(x, k) <= Shr(y, k) <= y
  {
    DivMonotone(x, y, Pow2(k));
    DivBound(y, Pow2(k));
  }

  lemma ShiftWithin(a: Kind, b: Kind, a': Kind, b': Kind)
    requires a.Num? && b.Num? && KindWithin(a, a') && KindWithin(b, b') && b'.lo == b'.hi
    ensures KindWithin(NumResult(Rsh, a, b), NumResult(Rsh, a', b'))
  {
    hide Shr;
    ShrMonotone(a'.lo, a'.hi, b'.lo);
    ShrMonotone(a.lo, a'.lo, b'.lo);
    ShrMonotone(a'.hi, a.hi, b'.lo);
  }

  lemma NumWithin(op: AluOp, a: Kind, b: Kind, a': Kind, b': Kind)
    requires a.Num? && b.Num? && KindWithin(a, a') && KindWithin(b, b')
    ensures KindWithin(NumResult(op, a, b), NumResult(op, a', b'))
  {
    hide Shr;
    if op.Rsh? && b'.lo == b'.hi { ShiftWithin(a, b, a', b'); }
  }

  lemma AluWithin(op: AluOp, d: Kind, v: Kind, d': Kind, v': Kind)
    requires KindWithin(d, d') && KindWithin(v, v') && AluKind(op, d, v).Some?
    ensures AluKind(op, d', v').Some? && KindWithin(AluKind(op, d, v).value, AluKind(op, d', v').value)
  {
    if !op.Mov? && d.Num? { NumWithin(op, d, v, d', v'); }
    hide NumResult;
  }

  lemma OperandWithin(a: Saved, b: Saved, src: Operand)
    requires Within(a, b)
    ensures KindWithin(OperandKind(a.kinds, src), OperandKind(b.kinds, src))
  {
    if src.Reg? { GetWithin(a, b, src.reg); }
    hide Within;
  }

  lemma SetWithin(a: Saved, b: Saved, dst: RegId, k: Kind, l: Kind, next: int)
    requires Within(a, b) && KindWithin(k, l)
    ensures AllWithin(SetKind(a, dst, k, next), SetKind(b, dst, l, next))
  {
    WithWithin(a, b, dst, k, l);
    hide KindIncludes, KindSane, AllWithin;
    if dst != FRAME {
      OneWithin(a.(pc := next, kinds := a.kinds.With(dst, k)), b.(pc := next, kinds := b.kinds.With(dst, l)));
    } else {
      NoneWithin(SetKind(b, dst, l, next));
    }
  }

  lemma NoneWithin(next: Option<seq<Saved>>)
    ensures AllWithin(None, next)
  {
  }

  // ---- Accesses ----

  lemma ReadableWithin(ld: Loaded, a: Saved, b: Saved, k: Kind, l: Kind, off: int, n: nat)
    requires Within(a, b) && KindWithin(k, l) && Readable(ld, a, k, off, n)
    ensures Readable(ld, b, l, off, n)
  {
    hide KindIncludes, Sane;
    assert KindIncludes(k, l);
    KindsTo(k, l);
  }

  lemma KindsTo(k: Kind, l: Kind)
    requires KindWithin(k, l) && k.To?
    ensures l.To? && l.base == k.base && k.first <= l.first <= l.last <= k.last
  {
  }

  lemma WritableWithin(ld: Loaded, a: Saved, b: Saved, k: Kind, l: Kind, off: int, n: nat)
    requires Within(a, b) && KindWithin(k, l) && Writable(ld, a, k, off, n)
    ensures Writable(ld, b, l, off, n) && SetBy(a, k, off, n) <= SetBy(b, l, off, n)
  {
    KindsTo(k, l);
    hide KindIncludes, Sane;
  }

  lemma LoadWithin(ld: Loaded, a: Saved, b: Saved, size: Size, k: Kind, l: Kind, off: int)
    requires Within(a, b) && KindWithin(k, l) && LoadKind(ld, a, size, k, off).Some?
    ensures LoadKind(ld, b, size, l, off).Some? && KindWithin(LoadKind(ld, a, size, k, off).value, LoadKind(ld, b, size, l, off).value)
  {
    KindsTo(k, l);
    if Readable(ld, a, k, off, size.Bytes()) { ReadableWithin(ld, a, b, k, l, off, size.Bytes()); }
    hide Readable, Within;
  }

  // ---- Calls ----

  lemma ReturnedWithin(a: Saved, b: Saved, init: set<int>, init': set<int>, k: Kind)
    requires Within(a, b) && init <= init' && KindSane(k)
    ensures Within(Returned(a.(init := init), k), Returned(b.(init := init'), k))
  {
    assert KindIncludes(k, k) && KindIncludes(NotInit, NotInit) && KindSane(NotInit);
    hide KindIncludes, KindSane;
  }

  lemma ArgumentsWithin(a: Saved, b: Saved)
    requires Within(a, b)
    ensures KindWithin(a.kinds.k1, b.kinds.k1) && KindWithin(a.kinds.k2, b.kinds.k2) && KindWithin(a.kinds.k3, b.kinds.k3)
    ensures KindWithin(a.kinds.k4, b.kinds.k4) && KindWithin(a.kinds.k5, b.kinds.k5)
  {
    hide KindIncludes, KindSane;
  }

  lemma KnownWithin(k: Kind, l: Kind)
    requires KindWithin(k, l)
    ensures Known(k) ==> k == l
    ensures k.Map? ==> k == l
    ensures k.Num? ==> l.Num?
    ensures l.NotInit? ==> k.NotInit?
  {
  }

  lemma MapCallWithin(ld: Loaded, a: Saved, b: Saved, h: Helper)
    requires Within(a, b) && CheckCall(ld, a, h).Some? && (h.MapLookup? || h.RawLookup? || h.MapUpdate?)
    ensures CheckCall(ld, b, h).Some? && Within(CheckCall(ld, a, h).value, CheckCall(ld, b, h).value)
  {
    ArgumentsWithin(a, b);
    KnownWithin(a.kinds.k1, b.kinds.k1);
    KnownWithin(a.kinds.k4, b.kinds.k4);
    var m := a.kinds.k1.m;
    ReturnedWithin(a, b, a.init, b.init, if h.MapUpdate? then ANY else MaybeNull(m, if h.MapLookup? then ELEM_HEADER else 0));
    hide KindIncludes, KindSane, Within, KindWithin, Readable, Returned;
    ReadableWithin(ld, a, b, a.kinds.k2, b.kinds.k2, 0, KeySize(m));
    if h.MapUpdate? { ReadableWithin(ld, a, b, a.kinds.k3, b.kinds.k3, 0, ValueSize(m)); }
  }

  lemma FillWithin(ld: Loaded, a: Saved, b: Saved, h: Helper)
    requires Within(a, b) && CheckCall(ld, a, h).Some? && (h.Comm? || h.ProbeRead?)
    ensures CheckCall(ld, b, h).Some? && Within(CheckCall(ld, a, h).value, CheckCall(ld, b, h).value)
  {
    ArgumentsWithin(a, b);
    KnownWithin(a.kinds.k2, b.kinds.k2);
    KnownWithin(a.kinds.k3, b.kinds.k3);
    var n := a.kinds.k2.lo;
    assert KindSane(ANY);
    hide KindIncludes, KindSane, Within, KindWithin, Writable, Returned, SetBy;
    WritableWithin(ld, a, b, a.kinds.k1, b.kinds.k1, 0, n);
    ReturnedWithin(a, b, SetBy(a, a.kinds.k1, 0, n), SetBy(b, b.kinds.k1, 0, n), ANY);
  }

  lemma FormatWithin(ld: Loaded, a: Saved, b: Saved)
    requires Within(a, b) && FormatOk(ld, a.kinds)
    ensures FormatOk(ld, b.kinds)
  {
    ArgumentsWithin(a, b);
    KindsTo(a.kinds.k1, b.kinds.k1);
    KnownWithin(a.kinds.k2, b.kinds.k2);
    KnownWithin(a.kinds.k3, b.kinds.k3);
    KnownWithin(a.kinds.k4, b.kinds.k4);
    KnownWithin(a.kinds.k5, b.kinds.k5);
    hide KindIncludes, KindSane, Within, KindWithin, Conversions;
  }

  lemma PerfWithin(ld: Loaded, a: Saved, b: Saved)
    requires Within(a, b) && CheckCall(ld, a, PerfOutput).Some?
    ensures CheckCall(ld, b, PerfOutput).Some? && Within(CheckCall(ld, a, PerfOutput).value, CheckCall(ld, b, PerfOutput).value)
  {
    ArgumentsWithin(a, b);
    KindsTo(a.kinds.k1, b.kinds.k1);
    KnownWithin(a.kinds.k2, b.kinds.k2);
    KnownWithin(a.kinds.k3, b.kinds.k3);
    KnownWithin(a.kinds.k5, b.kinds.k5);
    assert KindSane(ANY);
    hide KindIncludes, KindSane, Within, KindWithin, Readable, Returned;
    ReadableWithin(ld, a, b, a.kinds.k4, b.kinds.k4, 0, a.kinds.k5.lo);
    ReturnedWithin(a, b, a.init, b.init, ANY);
  }

  lemma CallWithin(ld: Loaded, a: Saved, b: Saved, h: Helper)
    requires Within(a, b) && CheckCall(ld, a, h).Some?
    ensures CheckCall(ld, b, h).Some? && Within(CheckCall(ld, a, h).value, CheckCall(ld, b, h).value)
  {
    match h
    case MapLookup | RawLookup | MapUpdate => MapCallWithin(ld, a, b, h);
    case Comm | ProbeRead => FillWithin(ld, a, b, h);
    case PerfOutput => PerfWithin(ld, a, b);
    case Printk =>
      FormatWithin(ld, a, b);
      assert KindSane(ANY);
      hide Within, KindSane, FormatOk, Returned;
      ReturnedWithin(a, b, a.init, b.init, ANY);
    case PidTgid | UidGid =>
      assert KindSane(ANY);
      hide Within, KindSane, Returned;
      ReturnedWithin(a, b, a.init, b.init, ANY);
  }

  // ---- Comparisons ----

  /** Of a smaller range, a comparison leaves a smaller range. */
  lemma RangeWithin(op: CmpOp, k: Kind, l: Kind, c: U64, taken: bool)
    requires k.Num? && l.Num? && KindWithin(k, l)
    ensures var m, n := Narrow(op, k.lo, k.hi, c, taken), Narrow(op, l.lo, l.hi, c, taken);
            0 <= n.0 <= n.1 < 0x1_0000_0000_0000_0000 ==>
              && 0 <= m.0 <= m.1 < 0x1_0000_0000_0000_0000
              && KindWithin(Num(m.0, m.1), Num(n.0, n.1)) && KindWithin(k, Num(n.0, n.1))
  {
  }

  lemma NarrowWithin(op: CmpOp, a: Saved, b: Saved, left: RegId, c: U64, taken: bool)
    requires Within(a, b) && a.kinds.Get(left).Num? && b.kinds.Get(left).Num?
    ensures var k, l := a.kinds.Get(left), b.kinds.Get(left);
            var x, y := NarrowTo(a, left, Narrow(op, k.lo, k.hi, c, taken)), NarrowTo(b, left, Narrow(op, l.lo, l.hi, c, taken));
            y.Some? ==> Within(a, y.value) && x.Some? && Within(x.value, y.value)
  {
    var k, l := a.kinds.Get(left), b.kinds.Get(left);
    hide Within, Narrow, KindWithin;
    GetWithin(a, b, left);
    RangeWithin(op, k, l, c, taken);
    var m, n := Narrow(op, k.lo, k.hi, c, taken), Narrow(op, l.lo, l.hi, c, taken);
    if 0 <= n.0 <= n.1 < 0x1_0000_0000_0000_0000 {
      WithWithin(a, b, left, Num(m.0, m.1), Num(n.0, n.1));
      WithWithin(a, b, left, k, Num(n.0, n.1));
      assert a.kinds.With(left, k) == a.kinds;
    }
  }

  /** Each way open to b is open to a. */
  predicate WaysWithin(w: Ways, w': Ways) {
    && (w'.past.Some? ==> w.past.Some? && Within(w.past.value, w'.past.value))
    && (w'.taken.Some? ==> w.taken.Some? && Within(w.taken.value, w'.taken.value))
  }

  lemma NumbersWithin(a: Saved, b: Saved, op: CmpOp, left: RegId, r: Kind, r': Kind)
    requires Within(a, b) && KindWithin(r, r') && CheckTest(a, op, left, r).Some? && a.kinds.Get(left).Num? && r.Num?
    ensures CheckTest(b, op, left, r').Some? && WaysWithin(CheckTest(a, op, left, r).value, CheckTest(b, op, left, r').value)
  {
    var k, l := a.kinds.Get(left), b.kinds.Get(left);
    GetWithin(a, b, left);
    KnownWithin(r, r');
    assert l.Num? && r'.Num?;
    if Known(r') {
      NarrowWithin(op, a, b, left, r'.lo, false);
      NarrowWithin(op, a, b, left, r'.lo, true);
    }
    hide Within, NarrowTo, Narrow, KindWithin;
  }

  lemma NullWithin(a: Saved, b: Saved, op: CmpOp, left: RegId, r: Kind, r': Kind)
    requires Within(a, b) && KindWithin(r, r') && CheckTest(a, op, left, r).Some? && a.kinds.Get(left).MaybeNull?
    ensures CheckTest(b, op, left, r').Some? && WaysWithin(CheckTest(a, op, left, r).value, CheckTest(b, op, left, r').value)
  {
    var k, l := a.kinds.Get(left), b.kinds.Get(left);
    GetWithin(a, b, left);
    KnownWithin(r, r');
    assert l == k && r' == r;
    SelfWithin(Num(0, 0));
    SelfWithin(To(InElem(k.m), k.at, k.at));
    hide Within, KindWithin, KindIncludes;
    WithWithin(a, b, left, Num(0, 0), Num(0, 0));
    WithWithin(a, b, left, To(InElem(k.m), k.at, k.at), To(InElem(k.m), k.at, k.at));
  }

  lemma PointersWithin(a: Saved, b: Saved, op: CmpOp, left: RegId, r: Kind, r': Kind)
    requires Within(a, b) && KindWithin(r, r') && CheckTest(a, op, left, r).Some? && a.kinds.Get(left).To?
    ensures CheckTest(b, op, left, r').Some? && WaysWithin(CheckTest(a, op, left, r).value, CheckTest(b, op, left, r').value)
  {
    var k, l := a.kinds.Get(left), b.kinds.Get(left);
    GetWithin(a, b, left);
    KnownWithin(r, r');
    KindsTo(k, l);
    var x, y := if k.first > a.packet then k.first else a.packet, if l.first > b.packet then l.first else b.packet;
    if x >= 0 && y >= 0 { PacketWithin(a, b, x, y); }
    PacketBelow(a, b);
    assert r' == r;
    hide Within, KindWithin;
  }

  lemma PacketBelow(a: Saved, b: Saved)
    requires Within(a, b)
    ensures a.packet <= b.packet
  {
  }

  lemma PacketWithin(a: Saved, b: Saved, x: nat, y: nat)
    requires Within(a, b)
    ensures x <= y ==> Within(a.(packet := x), b.(packet := y))
    ensures a.(packet := a.packet) == a && b.(packet := b.packet) == b
  {
    hide KindIncludes, KindSane;
  }

  lemma TestWithin(a: Saved, b: Saved, op: CmpOp, left: RegId, r: Kind, r': Kind)
    requires Within(a, b) && KindWithin(r, r') && CheckTest(a, op, left, r).Some?
    ensures CheckTest(b, op, left, r').Some? && WaysWithin(CheckTest(a, op, left, r).value, CheckTest(b, op, left, r').value)
  {
    var k, l := a.kinds.Get(left), b.kinds.Get(left);
    hide Within, KindWithin, WaysWithin;
    if k.Num? { NumbersWithin(a, b, op, left, r, r'); }
    else if k.MaybeNull? { NullWithin(a, b, op, left, r, r'); }
    else { PointersWithin(a, b, op, left, r, r'); }
  }

  lemma WaysFollow(w: Ways, w': Ways, pc: int, target: int)
    requires WaysWithin(w, w')
    ensures AllWithin(Some(At(w.past, pc) + At(w.taken, target)), Some(At(w'.past, pc) + At(w'.taken, target)))
  {
    var next, next' := At(w.past, pc) + At(w.taken, target), At(w'.past, pc) + At(w'.taken, target);
    hide KindIncludes, Sane;
    forall k | 0 <= k < |next'| ensures Below(next, next'[k]) {
      if k == 0 && w'.past.Some? {
        MovedWithin(w.past.value, w'.past.value, pc);
        assert Within(next[0], next'[k]);
      } else {
        MovedWithin(w.taken.value, w'.taken.value, target);
        assert Within(next[|next| - 1], next'[k]);
      }
    }
  }

  lemma MovedWithin(a: Saved, b: Saved, pc: int)
    requires Within(a, b)
    ensures Within(a.(pc := pc), b.(pc := pc))
  {
    hide KindIncludes, KindSane;
  }

  // ---- Instructions ----

  lemma WithinPc(a: Saved, b: Saved)
    requires Within(a, b)
    ensures a.pc == b.pc
  {
  }

  lemma StoreWithin(ld: Loaded, a: Saved, b: Saved, i: Insn)
    requires Within(a, b) && i.Store?
    ensures AllWithin(Check(ld, i, a), Check(ld, i, b))
  {
    if Check(ld, i, a).Some? {
      var k, l := a.kinds.Get(i.base), b.kinds.Get(i.base);
      GetWithin(a, b, i.base);
      GetWithin(a, b, i.val);
      KnownWithin(a.kinds.Get(i.val), b.kinds.Get(i.val));
      KindsTo(k, l);
      hide KindIncludes, KindSane, KindWithin, SetBy, AllWithin;
      WritableWithin(ld, a, b, k, l, i.off, i.size.Bytes());
      hide Writable;
      OneWithin(a.(pc := a.pc + 1, init := SetBy(a, k, i.off, i.size.Bytes())),
                b.(pc := b.pc + 1, init := SetBy(b, l, i.off, i.size.Bytes())));
    } else {
      NoneWithin(Check(ld, i, b));
    }
  }

  lemma AluInsnWithin(ld: Loaded, i: Insn, a: Saved, b: Saved)
    requires Within(a, b) && i.Alu? && Check(ld, i, a).Some?
    ensures AllWithin(Check(ld, i, a), Check(ld, i, b))
  {
    WithinPc(a, b);
    hide Within, KindWithin, AllWithin, SetKind, AluKind, OperandKind;
    var d, d', v, v' := a.kinds.Get(i.dst), b.kinds.Get(i.dst), OperandKind(a.kinds, i.src), OperandKind(b.kinds, i.src);
    GetWithin(a, b, i.dst);
    OperandWithin(a, b, i.src);
    AluWithin(i.aop, d, v, d', v');
    SetWithin(a, b, i.dst, AluKind(i.aop, d, v).value, AluKind(i.aop, d', v').value, a.pc + 1);
  }

  lemma LoadInsnWithin(ld: Loaded, i: Insn, a: Saved, b: Saved)
    requires Within(a, b) && i.Load? && Check(ld, i, a).Some?
    ensures AllWithin(Check(ld, i, a), Check(ld, i, b))
  {
    WithinPc(a, b);
    hide Within, KindWithin, AllWithin, SetKind, LoadKind;
    var k, l := a.kinds.Get(i.base), b.kinds.Get(i.base);
    GetWithin(a, b, i.base);
    LoadWithin(ld, a, b, i.size, k, l, i.off);
    SetWithin(a, b, i.dst, LoadKind(ld, a, i.size, k, i.off).value, LoadKind(ld, b, i.size, l, i.off).value, a.pc + 1);
  }

  lemma WideWithin(ld: Loaded, i: Insn, a: Saved, b: Saved)
    requires Within(a, b) && (i.LoadImm? || i.LoadSym?)
    ensures AllWithin(Check(ld, i, a), Check(ld, i, b))
  {
    var k := if i.LoadImm? then Num(i.imm64, i.imm64) else ResolveKind(i.sym, i.addend);
    SelfWithin(k);
    WithinPc(a, b);
    hide Within, KindWithin, AllWithin, SetKind, ResolveKind;
    SetWithin(a, b, i.dst, k, k, a.pc + 2);
  }

  lemma JumpIfWithin(ld: Loaded, i: Insn, a: Saved, b: Saved)
    requires Within(a, b) && i.JumpIf? && Check(ld, i, a).Some?
    ensures AllWithin(Check(ld, i, a), Check(ld, i, b))
  {
    hide Within, KindWithin, AllWithin, OperandKind, CheckTest, At, WaysWithin;
    WithinPc(a, b);
    var r, r' := OperandKind(a.kinds, i.right), OperandKind(b.kinds, i.right);
    OperandWithin(a, b, i.right);
    TestWithin(a, b, i.cop, i.left, r, r');
    WaysFollow(CheckTest(a, i.cop, i.left, r).value, CheckTest(b, i.cop, i.left, r').value, a.pc + 1, a.pc + 1 + i.joff);
  }

  lemma CallInsnWithin(ld: Loaded, i: Insn, a: Saved, b: Saved)
    requires Within(a, b) && i.Call? && Check(ld, i, a).Some?
    ensures AllWithin(Check(ld, i, a), Check(ld, i, b))
  {
    hide Within, AllWithin, CheckCall;
    CallWithin(ld, a, b, i.helper);
    OneWithin(CheckCall(ld, a, i.helper).value, CheckCall(ld, b, i.helper).value);
  }

  lemma JumpWithin(ld: Loaded, i: Insn, a: Saved, b: Saved)
    requires Within(a, b) && i.Jump?
    ensures AllWithin(Check(ld, i, a), Check(ld, i, b))
  {
    WithinPc(a, b);
    hide Within, AllWithin;
    MovedWithin(a, b, a.pc + 1 + i.joff);
    OneWithin(a.(pc := a.pc + 1 + i.joff), b.(pc := a.pc + 1 + i.joff));
  }

  /** What passes for a state passes for every state that it includes, with no new ways on. */
  lemma CheckWithin(ld: Loaded, i: Insn, a: Saved, b: Saved)
    requires Within(a, b)
    ensures AllWithin(Check(ld, i, a), Check(ld, i, b))
  {
    hide Within, AllWithin, Check;
    if Check(ld, i, a).None? { NoneWithin(Check(ld, i, b)); return; }
    match i
    case Alu(_, _, _) => AluInsnWithin(ld, i, a, b);
    case Load(_, _, _, _) => LoadInsnWithin(ld, i, a, b);
    case Store(_, _, _, _) => StoreWithin(ld, a, b, i);
    case LoadImm(_, _) | LoadSym(_, _, _) => WideWithin(ld, i, a, b);
    case Second => NeverSecond(ld, a);
    case Jump(_) => JumpWithin(ld, i, a, b);
    case JumpIf(_, _, _, _) => JumpIfWithin(ld, i, a, b);
    case Call(_) => CallInsnWithin(ld, i, a, b);
    case Exit => ExitWithin(ld, a, b);
  }

  lemma NeverSecond(ld: Loaded, a: Saved)
    ensures Check(ld, Second, a).None?
  {
  }

  lemma SelfWithin(k: Kind)
    requires KindSane(k)
    ensures KindWithin(k, k)
  {
  }

  lemma ExitWithin(ld: Loaded, a: Saved, b: Saved)
    requires Within(a, b)
    ensures AllWithin(Check(ld, Exit, a), Check(ld, Exit, b))
  {
    GetWithin(a, b, 0);
    KnownWithin(a.kinds.k0, b.kinds.k0);
  }

  // ---- Whole programs ----

  lemma CheckAtWithin(ld: Loaded, p: Program, a: Saved, b: Saved)
    requires Within(a, b)
    ensures AllWithin(CheckAt(ld, p, a), CheckAt(ld, p, b))
  {
    WithinPc(a, b);
    hide Within, AllWithin, Check;
    if 0 <= a.pc < |p| { CheckWithin(ld, p[a.pc], a, b); } else { NoneWithin(CheckAt(ld, p, b)); }
  }

  /** The state at the end of every path is dealt with by the record, and as entries only refer
      back, by an entry with room for the path above it. */
  lemma {:induction false} PathCovered(ld: Loaded, p: Program, log: seq<Saved>, path: seq<Saved>) returns (j: nat)
    requires Certified(ld, p, log) && IsPath(ld, p, path)
    ensures j + |path| <= |log| && Within(log[j], path[|path| - 1])
    decreases |path|
  {
    hide CheckAt, Includes, Sane;
    if |path| == 1 {
      SaneEntry();
      assert Covered(log, |log|, ENTRY);
      j :| 0 <= j < |log| && Includes(log[j], ENTRY);
    } else {
      var n := |path| - 1;
      assert path[n] == path[n] && Follows(ld, p, path[n - 1], path[n]);
      ShorterPath(ld, p, path);
      var i := PathCovered(ld, p, log, path[..n]);
      assert EntryOk(ld, p, log, i);
      CheckAtWithin(ld, p, log[i], path[n - 1]);
      j := NextCovered(ld, p, log, i, path[n - 1], path[n]);
    }
  }

  lemma ShorterPath(ld: Loaded, p: Program, path: seq<Saved>)
    requires IsPath(ld, p, path) && |path| > 1
    ensures IsPath(ld, p, path[..|path| - 1])
  {
    hide Follows;
    var q := path[..|path| - 1];
    forall k | 0 < k < |q| ensures Follows(ld, p, q[k - 1], q[k]) { assert path[k] == q[k]; }
  }

  lemma NextCovered(ld: Loaded, p: Program, log: seq<Saved>, i: nat, a: Saved, b: Saved) returns (j: nat)
    requires i < |log| && EntryOk(ld, p, log, i) && Follows(ld, p, a, b) && AllWithin(CheckAt(ld, p, log[i]), CheckAt(ld, p, a))
    ensures j < i && Within(log[j], b)
  {
    hide CheckAt, Includes, Sane;
    var next := CheckAt(ld, p, log[i]).value;
    assert Below(next, b);
    var k :| 0 <= k < |next| && Within(next[k], b);
    assert Covered(log, i, next[k]);
    j :| 0 <= j < i && Includes(log[j], next[k]);
    Transitive(log[j], next[k], b);
  }

  lemma Transitive(a: Saved, b: Saved, c: Saved)
    requires Includes(a, b) && Includes(b, c)
    ensures Includes(a, c)
  {
  }

  lemma SaneEntry()
    ensures Sane(ENTRY)
  {
  }

  /** With a complete record, the check passes in every state that any path reaches. */
  lemma CertifiedPaths(ld: Loaded, p: Program, log: seq<Saved>, a: Saved)
    requires Certified(ld, p, log) && Reached(ld, p, a)
    ensures CheckAt(ld, p, a).Some?
  {
    var path :| IsPath(ld, p, path) && path[|path| - 1] == a;
    hide CheckAt, IsPath, Within;
    var j := PathCovered(ld, p, log, path);
    assert EntryOk(ld, p, log, j);
    CheckAtWithin(ld, p, log[j], a);
  }

  /** Unless it meets its limit, the walk accepts a program exactly if the check passes on
      every path, pruned or not. */
  lemma AcceptedIffAllPathsPass(ld: Loaded, p: Program, limit: nat)
    requires !Walk(ld, p, [Visit(ENTRY)], [], 0, limit).TooLong?
    ensures Walk(ld, p, [Visit(ENTRY)], [], 0, limit).Accepted? <==>
            forall a :: Reached(ld, p, a) ==> CheckAt(ld, p, a).Some?
  {
    WalkFromEntry(ld, p, limit);
    var r := Walk(ld, p, [Visit(ENTRY)], [], 0, limit);
    hide CheckAt, Reached, Certified, Walk;
    if r.Accepted? {
      forall a | Reached(ld, p, a) ensures CheckAt(ld, p, a).Some? { CertifiedPaths(ld, p, r.log, a); }
    }
  }

  /** A program with a complete record is not refused, whatever the limit. */
  lemma CertifiedNotRefused(ld: Loaded, p: Program, log: seq<Saved>, limit: nat)
    requires Certified(ld, p, log)
    ensures !Walk(ld, p, [Visit(ENTRY)], [], 0, limit).Refused?
  {
    WalkFromEntry(ld, p, limit);
    var r := Walk(ld, p, [Visit(ENTRY)], [], 0, limit);
    hide CheckAt, Reached, Certified, Walk;
    if r.Refused? { CertifiedPaths(ld, p, log, r.at); }
  }

  /** Arithmetic on a pointer that may be null. */
  predicate NullableArithmetic(p: Program, a: Saved) {
    && 0 <= a.pc < |p| && p[a.pc].Alu? && !p[a.pc].aop.Mov?
    && (a.kinds.Get(p[a.pc].dst).MaybeNull? || OperandKind(a.kinds, p[a.pc].src).MaybeNull?)
  }

  /** A program with a path to arithmetic on a pointer that may be null is not accepted. */
  lemma NullableArithmeticRefused(ld: Loaded, p: Program, limit: nat, a: Saved)
    requires Reached(ld, p, a) && NullableArithmetic(p, a)
    ensures !Walk(ld, p, [Visit(ENTRY)], [], 0, limit).Accepted?
  {
    assert CheckAt(ld, p, a).None?;
    hide CheckAt, Reached, Walk;
    if Walk(ld, p, [Visit(ENTRY)], [], 0, limit).Accepted? { AcceptedIffAllPathsPass(ld, p, limit); }
  }
}
