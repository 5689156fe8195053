/**
 What the verifier knows about a program state: for every register a kind and a
 range, which frame bytes have been set, and how long the packet is at least.
 */
module Abstract {
  import opened Word
  import opened Isa
  import opened Machine

  const MAX64: U64 := 0xFFFF_FFFF_FFFF_FFFF

  /** What a pointer points into. */
  datatype Base = InStack | InCtx | InPacket | InData | InRodata | InElem(m: MapId)

  /** Kind and range of a register. NotInit covers every value; MaybeNull is the answer of a
      lookup before it has been compared with null. */
  datatype Kind =
    | NotInit
    | Num(lo: U64, hi: U64)
    | To(base: Base, first: int, last: int)
    | Map(m: MapId)
    | MaybeNull(m: MapId, at: int)
    | PacketEnd

  datatype Kinds = Kinds(k0: Kind, k1: Kind, k2: Kind, k3: Kind, k4: Kind, k5: Kind,
                         k6: Kind, k7: Kind, k8: Kind, k9: Kind, k10: Kind)
  {
    function Get(r: RegId): Kind {
      if r == 0 then k0 else if r == 1 then k1 else if r == 2 then k2 else if r == 3 then k3
      else if r == 4 then k4 else if r == 5 then k5 else if r == 6 then k6 else if r == 7 then k7
      else if r == 8 then k8 else if r == 9 then k9 else k10
    }

    function With(r: RegId, k: Kind): Kinds {
      if r == 0 then this.(k0 := k) else if r == 1 then this.(k1 := k) else if r == 2 then this.(k2 := k)
      else if r == 3 then this.(k3 := k) else if r == 4 then this.(k4 := k) else if r == 5 then this.(k5 := k)
      else if r == 6 then this.(k6 := k) else if r == 7 then this.(k7 := k) else if r == 8 then this.(k8 := k)
      else if r == 9 then this.(k9 := k) else this.(k10 := k)
    }
  }

  /** A saved state: init holds the positions of the frame that have been set. */
  datatype Saved = Saved(pc: int, kinds: Kinds, init: set<int>, packet: nat)

  /** What is known when the program is loaded: the size of its data and its constants. */
  datatype Loaded = Loaded(dataSize: nat, rodata: seq<Byte>)

  // ---- Meaning ----

  predicate PointsInto(b: Base, region: Region, mem: Memory) {
    match b
    case InStack => region.Stack?
    case InCtx => region.Ctx?
    case InPacket => region.Packet?
    case InData => region.Data?
    case InRodata => region.Rodata?
    case InElem(m) => region.Elem? && region.m == m && region.key in TableOf(mem, m)
  }

  predicate Fits(k: Kind, v: Value, mem: Memory) {
    match k
    case NotInit => true
    case Num(lo, hi) => v.Scalar? && lo <= v.n <= hi
    case To(b, first, last) => v.Ptr? && PointsInto(b, v.region, mem) && first <= v.off <= last
    case Map(m) => v == MapPtr(m)
    case MaybeNull(m, at) => v == Scalar(0) || (v.Ptr? && PointsInto(InElem(m), v.region, mem) && v.off == at)
    case PacketEnd => v == Ptr(Packet, |mem.packet|)
  }

  predicate AllFit(ks: Kinds, regs: Regs, mem: Memory) {
    && Fits(ks.k0, regs.r0, mem) && Fits(ks.k1, regs.r1, mem) && Fits(ks.k2, regs.r2, mem) && Fits(ks.k3, regs.r3, mem)
    && Fits(ks.k4, regs.r4, mem) && Fits(ks.k5, regs.r5, mem) && Fits(ks.k6, regs.r6, mem) && Fits(ks.k7, regs.r7, mem)
    && Fits(ks.k8, regs.r8, mem) && Fits(ks.k9, regs.r9, mem) && Fits(ks.k10, regs.r10, mem)
  }

  predicate AllSet(init: set<int>, stack: Frame) {
    forall i :: i in init ==> 0 <= i < STACK_SIZE && stack[i] >= 0
  }

  ghost predicate LoadedAs(ld: Loaded, mem: Memory) {
    |mem.data| == ld.dataSize && mem.rodata == ld.rodata && MemoryOk(mem)
  }

  /** The states that a saved state stands for. */
  ghost predicate Describes(ld: Loaded, a: Saved, s: State) {
    && a.pc == s.pc
    && LoadedAs(ld, s.mem)
    && AllFit(a.kinds, s.regs, s.mem)
    && AllSet(a.init, s.stack)
    && a.packet <= |s.mem.packet|
  }

  /** What may happen to memory while a program runs, by its own hand or by another CPU's:
      any bytes may change, but sizes, constants, the packet and the keys of elements in use stay. */
  ghost predicate Evolves(mem: Memory, mem': Memory) {
    && |mem'.data| == |mem.data| && mem'.rodata == mem.rodata && mem'.packet == mem.packet
    && mem.counters.Keys <= mem'.counters.Keys && mem.config.Keys <= mem'.config.Keys
    && MemoryOk(mem')
  }

  lemma StillFits(k: Kind, v: Value, mem: Memory, mem': Memory)
    requires Fits(k, v, mem) && Evolves(mem, mem')
    ensures Fits(k, v, mem')
  {
  }

  lemma AllStillFit(ks: Kinds, regs: Regs, mem: Memory, mem': Memory)
    requires AllFit(ks, regs, mem) && Evolves(mem, mem')
    ensures AllFit(ks, regs, mem')
  {
    StillFits(ks.k0, regs.r0, mem, mem');
    StillFits(ks.k1, regs.r1, mem, mem');
    StillFits(ks.k2, regs.r2, mem, mem');
    StillFits(ks.k3, regs.r3, mem, mem');
    StillFits(ks.k4, regs.r4, mem, mem');
    StillFits(ks.k5, regs.r5, mem, mem');
    StillFits(ks.k6, regs.r6, mem, mem');
    StillFits(ks.k7, regs.r7, mem, mem');
    StillFits(ks.k8, regs.r8, mem, mem');
    StillFits(ks.k9, regs.r9, mem, mem');
    StillFits(ks.k10, regs.r10, mem, mem');
  }

  /** What is known about a state stays true while others change memory. */
  lemma StillDescribes(ld: Loaded, a: Saved, s: State, mem: Memory)
    requires Describes(ld, a, s) && Evolves(s.mem, mem)
    ensures Describes(ld, a, s.(mem := mem))
  {
    hide AllFit, Fits;
    AllStillFit(a.kinds, s.regs, s.mem, mem);
  }

  lemma GetFits(ks: Kinds, regs: Regs, mem: Memory, r: RegId)
    requires AllFit(ks, regs, mem)
    ensures Fits(ks.Get(r), regs.Get(r), mem)
  {
    hide Fits;
  }

  lemma WithFitsLow(ks: Kinds, regs: Regs, mem: Memory, r: RegId, k: Kind, v: Value)
    requires AllFit(ks, regs, mem) && Fits(k, v, mem) && r < 6
    ensures AllFit(ks.With(r, k), regs.With(r, v), mem)
  {
    hide Fits;
  }

  lemma WithFitsHigh(ks: Kinds, regs: Regs, mem: Memory, r: RegId, k: Kind, v: Value)
    requires AllFit(ks, regs, mem) && Fits(k, v, mem) && r >= 6
    ensures AllFit(ks.With(r, k), regs.With(r, v), mem)
  {
    hide Fits;
  }

  lemma WithFits(ks: Kinds, regs: Regs, mem: Memory, r: RegId, k: Kind, v: Value)
    requires AllFit(ks, regs, mem) && Fits(k, v, mem)
    ensures AllFit(ks.With(r, k), regs.With(r, v), mem)
  {
    hide Fits, AllFit;
    if r < 6 { WithFitsLow(ks, regs, mem, r, k, v); } else { WithFitsHigh(ks, regs, mem, r, k, v); }
  }

  // ---- One saved state inside another ----

  predicate KindIncludes(k: Kind, l: Kind) {
    match k
    case NotInit => true
    case Num(lo, hi) => l.Num? && lo <= l.lo && l.hi <= hi
    case To(b, first, last) => l.To? && l.base == b && first <= l.first && l.last <= last
    case _ => k == l
  }

  /** Every state described by b is described by a. */
  predicate Includes(a: Saved, b: Saved) {
    && a.pc == b.pc && a.init <= b.init && a.packet <= b.packet
    && KindIncludes(a.kinds.k0, b.kinds.k0) && KindIncludes(a.kinds.k1, b.kinds.k1) && KindIncludes(a.kinds.k2, b.kinds.k2)
    && KindIncludes(a.kinds.k3, b.kinds.k3) && KindIncludes(a.kinds.k4, b.kinds.k4) && KindIncludes(a.kinds.k5, b.kinds.k5)
    && KindIncludes(a.kinds.k6, b.kinds.k6) && KindIncludes(a.kinds.k7, b.kinds.k7) && KindIncludes(a.kinds.k8, b.kinds.k8)
    && KindIncludes(a.kinds.k9, b.kinds.k9) && KindIncludes(a.kinds.k10, b.kinds.k10)
  }

  lemma KindIncludesFits(k: Kind, l: Kind, v: Value, mem: Memory)
    requires KindIncludes(k, l) && Fits(l, v, mem)
    ensures Fits(k, v, mem)
  {
  }

  lemma AllIncluded(a: Saved, b: Saved, regs: Regs, mem: Memory)
    requires Includes(a, b) && AllFit(b.kinds, regs, mem)
    ensures AllFit(a.kinds, regs, mem)
  {
    hide Fits, KindIncludes;
    KindIncludesFits(a.kinds.k0, b.kinds.k0, regs.r0, mem);
    KindIncludesFits(a.kinds.k1, b.kinds.k1, regs.r1, mem);
    KindIncludesFits(a.kinds.k2, b.kinds.k2, regs.r2, mem);
    KindIncludesFits(a.kinds.k3, b.kinds.k3, regs.r3, mem);
    KindIncludesFits(a.kinds.k4, b.kinds.k4, regs.r4, mem);
    KindIncludesFits(a.kinds.k5, b.kinds.k5, regs.r5, mem);
    KindIncludesFits(a.kinds.k6, b.kinds.k6, regs.r6, mem);
    KindIncludesFits(a.kinds.k7, b.kinds.k7, regs.r7, mem);
    KindIncludesFits(a.kinds.k8, b.kinds.k8, regs.r8, mem);
    KindIncludesFits(a.kinds.k9, b.kinds.k9, regs.r9, mem);
    KindIncludesFits(a.kinds.k10, b.kinds.k10, regs.r10, mem);
  }

  lemma IncludesDescribes(ld: Loaded, a: Saved, b: Saved, s: State)
    requires Includes(a, b) && Describes(ld, b, s)
    ensures Describes(ld, a, s)
  {
    AllIncluded(a, b, s.regs, s.mem);
    hide AllFit, KindIncludes;
  }

  /** What is known on entry. */
  const ENTRY: Saved :=
    Saved(0, Kinds(NotInit, To(InCtx, 0, 0), NotInit, NotInit, NotInit, NotInit, NotInit, NotInit, NotInit, NotInit,
                   To(InStack, STACK_SIZE, STACK_SIZE)), {}, 0)

  lemma EntryDescribed(ld: Loaded, mem: Memory)
    requires LoadedAs(ld, mem)
    ensures Describes(ld, ENTRY, Entry(mem))
  {
  }

  // ---- Arithmetic on kinds ----

  /** Operations that cannot fault, for every second operand in the range. */
  predicate SafeNumbers(op: AluOp, lo: U64, hi: U64) {
    match op
    case Div | Mod => lo > 0
    case SDiv | SMod => lo > 0 && hi < 0x8000_0000_0000_0000
    case Lsh | Rsh | Arsh => hi < 64
    case End => false
    case _ => true
  }

  function NumResult(op: AluOp, a: Kind, b: Kind): (k: Kind)
    requires a.Num? && b.Num?
  {
    match op
    case Add => if a.lo <= a.hi && b.lo <= b.hi && a.hi + b.hi < 0x1_0000_0000_0000_0000 then Num(a.lo + b.lo, a.hi + b.hi) else Num(0, MAX64)
    case Rsh => if b.lo == b.hi then Num(Shr(a.lo, b.lo), Shr(a.hi, b.lo)) else Num(0, a.hi)
    case And => Num(0, if a.hi < b.hi then a.hi else b.hi)
    case _ => Num(0, MAX64)
  }

  /** The range of a pointer that moved by a number of the range lo to hi. */
  function Moved(op: AluOp, p: Kind, lo: int, hi: int): Kind
    requires p.To?
  {
    if op.Add? then p.(first := p.first + lo, last := p.last + hi) else p.(first := p.first - hi, last := p.last - lo)
  }

  function AluKind(op: AluOp, d: Kind, v: Kind): Option<Kind> {
    if op.Mov? then
      if v.NotInit? then None else Some(v)
    else if d.Num? && v.Num? && SafeNumbers(op, v.lo, v.hi) then Some(NumResult(op, d, v))
    else if d.To? && v.Num? && PointerCheck(op) then
      if v.hi < 0x8000_0000_0000_0000 then Some(Moved(op, d, v.lo, v.hi))
      else if v.lo >= 0x8000_0000_0000_0000 then
        Some(Moved(op, d, v.lo - 0x1_0000_0000_0000_0000, v.hi - 0x1_0000_0000_0000_0000))
      else None
    else None
  }

  lemma DivMonotone(x: nat, y: nat, d: nat)
    requires x <= y && d > 0
    ensures x / d <= y / d
  {
    var q, r := x / d, y / d;
    assert x == d * q + x % d && y == d * r + y % d;
    if q > r { MulGe(d, q, r + 1); }
  }

  lemma {:induction false} AndBelow(x: nat, y: nat, n: nat)
    ensures Bits(BitAnd, x, y, n) <= x && Bits(BitAnd, x, y, n) <= y
    decreases n
  {
    if n > 0 { AndBelow(x / 2, y / 2, n - 1); }
  }

  lemma ShrFits(lo: U64, hi: U64, x: U64, k: nat)
    requires lo <= x <= hi
    ensures Shr(lo, k) <= Shr(x, k) <= Shr(hi, k) && Shr(x, k) <= x
  {
    hide Pow2;
    DivMonotone(lo, x, Pow2(k));
    DivMonotone(x, hi, Pow2(k));
    DivBound(x, Pow2(k));
  }

  lemma NumResultFits(op: AluOp, a: Kind, b: Kind, x: U64, y: U64)
    requires a.Num? && b.Num? && a.lo <= x <= a.hi && b.lo <= y <= b.hi && SafeNumbers(op, b.lo, b.hi)
    ensures ScalarCheck(op, x, y)
    ensures var k := NumResult(op, a, b); k.Num? && k.lo <= ScalarAlu(op, x, y) <= k.hi
  {
    hide Bits, Pow2, Quot, Rem, Shr, Shl, Ashr;
    match op
    case Rsh => ShrFits(a.lo, a.hi, x, y);
    case And => AndBelow(x, y, 64);
    case _ =>
  }

  /** Where the check of an instruction passes, the instruction cannot fault, and the result fits. */
  lemma AluFits(op: AluOp, d: Kind, v: Kind, x: Value, y: Value, mem: Memory)
    requires Fits(d, x, mem) && Fits(v, y, mem) && AluKind(op, d, v).Some?
    ensures var r := AluResult(op, x, y); r.Some? && Fits(AluKind(op, d, v).value, r.value, mem)
  {
    if op != Mov && d.Num? && v.Num? { NumResultFits(op, d, v, x.n, y.n); }
    hide ScalarAlu, ScalarCheck, NumResult, PointsInto;
  }

  // ---- Comparisons ----

  function Max(a: int, b: int): int { if a < b then b else a }

  function Min(a: int, b: int): int { if a < b then a else b }

  /** The part of a range in which a comparison with c turns out as given. */
  function Narrow(op: CmpOp, lo: U64, hi: U64, c: U64, taken: bool): (int, int) {
    match op
    case Eq => if taken then (Max(lo, c), Min(hi, c)) else Without(lo, hi, c)
    case Ne => if taken then Without(lo, hi, c) else (Max(lo, c), Min(hi, c))
    case Gt => if taken then (Max(lo, c + 1), hi) else (lo, Min(hi, c))
    case Ge => if taken then (Max(lo, c), hi) else (lo, Min(hi, c - 1))
    case Lt => if taken then (lo, Min(hi, c - 1)) else (Max(lo, c), hi)
    case Le => if taken then (lo, Min(hi, c)) else (Max(lo, c + 1), hi)
    case _ => (lo, hi)
  }

  function Without(lo: U64, hi: U64, c: U64): (int, int) {
    (if lo == c then lo + 1 else lo, if hi == c then hi - 1 else hi)
  }

  lemma NarrowSound(op: CmpOp, lo: U64, hi: U64, c: U64, x: U64)
    requires lo <= x <= hi
    ensures var n := Narrow(op, lo, hi, c, Holds(op, x, c)); 0 <= n.0 <= x <= n.1 <= hi
  {
    hide Bits;
  }

  /** And no smaller range would do: unless nothing is left, both its ends are values of the old
      range for which the unsigned comparison turns out as given. */
  lemma NarrowTight(op: CmpOp, lo: U64, hi: U64, c: U64, taken: bool)
    requires op in {Eq, Ne, Gt, Ge, Lt, Le} && lo <= hi
    ensures var n := Narrow(op, lo, hi, c, taken);
            n.0 <= n.1 ==> lo <= n.0 <= n.1 <= hi && Holds(op, n.0, c) == taken && Holds(op, n.1, c) == taken
  {
  }

  /** The ranges of sums and of shifts by a known amount are exact, too: both ends are reached. */
  lemma SumsTight(a: Kind, b: Kind)
    requires a.Num? && b.Num? && a.lo <= a.hi && b.lo <= b.hi
    ensures a.hi + b.hi < TWO64 ==>
              NumResult(Add, a, b) == Num(ScalarAlu(Add, a.lo, b.lo), ScalarAlu(Add, a.hi, b.hi))
    ensures b.lo == b.hi < 64 ==>
              NumResult(Rsh, a, b) == Num(ScalarAlu(Rsh, a.lo, b.lo), ScalarAlu(Rsh, a.hi, b.lo))
  {
    hide Shr;
  }

  /** A pointer that moves by a number of a range reaches both ends of the range computed. */
  lemma MovesTight(region: Region, op: AluOp, d: Kind, v: Kind)
    requires d.To? && v.Num? && v.lo <= v.hi && (op == Add || op == Sub) && AluKind(op, d, v).Some?
    ensures var k, x, y := AluKind(op, d, v).value, Scalar(if op == Add then v.lo else v.hi), Scalar(if op == Add then v.hi else v.lo);
            && AluResult(op, Ptr(region, d.first), x) == Some(Ptr(region, k.first))
            && AluResult(op, Ptr(region, d.last), y) == Some(Ptr(region, k.last)) && k.base == d.base
  {
  }

  /** Other CPUs may do anything to the bytes of the data section and of map values, and add keys. */
  lemma AnyBytesMayChange(mem: Memory, data: seq<Byte>, counters: Table, config: Table)
    requires |data| == |mem.data| && mem.counters.Keys <= counters.Keys && mem.config.Keys <= config.Keys
    requires forall k :: k in counters ==> |k| == 8 && |counters[k]| == 8
    requires forall k :: k in config ==> |k| == 4 && |config[k]| == 12
    ensures Evolves(mem, mem.(data := data, counters := counters, config := config))
  {
  }
}
