/**
 Bytecode in memory: eight bytes a slot, with a four-bit field for each register, a signed
 16-bit offset and a signed 32-bit immediate (RFC 9669, section 3.1), wide loads in two
 slots (section 3.2), and symbols in a relocation table beside the code.
 */
module Codec {
  import opened Word
  import opened Isa
  import M = Machine

  /** struct bpf_insn. */
  datatype Raw = Raw(code: Byte, dst: Nibble, src: Nibble, off: Off16, imm: Imm32)

  type Nibble = x: int | 0 <= x < 16

  /** Which symbol the wide load at a slot refers to. */
  type Relocs = map<nat, Symbol>

  // ---- Slots and bytes ----

  function Unsigned16(x: Off16): nat {
    if x >= 0 then x else x + 0x1_0000
  }

  function Signed16(x: nat): Off16
    requires x < 0x1_0000
  {
    if x < 0x8000 then x else x - 0x1_0000
  }

  function Unsigned32(x: Imm32): U32 {
    if x >= 0 then x else x + 0x1_0000_0000
  }

  function Signed32(x: U32): Imm32 {
    if x < 0x8000_0000 then x else x - 0x1_0000_0000
  }

  /** Two hexadecimal digits; doubling instead of multiplying keeps it linear for the solver. */
  function Hex(high: nat, low: nat): nat {
    var two := high + high;
    var four := two + two;
    var eight := four + four;
    eight + eight + low
  }

  function RawBytes(r: Raw): (b: seq<Byte>)
    ensures |b| == 8
  {
    [r.code, Hex(r.src, r.dst)] + Bytes(Unsigned16(r.off), 2) + Bytes(Unsigned32(r.imm), 4)
  }

  function RawOf(b: seq<Byte>): Raw
    requires |b| == 8
  {
    Pow2Values();
    Raw(b[0], b[1] % 16, b[1] / 16, Signed16(FromBytes(b[2..4])), Signed32(FromBytes(b[4..8])))
  }

  lemma HexParts(high: nat, low: nat)
    requires low < 16
    ensures Hex(high, low) / 16 == high && Hex(high, low) % 16 == low
  {
  }

  lemma OffsetRoundTrip(x: Off16)
    ensures FromBytes(Bytes(Unsigned16(x), 2)) == Unsigned16(x) < 0x1_0000 && Signed16(Unsigned16(x)) == x
  {
    hide Bytes, FromBytes, Pow2;
    Pow2Values();
    BytesRoundTrip(Unsigned16(x), 2);
  }

  lemma ImmediateRoundTrip(x: Imm32)
    ensures FromBytes(Bytes(Unsigned32(x), 4)) == Unsigned32(x) && Signed32(Unsigned32(x)) == x
  {
    hide Bytes, FromBytes, Pow2;
    Pow2Values();
    BytesRoundTrip(Unsigned32(x), 4);
  }

  lemma RawRoundTrip(r: Raw)
    ensures RawOf(RawBytes(r)) == r
  {
    hide Bytes, FromBytes, Hex, Unsigned16, Signed16, Unsigned32, Signed32;
    var b := RawBytes(r);
    assert b[2..4] == Bytes(Unsigned16(r.off), 2) && b[4..8] == Bytes(Unsigned32(r.imm), 4);
    HexParts(r.src, r.dst);
    OffsetRoundTrip(r.off);
    ImmediateRoundTrip(r.imm);
  }

  lemma BytesOfRaw(b: seq<Byte>)
    requires |b| == 8
    ensures RawBytes(RawOf(b)) == b
  {
    hide Bytes, FromBytes, Pow2;
    Pow2Values();
    FromBytesRoundTrip(b[2..4]);
    FromBytesRoundTrip(b[4..8]);
    assert b == [b[0], b[1]] + b[2..4] + b[4..8];
  }

  function SlotsBytes(rs: seq<Raw>): (b: seq<Byte>)
    ensures |b| == 8 * |rs|
  {
    if rs == [] then [] else RawBytes(rs[0]) + SlotsBytes(rs[1..])
  }

  function SlotsOf(b: seq<Byte>): (rs: seq<Raw>)
    requires |b| % 8 == 0
    ensures 8 * |rs| == |b|
  {
    if b == [] then [] else [RawOf(b[..8])] + SlotsOf(b[8..])
  }

  lemma {:induction false} SlotsRoundTrip(rs: seq<Raw>)
    ensures SlotsOf(SlotsBytes(rs)) == rs
  {
    hide RawOf, RawBytes;
    if rs != [] {
      var b := SlotsBytes(rs);
      assert b[..8] == RawBytes(rs[0]) && b[8..] == SlotsBytes(rs[1..]);
      RawRoundTrip(rs[0]);
      SlotsRoundTrip(rs[1..]);
    }
  }

  lemma {:induction false} BytesOfSlots(b: seq<Byte>)
    requires |b| % 8 == 0
    ensures SlotsBytes(SlotsOf(b)) == b
  {
    hide RawOf, RawBytes;
    if b != [] {
      var rs := SlotsOf(b);
      assert rs[0] == RawOf(b[..8]) && rs[1..] == SlotsOf(b[8..]);
      BytesOfRaw(b[..8]);
      BytesOfSlots(b[8..]);
      assert b == b[..8] + b[8..];
    }
  }

  // ---- Operations and their numbers ----

  /** Sections 4.1 and 4.3: the code of an operation, and the offset that tells signed
      division from unsigned. Byte swaps are not encoded here. */
  function AluNum(op: AluOp): (nat, Off16) {
    match op
    case Add => (0x0, 0)
    case Sub => (0x1, 0)
    case Mul => (0x2, 0)
    case Div => (0x3, 0)
    case SDiv => (0x3, 1)
    case Or => (0x4, 0)
    case And => (0x5, 0)
    case Lsh => (0x6, 0)
    case Rsh => (0x7, 0)
    case Neg => (0x8, 0)
    case Mod => (0x9, 0)
    case SMod => (0x9, 1)
    case Xor => (0xa, 0)
    case Mov => (0xb, 0)
    case Arsh => (0xc, 0)
    case End => (0xd, 0)
  }

  function AluOf(n: nat, off: Off16): M.Option<AluOp> {
    if off == 1 then if n == 0x3 then M.Some(SDiv) else if n == 0x9 then M.Some(SMod) else M.None
    else if off != 0 then M.None
    else match n
      case 0x0 => M.Some(Add)
      case 0x1 => M.Some(Sub)
      case 0x2 => M.Some(Mul)
      case 0x3 => M.Some(Div)
      case 0x4 => M.Some(Or)
      case 0x5 => M.Some(And)
      case 0x6 => M.Some(Lsh)
      case 0x7 => M.Some(Rsh)
      case 0x8 => M.Some(Neg)
      case 0x9 => M.Some(Mod)
      case 0xa => M.Some(Xor)
      case 0xb => M.Some(Mov)
      case 0xc => M.Some(Arsh)
      case _ => M.None
  }

  lemma AluRoundTrip(op: AluOp, n: nat, off: Off16)
    ensures AluNum(op).0 < 16
    ensures !op.End? ==> AluOf(AluNum(op).0, AluNum(op).1) == M.Some(op)
    ensures AluOf(n, off).Some? ==> !AluOf(n, off).value.End? && AluNum(AluOf(n, off).value) == (n, off)
  {
  }

  function CmpNum(op: CmpOp): nat {
    match op
    case Eq => 0x1
    case Gt => 0x2
    case Ge => 0x3
    case Set => 0x4
    case Ne => 0x5
    case SGt => 0x6
    case SGe => 0x7
    case Lt => 0xa
    case Le => 0xb
    case SLt => 0xc
    case SLe => 0xd
  }

  function CmpOf(n: nat): M.Option<CmpOp> {
    match n
    case 0x1 => M.Some(Eq)
    case 0x2 => M.Some(Gt)
    case 0x3 => M.Some(Ge)
    case 0x4 => M.Some(Set)
    case 0x5 => M.Some(Ne)
    case 0x6 => M.Some(SGt)
    case 0x7 => M.Some(SGe)
    case 0xa => M.Some(Lt)
    case 0xb => M.Some(Le)
    case 0xc => M.Some(SLt)
    case 0xd => M.Some(SLe)
    case _ => M.None
  }

  lemma CmpRoundTrip(op: CmpOp, n: nat)
    ensures CmpNum(op) < 16 && CmpOf(CmpNum(op)) == M.Some(op)
    ensures CmpOf(n).Some? ==> CmpNum(CmpOf(n).value) == n
  {
  }

  function SizeBits(s: Size): nat {
    match s
    case W => 0x00
    case H => 0x08
    case B => 0x10
    case DW => 0x18
  }

  function SizeOf(n: nat): Size {
    if n == 0 then W else if n == 1 then H else if n == 2 then B else DW
  }

  /** The numbers by which programs call helpers. */
  function HelperNum(h: Helper): Imm32 {
    match h
    case MapLookup => 1
    case MapUpdate => 2
    case Printk => 6
    case PidTgid => 14
    case UidGid => 15
    case Comm => 16
    case PerfOutput => 25
    case ProbeRead => 113
    case RawLookup => 0
  }

  function HelperOf(n: Imm32): M.Option<Helper> {
    match n
    case 1 => M.Some(MapLookup)
    case 2 => M.Some(MapUpdate)
    case 6 => M.Some(Printk)
    case 14 => M.Some(PidTgid)
    case 15 => M.Some(UidGid)
    case 16 => M.Some(Comm)
    case 25 => M.Some(PerfOutput)
    case 113 => M.Some(ProbeRead)
    case _ => M.None
  }

  lemma HelperRoundTrip(h: Helper, n: Imm32)
    ensures h != RawLookup ==> HelperOf(HelperNum(h)) == M.Some(h)
    ensures HelperOf(n).Some? ==> HelperOf(n).value != RawLookup && HelperNum(HelperOf(n).value) == n
  {
  }

  // ---- One-slot instructions ----

  /** Instructions that object files hold. Negation has no second operand. */
  predicate Encodable(i: Insn) {
    match i
    case Alu(op, _, src) => !op.End? && (op.Neg? ==> src == Imm(0))
    case Call(h) => h != RawLookup
    case _ => true
  }

  /** Source bit, register field and immediate of an operand. */
  function SourceBit(o: Operand): nat {
    if o.Reg? then 8 else 0
  }

  function SourceReg(o: Operand): Nibble {
    if o.Reg? then o.reg else 0
  }

  function SourceImm(o: Operand): Imm32 {
    if o.Imm? then o.imm else 0
  }

  function OperandOf(r: Raw): M.Option<Operand> {
    if r.code / 8 % 2 == 1 then if r.imm == 0 && r.src <= 10 then M.Some(Reg(r.src)) else M.None
    else if r.src == 0 then M.Some(Imm(r.imm)) else M.None
  }

  lemma OperandRoundTrip(o: Operand, r: Raw)
    ensures r.code / 8 % 2 == SourceBit(o) / 8 && r.src == SourceReg(o) && r.imm == SourceImm(o) ==> OperandOf(r) == M.Some(o)
    ensures OperandOf(r).Some? ==>
              var p := OperandOf(r).value; SourceBit(p) == 8 * (r.code / 8 % 2) && SourceReg(p) == r.src && SourceImm(p) == r.imm
  {
  }

  function RawSingle(i: Insn): Raw
    requires Encodable(i) && !Wide(i) && !i.Second?
  {
    match i
    case Alu(op, d, o) => AluRoundTrip(op, 0, 0); Raw(Hex(AluNum(op).0, SourceBit(o) + 7), d, SourceReg(o), AluNum(op).1, SourceImm(o))
    case Load(s, d, b, off) => Raw(0x61 + SizeBits(s), d, b, off, 0)
    case Store(s, b, off, v) => Raw(0x63 + SizeBits(s), b, v, off, 0)
    case Jump(off) => Raw(0x05, 0, 0, off, 0)
    case JumpIf(op, l, o, off) => CmpRoundTrip(op, 0); Raw(Hex(CmpNum(op), SourceBit(o) + 5), l, SourceReg(o), off, SourceImm(o))
    case Call(h) => Raw(0x85, 0, 0, 0, HelperNum(h))
    case Exit => Raw(0x95, 0, 0, 0, 0)
  }

  function AluOfRaw(r: Raw): M.Option<Insn> {
    var op, o := AluOf(r.code / 16, r.off), OperandOf(r);
    if op.None? || o.None? || r.dst > 10 || (op.value.Neg? && o.value != Imm(0)) then M.None
    else M.Some(Alu(op.value, r.dst, o.value))
  }

  function JumpOfRaw(r: Raw): M.Option<Insn> {
    var n := r.code / 16;
    if r.code == 0x05 then if r.dst == r.src == r.imm == 0 then M.Some(Jump(r.off)) else M.None
    else if r.code == 0x85 then
      if r.dst == r.src == r.off == 0 && HelperOf(r.imm).Some? then M.Some(Call(HelperOf(r.imm).value)) else M.None
    else if r.code == 0x95 then if r.dst == r.src == r.off == r.imm == 0 then M.Some(Exit) else M.None
    else
      var op, o := CmpOf(n), OperandOf(r);
      if op.None? || o.None? || r.dst > 10 then M.None else M.Some(JumpIf(op.value, r.dst, o.value, r.off))
  }

  function MemoryOfRaw(r: Raw): M.Option<Insn> {
    var s := SizeOf(r.code / 8 % 4);
    if r.dst > 10 || r.src > 10 || r.imm != 0 || r.code / 32 != 3 then M.None
    else if r.code % 8 == 1 then M.Some(Load(s, r.dst, r.src, r.off))
    else M.Some(Store(s, r.dst, r.off, r.src))
  }

  /** The instruction of one slot; unused fields have to be zero. */
  function SingleOf(r: Raw): M.Option<Insn> {
    match r.code % 8
    case 7 => AluOfRaw(r)
    case 5 => JumpOfRaw(r)
    case 1 | 3 => MemoryOfRaw(r)
    case _ => M.None
  }

  lemma AluSingle(i: Insn)
    requires i.Alu? && Encodable(i)
    ensures SingleOf(RawSingle(i)) == M.Some(i)
  {
    hide AluNum, AluOf, OperandOf, SourceReg, SourceImm;
    var r := RawSingle(i);
    AluRoundTrip(i.aop, 0, 0);
    OperandRoundTrip(i.src, r);
  }

  lemma JumpSingle(i: Insn)
    requires i.JumpIf?
    ensures SingleOf(RawSingle(i)) == M.Some(i)
  {
    hide CmpOf, OperandOf, SourceReg, SourceImm;
    var r := RawSingle(i);
    CmpRoundTrip(i.cop, 0);
    OperandRoundTrip(i.right, r);
  }

  lemma SingleRoundTrip(i: Insn)
    requires Encodable(i) && !Wide(i) && !i.Second?
    ensures SingleOf(RawSingle(i)) == M.Some(i)
  {
    match i
    case Alu(_, _, _) => AluSingle(i);
    case JumpIf(_, _, _, _) => JumpSingle(i);
    case Call(h) => HelperRoundTrip(h, 0);
    case _ =>
  }

  /** Operation, source bit and class of an opcode. */
  lemma OpcodeParts(code: Byte)
    ensures code == Hex(code / 16, 8 * (code / 8 % 2) + code % 8) && code / 16 < 16
  {
  }

  lemma RawOfAlu(r: Raw)
    requires AluOfRaw(r).Some? && r.code % 8 == 7
    ensures var i := AluOfRaw(r).value; Encodable(i) && RawSingle(i) == r
  {
    hide Hex, AluNum, AluOf, OperandOf, SourceBit, SourceReg, SourceImm;
    OpcodeParts(r.code);
    AluRoundTrip(Add, r.code / 16, r.off);
    OperandRoundTrip(Imm(0), r);
  }

  /** The operation codes with an immediate operand, as sections 4.1 and 4.3 of RFC 9669 have
      them; a register operand adds 8. */
  lemma Opcodes(d: RegId, c: Imm32)
    ensures RawSingle(Alu(Add, d, Imm(c))) == Raw(0x07, d, 0, 0, c) && RawSingle(Alu(Sub, d, Imm(c))) == Raw(0x17, d, 0, 0, c)
    ensures RawSingle(Alu(Mul, d, Imm(c))) == Raw(0x27, d, 0, 0, c) && RawSingle(Alu(Div, d, Imm(c))) == Raw(0x37, d, 0, 0, c)
    ensures RawSingle(Alu(SDiv, d, Imm(c))) == Raw(0x37, d, 0, 1, c) && RawSingle(Alu(Or, d, Imm(c))) == Raw(0x47, d, 0, 0, c)
  {
  }

  lemma MoreOpcodes(d: RegId, c: Imm32)
    ensures RawSingle(Alu(And, d, Imm(c))) == Raw(0x57, d, 0, 0, c) && RawSingle(Alu(Lsh, d, Imm(c))) == Raw(0x67, d, 0, 0, c)
    ensures RawSingle(Alu(Rsh, d, Imm(c))) == Raw(0x77, d, 0, 0, c) && RawSingle(Alu(Neg, d, Imm(0))) == Raw(0x87, d, 0, 0, 0)
    ensures RawSingle(Alu(Mod, d, Imm(c))) == Raw(0x97, d, 0, 0, c) && RawSingle(Alu(SMod, d, Imm(c))) == Raw(0x97, d, 0, 1, c)
    ensures RawSingle(Alu(Xor, d, Imm(c))) == Raw(0xa7, d, 0, 0, c) && RawSingle(Alu(Mov, d, Imm(c))) == Raw(0xb7, d, 0, 0, c)
    ensures RawSingle(Alu(Arsh, d, Imm(c))) == Raw(0xc7, d, 0, 0, c)
  {
  }

  lemma JumpOpcodes(d: RegId, c: Imm32, off: Off16)
    ensures RawSingle(JumpIf(Eq, d, Imm(c), off)) == Raw(0x15, d, 0, off, c) && RawSingle(JumpIf(Gt, d, Imm(c), off)) == Raw(0x25, d, 0, off, c)
    ensures RawSingle(JumpIf(Ge, d, Imm(c), off)) == Raw(0x35, d, 0, off, c) && RawSingle(JumpIf(Set, d, Imm(c), off)) == Raw(0x45, d, 0, off, c)
    ensures RawSingle(JumpIf(Ne, d, Imm(c), off)) == Raw(0x55, d, 0, off, c) && RawSingle(JumpIf(SGt, d, Imm(c), off)) == Raw(0x65, d, 0, off, c)
    ensures RawSingle(JumpIf(SGe, d, Imm(c), off)) == Raw(0x75, d, 0, off, c) && RawSingle(JumpIf(Lt, d, Imm(c), off)) == Raw(0xa5, d, 0, off, c)
    ensures RawSingle(JumpIf(Le, d, Imm(c), off)) == Raw(0xb5, d, 0, off, c) && RawSingle(JumpIf(SLt, d, Imm(c), off)) == Raw(0xc5, d, 0, off, c)
    ensures RawSingle(JumpIf(SLe, d, Imm(c), off)) == Raw(0xd5, d, 0, off, c)
  {
  }

  lemma RegisterOpcodes(op: AluOp, cmp: CmpOp, d: RegId, r: RegId, off: Off16)
    requires !op.End? && !op.Neg?
    ensures RawSingle(Alu(op, d, Reg(r))) == RawSingle(Alu(op, d, Imm(0))).(code := RawSingle(Alu(op, d, Imm(0))).code + 8, src := r)
    ensures RawSingle(JumpIf(cmp, d, Reg(r), off)) == RawSingle(JumpIf(cmp, d, Imm(0), off)).(code := RawSingle(JumpIf(cmp, d, Imm(0), off)).code + 8, src := r)
  {
  }

  /** Section 4.4 of RFC 9669: loads and stores by size. */
  lemma AccessOpcodes(d: RegId, b: RegId, off: Off16)
    ensures RawSingle(Load(W, d, b, off)) == Raw(0x61, d, b, off, 0) && RawSingle(Load(H, d, b, off)) == Raw(0x69, d, b, off, 0)
    ensures RawSingle(Load(B, d, b, off)) == Raw(0x71, d, b, off, 0) && RawSingle(Load(DW, d, b, off)) == Raw(0x79, d, b, off, 0)
    ensures RawSingle(Store(W, b, off, d)) == Raw(0x63, b, d, off, 0) && RawSingle(Store(H, b, off, d)) == Raw(0x6b, b, d, off, 0)
    ensures RawSingle(Store(B, b, off, d)) == Raw(0x73, b, d, off, 0) && RawSingle(Store(DW, b, off, d)) == Raw(0x7b, b, d, off, 0)
  {
  }

  lemma RawOfJump(r: Raw)
    requires JumpOfRaw(r).Some? && r.code % 8 == 5
    ensures var i := JumpOfRaw(r).value; Encodable(i) && !Wide(i) && !i.Second? && RawSingle(i) == r
  {
    hide Hex, CmpNum, CmpOf, HelperNum, HelperOf, OperandOf, SourceBit, SourceReg, SourceImm;
    OpcodeParts(r.code);
    CmpRoundTrip(Eq, r.code / 16);
    HelperRoundTrip(MapLookup, r.imm);
    OperandRoundTrip(Imm(0), r);
  }

  lemma RawOfSingle(r: Raw)
    requires SingleOf(r).Some?
    ensures var i := SingleOf(r).value; Encodable(i) && !Wide(i) && !i.Second? && RawSingle(i) == r
  {
    if r.code % 8 == 7 { RawOfAlu(r); } else if r.code % 8 == 5 { RawOfJump(r); }
    hide AluOfRaw, JumpOfRaw, AluNum, CmpNum, HelperNum;
  }

  // ---- Programs ----

  predicate SlotCodable(p: Program, k: nat)
    requires k < |p|
  {
    && Encodable(p[k])
    && (Wide(p[k]) ==> k + 1 < |p| && p[k + 1] == Second)
    && (p[k] == Second ==> k > 0 && Wide(p[k - 1]))
  }

  /** Well-formed code: second slots exactly behind wide loads. */
  predicate Codable(p: Program) {
    forall k: nat :: k < |p| ==> SlotCodable(p, k)
  }

  function Low32(v: U64): U32 {
    v % 0x1_0000_0000
  }

  function High32(v: U64): U32 {
    v / 0x1_0000_0000
  }

  /** The upper half of a wide load. */
  function UpperHalf(i: Insn): Imm32 {
    if i.LoadImm? then Signed32(High32(i.imm64)) else 0
  }

  function RawAt(p: Program, k: nat): Raw
    requires k < |p| && SlotCodable(p, k)
  {
    match p[k]
    case LoadImm(d, v) => Raw(0x18, d, 0, 0, Signed32(Low32(v)))
    case LoadSym(d, _, addend) => Raw(0x18, d, 0, 0, Signed32(addend))
    case Second => Raw(0, 0, 0, 0, UpperHalf(p[k - 1]))
    case i => RawSingle(i)
  }

  function Raws(p: Program): (rs: seq<Raw>)
    requires Codable(p)
    ensures |rs| == |p| && forall k: nat :: k < |p| ==> SlotCodable(p, k) && rs[k] == RawAt(p, k)
  {
    seq(|p|, k requires 0 <= k < |p| => assert SlotCodable(p, k); RawAt(p, k))
  }

  function RelocsOf(p: Program): Relocs {
    map k: nat | k < |p| && p[k].LoadSym? :: p[k].sym
  }

  function WideOf(r: Raw, second: Raw, sym: M.Option<Symbol>): M.Option<Insn> {
    if r.code != 0x18 || r.dst > 10 || r.src != 0 || r.off != 0 || second != Raw(0, 0, 0, 0, second.imm) then M.None
    else if sym.Some? then
      if second.imm == 0 then M.Some(LoadSym(r.dst, sym.value, Unsigned32(r.imm))) else M.None
    else M.Some(LoadImm(r.dst, Unsigned32(r.imm) + 0x1_0000_0000 * Unsigned32(second.imm)))
  }

  function SymbolAt(rel: Relocs, k: nat): M.Option<Symbol> {
    if k in rel then M.Some(rel[k]) else M.None
  }

  /** The program in the slots from k on. */
  function DecodeFrom(rs: seq<Raw>, rel: Relocs, k: nat): M.Option<Program>
    requires k <= |rs|
    decreases |rs| - k, rel
  {
    if k == |rs| then M.Some([])
    else if rs[k].code == 0x18 then
      if k + 1 == |rs| || k + 1 in rel then M.None else
      var i, rest := WideOf(rs[k], rs[k + 1], SymbolAt(rel, k)), DecodeFrom(rs, rel, k + 2);
      if i.None? || rest.None? then M.None else M.Some([i.value, Second] + rest.value)
    else if k in rel then M.None
    else
      var i, rest := SingleOf(rs[k]), DecodeFrom(rs, rel, k + 1);
      if i.None? || rest.None? then M.None else M.Some([i.value] + rest.value)
  }

  /** Bytes and relocations to a program: code is a whole number of slots, and every
      relocation belongs to one of them. */
  function Decode(b: seq<Byte>, rel: Relocs): M.Option<Program> {
    if |b| % 8 != 0 || (exists k :: k in rel && k >= |b| / 8) then M.None else DecodeFrom(SlotsOf(b), rel, 0)
  }

  function Encode(p: Program): (seq<Byte>, Relocs)
    requires Codable(p)
  {
    (SlotsBytes(Raws(p)), RelocsOf(p))
  }

  lemma WideRoundTrip(p: Program, k: nat)
    requires Codable(p) && k < |p| && Wide(p[k])
    ensures k + 1 < |p| && WideOf(Raws(p)[k], Raws(p)[k + 1], SymbolAt(RelocsOf(p), k)) == M.Some(p[k])
  {
    hide RawSingle;
    assert SlotCodable(p, k);
    assert SlotCodable(p, k + 1);
  }

  lemma {:induction false} DecodesFrom(p: Program, k: nat)
    requires Codable(p) && k <= |p| && (k < |p| ==> p[k] != Second)
    ensures DecodeFrom(Raws(p), RelocsOf(p), k) == M.Some(p[k..])
    decreases |p| - k
  {
    hide RawSingle, WideOf, SingleOf, SymbolAt;
    if k < |p| {
      var rs := Raws(p);
      assert SlotCodable(p, k) && rs[k] == RawAt(p, k);
      if Wide(p[k]) {
        WideRoundTrip(p, k);
        assert rs[k].code == 0x18 && k + 1 !in RelocsOf(p);
        assert k + 2 < |p| ==> SlotCodable(p, k + 2);
        DecodesFrom(p, k + 2);
        assert p[k..] == [p[k], Second] + p[k + 2..];
      } else {
        SingleRoundTrip(p[k]);
        NotWide(p[k]);
        assert rs[k] == RawSingle(p[k]) && k !in RelocsOf(p);
        assert k + 1 < |p| ==> SlotCodable(p, k + 1);
        DecodesFrom(p, k + 1);
        assert p[k..] == [p[k]] + p[k + 1..];
      }
    } else {
      assert p[k..] == [];
    }
  }

  lemma NotWide(i: Insn)
    requires Encodable(i) && !Wide(i) && !i.Second?
    ensures RawSingle(i).code != 0x18
  {
    hide AluNum, CmpNum;
  }

  /** Decoding gives back what was encoded, for all well-formed code. */
  lemma EncodeDecode(p: Program)
    requires Codable(p)
    ensures Decode(Encode(p).0, Encode(p).1) == M.Some(p)
  {
    hide SlotsBytes, SlotsOf, Raws, DecodeFrom;
    SlotsRoundTrip(Raws(p));
    assert |p| > 0 ==> SlotCodable(p, 0);
    DecodesFrom(p, 0);
    assert p[0..] == p;
  }

  /** What a decoded program is: well-formed, with the given slots and relocations. */
  predicate Spells(q: Program, rs: seq<Raw>, rel: Relocs, k: nat)
    requires k <= |rs|
  {
    && Codable(q) && |q| == |rs| - k && Raws(q) == rs[k..]
    && forall j: nat {:trigger q[j]} :: j < |q| ==> SymbolAt(rel, k + j) == if q[j].LoadSym? then M.Some(q[j].sym) else M.None
  }

  lemma PrependSingle(i: Insn, rest: Program, rs: seq<Raw>, rel: Relocs, k: nat)
    requires k < |rs| && Spells(rest, rs, rel, k + 1) && Encodable(i) && !Wide(i) && !i.Second? && RawSingle(i) == rs[k] && k !in rel
    ensures Spells([i] + rest, rs, rel, k)
  {
    hide RawSingle, Encodable;
    var q := [i] + rest;
    forall j: nat | j < |q| ensures SlotCodable(q, j) && RawAt(q, j) == rs[k + j] {
      if j > 0 { assert SlotCodable(rest, j - 1) && RawAt(rest, j - 1) == rs[k + 1..][j - 1]; }
    }
    forall j: nat | j < |q| ensures SymbolAt(rel, k + j) == if q[j].LoadSym? then M.Some(q[j].sym) else M.None {
      if j > 0 { assert q[j] == rest[j - 1]; }
    }
  }

  /** A wide load spells the two slots that it comes from. */
  lemma WideSpelled(r: Raw, second: Raw, sym: M.Option<Symbol>, i: Insn)
    requires WideOf(r, second, sym) == M.Some(i)
    ensures Wide(i) && SlotCodable([i, Second], 0) && SlotCodable([i, Second], 1)
    ensures RawAt([i, Second], 0) == r && RawAt([i, Second], 1) == second
    ensures sym == if i.LoadSym? then M.Some(i.sym) else M.None
  {
    hide RawSingle;
    if sym.None? { HalvesOf(Unsigned32(r.imm), Unsigned32(second.imm)); }
    assert Signed32(Unsigned32(r.imm)) == r.imm && Signed32(Unsigned32(second.imm)) == second.imm;
    hide Low32, High32, Signed32, Unsigned32;
  }

  lemma HalvesOf(low: U32, high: U32)
    ensures Low32(low + 0x1_0000_0000 * high) == low && High32(low + 0x1_0000_0000 * high) == high
  {
    DivModUnique(low + 0x1_0000_0000 * high, 0x1_0000_0000, high, low);
  }

  lemma PrependWide(i: Insn, rest: Program, rs: seq<Raw>, rel: Relocs, k: nat)
    requires k + 1 < |rs| && Spells(rest, rs, rel, k + 2) && k + 1 !in rel
    requires WideOf(rs[k], rs[k + 1], SymbolAt(rel, k)) == M.Some(i)
    ensures Spells([i, Second] + rest, rs, rel, k)
  {
    hide RawSingle, WideOf, Low32, High32, Signed32, Unsigned32;
    WideSpelled(rs[k], rs[k + 1], SymbolAt(rel, k), i);
    var q := [i, Second] + rest;
    forall j: nat | j < |q| ensures SlotCodable(q, j) && RawAt(q, j) == rs[k + j] {
      if j > 1 { assert SlotCodable(rest, j - 2) && RawAt(rest, j - 2) == rs[k + 2..][j - 2]; }
    }
    forall j: nat | j < |q| ensures SymbolAt(rel, k + j) == if q[j].LoadSym? then M.Some(q[j].sym) else M.None {
      if j > 1 { assert q[j] == rest[j - 2]; }
    }
  }

  lemma {:induction false} DecodedSpells(rs: seq<Raw>, rel: Relocs, k: nat)
    requires k <= |rs| && DecodeFrom(rs, rel, k).Some?
    ensures Spells(DecodeFrom(rs, rel, k).value, rs, rel, k)
    decreases |rs| - k
  {
    hide WideOf, SingleOf, Spells, SymbolAt;
    if k == |rs| {
      NothingLeft(rs, rel);
    } else if rs[k].code == 0x18 {
      DecodedSpells(rs, rel, k + 2);
      PrependWide(WideOf(rs[k], rs[k + 1], SymbolAt(rel, k)).value, DecodeFrom(rs, rel, k + 2).value, rs, rel, k);
    } else {
      DecodedSpells(rs, rel, k + 1);
      RawOfSingle(rs[k]);
      PrependSingle(SingleOf(rs[k]).value, DecodeFrom(rs, rel, k + 1).value, rs, rel, k);
    }
  }

  lemma NothingLeft(rs: seq<Raw>, rel: Relocs)
    ensures Spells([], rs, rel, |rs|)
  {
  }

  lemma RelocsAre(q: Program, rs: seq<Raw>, rel: Relocs)
    requires Spells(q, rs, rel, 0) && forall k :: k in rel ==> k < |rs|
    ensures RelocsOf(q) == rel
  {
    hide Raws, Codable;
    forall k: nat ensures k in RelocsOf(q) <==> k in rel {
      if k < |q| { assert q[k] == q[k] && SymbolAt(rel, 0 + k) == if q[k].LoadSym? then M.Some(q[k].sym) else M.None; }
    }
    forall k: nat | k in rel ensures RelocsOf(q)[k] == rel[k] { assert q[k] == q[k]; }
  }

  /** Encoding gives back what was decoded, for all bytes and relocations that decode at all. */
  lemma DecodeEncode(b: seq<Byte>, rel: Relocs)
    requires Decode(b, rel).Some?
    ensures Codable(Decode(b, rel).value) && Encode(Decode(b, rel).value) == (b, rel)
  {
    hide SlotsBytes, SlotsOf, DecodeFrom, Raws, Codable, RelocsOf;
    var rs := SlotsOf(b);
    DecodedSpells(rs, rel, 0);
    BytesOfSlots(b);
    RelocsAre(Decode(b, rel).value, rs, rel);
    assert rs[0..] == rs;
  }
}
