/**
 The listing of xdp_drop_prog: a bounds check, the little-endian EtherType, and a loop that
 prints it as many times as it says. The listing is older than the C file beside it; this
 is a model of the listing.
 */
module XdpListing {
  import opened Word
  import opened Isa
  import opened Machine
  import opened Stepping
  import opened Behaviours

  function XdpHeadAt(pc: int): Insn {
    match pc
    case 0 => Alu(Mov, 6, Imm(1))
    case 1 => Load(W, 2, 1, 4)
    case 2 => Load(W, 1, 1, 0)
    case 3 => Alu(Mov, 3, Reg(1))
    case 4 => Alu(Add, 3, Imm(14))
    case 5 => JumpIf(Gt, 3, Reg(2), 23)
    case 6 => Load(B, 2, 1, 12)
    case 7 => Load(B, 7, 1, 13)
    case 8 => Alu(Lsh, 7, Imm(8))
    case 9 => Alu(Or, 7, Reg(2))
    case 10 => Alu(Mov, 6, Imm(2))
    case 11 => JumpIf(Eq, 7, Imm(0), 17)
    case _ => Alu(Mov, 8, Imm(0))
  }

  function XdpLoopAt(pc: int): Insn {
    match pc
    case 13 => LoadSym(1, RodataRef, 0)
    case 15 => Alu(Mov, 2, Imm(27))
    case 16 => Alu(Mov, 3, Reg(7))
    case 17 => Call(Printk)
    case 18 => Alu(Add, 8, Imm(1))
    case 19 => Alu(Mov, 1, Reg(8))
    case 20 => Alu(Lsh, 1, Imm(32))
    case 21 => Alu(Rsh, 1, Imm(32))
    case 22 => JumpIf(Gt, 7, Reg(1), -10)
    case _ => Second
  }

  function XdpTailAt(pc: int): Insn {
    match pc
    case 23 => JumpIf(Eq, 7, Imm(8), 1)
    case 24 => Jump(4)
    case 25 => LoadSym(1, RodataRef, 27)
    case 27 => Alu(Mov, 2, Imm(24))
    case 28 => Call(Printk)
    case 29 => Alu(Mov, 0, Reg(6))
    case 30 => Exit
    case _ => Second
  }

  function XdpAt(pc: int): Insn {
    if pc < 13 then XdpHeadAt(pc) else if pc < 23 then XdpLoopAt(pc) else XdpTailAt(pc)
  }

  const XDP: Program := seq(31, XdpAt)

  // ---- What the listing is to do ----

  /** The loop's message takes one argument; the other message takes none. */
  predicate TextsOk(rodata: seq<Byte>) {
    |rodata| >= 51 && Conversions(rodata[0..27]) == 1 && Conversions(rodata[27..51]) == 0
  }

  /** Bytes 12 and 13 of an Ethernet frame, read as a little-endian number. */
  function EtherType(packet: seq<Byte>): nat
    requires |packet| >= 14
  {
    var low: nat, high: nat := packet[12], packet[13];
    low + 256 * high
  }

  function Verdict(packet: seq<Byte>): U64 {
    if |packet| < 14 then 1 else 2
  }

  function Copies(e: Event, n: nat): (r: seq<Event>)
    ensures |r| == n
  {
    seq(n, _ => e)
  }

  /** As many loop messages as the EtherType says, and one more for IPv4 (type 0x0800, so
      byte 12 is 8 and byte 13 is 0). */
  function Messages(mem: Memory): seq<Event>
    requires TextsOk(mem.rodata)
  {
    if |mem.packet| < 14 then [] else
    var h := EtherType(mem.packet);
    Copies(Printed(mem.rodata[0..27], [h]), h) + if h == 8 then [Printed(mem.rodata[27..51], [])] else []
  }

  /** The number of instructions executed, a wide load counting as one. */
  function InsnCount(packet: seq<Byte>): nat {
    if |packet| < 14 then 8 else
    var h := EtherType(packet);
    if h == 0 then 14 else if h == 8 then 91 else 17 + 9 * h
  }

  // ---- The head ----

  /** Slots 0 to 5: packets that are too short leave the straight path. */
  lemma CheckLength(mem: Memory, o: Oracle) returns (g: Progress)
    ensures g.Valid() && g == Progress(XDP, o, Entry(mem), 6, g.now)
    ensures g.now == State(if |mem.packet| < 14 then 29 else 6, g.now.regs, g.now.stack, mem, [], 0)
    ensures g.now.regs.r1 == Ptr(Packet, 0) && g.now.regs.r6 == Scalar(1)
  {
    hide Progress.Valid, Entry;
    g := Begin(XDP, o, mem);
    g := g.MovImm(6, 1);
    g := g.Fetch(W, 2, 1, 4, Ptr(Packet, |mem.packet|));
    g := g.Fetch(W, 1, 1, 0, Ptr(Packet, 0));
    g := g.MovReg(3, 1);
    g := g.Move(3, 14, Packet, 0);
    g := g.Branch(Gt, 3, Reg(2), 23, 14 > |mem.packet|);
  }

  lemma LoadByte(s: State, off: int)
    requires 0 <= off < |s.mem.packet|
    ensures LoadValue(s, B, Ptr(Packet, 0), off) == Some(Scalar(s.mem.packet[off]))
  {
    var b := s.mem.packet[off..off + 1];
    assert b == [s.mem.packet[off]] && b[1..] == [];
    assert FromBytes(b[1..]) == 0;
  }

  lemma ShiftByte(h: nat)
    requires h < 256
    ensures Shl(h, 8) == 256 * h
  {
    hide Pow2;
    Pow2Values();
    assert h * 256 < TWO64;
  }

  lemma JoinBytes(l: nat, h: nat)
    requires l < 256 && h < 256
    ensures Bits64(BitOr, 256 * h, l) == l + 256 * h
  {
    hide Bits, Pow2;
    Pow2Values();
    OrDisjoint(h, l, 8, 64);
  }

  /** The two bytes put together. */
  lemma Combine(l: nat, h: nat)
    requires l < 256 && h < 256
    ensures AluResult(Lsh, Scalar(h), Scalar(8)) == Some(Scalar(256 * h))
    ensures AluResult(Or, Scalar(256 * h), Scalar(l)) == Some(Scalar(l + 256 * h))
  {
    hide Bits64, Shl, Shr, Ashr, Quot, Rem, Pow2;
    ShiftByte(h);
    JoinBytes(l, h);
  }

  /** Slots 6 to 9: r7 becomes the EtherType. */
  lemma ReadType(g0: Progress) returns (g: Progress)
    requires g0.Valid() && g0.p == XDP && g0.now.pc == 6 && |g0.now.mem.packet| >= 14 && g0.now.regs.r1 == Ptr(Packet, 0)
    ensures g.Valid() && g == g0.(steps := g0.steps + 4, now := g.now)
    ensures g.now == g0.now.(pc := 10, regs := g.now.regs) && g.now.regs.r7 == Scalar(EtherType(g0.now.mem.packet))
  {
    hide Progress.Valid, LoadValue, AluResult;
    var l: nat, h: nat := g0.now.mem.packet[12], g0.now.mem.packet[13];
    Combine(l, h);
    LoadByte(g0.now, 12);
    g := g0.Fetch(B, 2, 1, 12, Scalar(l));
    LoadByte(g.now, 13);
    g := g.Fetch(B, 7, 1, 13, Scalar(h));
    g := g.Calc(Lsh, 7, Imm(8), Scalar(256 * h));
    g := g.Calc(Or, 7, Reg(2), Scalar(l + 256 * h));
  }

  /** Slots 10 to 12: the loop is entered unless the type is 0. */
  lemma Decide(g0: Progress, h: U64) returns (g: Progress)
    requires g0.Valid() && g0.p == XDP && g0.now.pc == 10 && g0.now.regs.r7 == Scalar(h)
    ensures g.Valid() && g == g0.(steps := g0.steps + if h == 0 then 2 else 3, now := g.now)
    ensures g.now == g0.now.(pc := if h == 0 then 29 else 13, regs := g.now.regs)
    ensures g.now.regs.r6 == Scalar(2) && g.now.regs.r7 == Scalar(h) && (h > 0 ==> g.now.regs.r8 == Scalar(0))
  {
    hide Progress.Valid;
    g := g0.MovImm(6, 2);
    g := g.Branch(Eq, 7, Imm(0), 17, h == 0);
    if h > 0 { g := g.MovImm(8, 0); }
  }

  // ---- The loop ----

  /** At slot 13, or at slot 23 after the last round: i rounds have been made. */
  predicate Round(g: Progress, mem: Memory, h: nat, i: nat)
    requires TextsOk(mem.rodata)
  {
    && g.now.pc == (if i < h then 13 else 23) && i <= h < 0x1_0000
    && g.now.regs.r6 == Scalar(2) && g.now.regs.r7 == Scalar(h) && g.now.regs.r8 == Scalar(i)
    && g.now.mem == mem && g.now.calls == i && g.now.trace == Copies(Printed(mem.rodata[0..27], [h]), i)
  }

  /** Slots 13 to 17: one message. */
  lemma Print(g0: Progress, mem: Memory, h: nat) returns (g: Progress)
    requires g0.Valid() && g0.p == XDP && g0.now.pc == 13 && g0.now.mem == mem && TextsOk(mem.rodata)
    requires h < 0x1_0000 && g0.now.regs.r7 == Scalar(h)
    ensures g.Valid() && g == g0.(steps := g0.steps + 4, now := g.now)
    ensures g.now == g0.now.(pc := 18, regs := g.now.regs, calls := g0.now.calls + 1,
                             trace := g0.now.trace + [Printed(mem.rodata[0..27], [h])])
    ensures g.now.regs.r6 == g0.now.regs.r6 && g.now.regs.r7 == g0.now.regs.r7 && g.now.regs.r8 == g0.now.regs.r8
  {
    hide Progress.Valid, Conversions;
    g := g0.SymRodata(1, 0);
    g := g.MovImm(2, 27);
    g := g.MovReg(3, 7);
    g := g.Say(mem.rodata[0..27], h);
  }

  lemma AddOne(i: nat)
    requires i < 0x1_0000
    ensures AluResult(Add, Scalar(i), Scalar(Wrap(1))) == Some(Scalar(i + 1))
  {
  }

  /** Slots 18 and 19. */
  lemma Increment(g0: Progress, i: nat) returns (g: Progress)
    requires g0.Valid() && g0.p == XDP && g0.now.pc == 18 && i < 0xFFFF && g0.now.regs.r8 == Scalar(i)
    ensures g.Valid() && g == g0.(steps := g0.steps + 2, now := g.now)
    ensures g.now == g0.now.(pc := 20, regs := g0.now.regs.(r8 := Scalar(i + 1), r1 := Scalar(i + 1)))
  {
    hide Progress.Valid, AluResult;
    AddOne(i);
    g := g0.Calc(Add, 8, Imm(1), Scalar(i + 1));
    g := g.MovReg(1, 8);
  }

  /** Slots 18 to 22: the counter goes up, and is compared as a 32-bit number. */
  lemma CountUp(g0: Progress, h: nat, i: nat) returns (g: Progress)
    requires g0.Valid() && g0.p == XDP && g0.now.pc == 18 && i < h < 0x1_0000
    requires g0.now.regs.r7 == Scalar(h) && g0.now.regs.r8 == Scalar(i)
    ensures g.Valid() && g == g0.(steps := g0.steps + 5, now := g.now)
    ensures g.now == g0.now.(pc := if i + 1 < h then 13 else 23, regs := g.now.regs)
    ensures g.now.regs.r6 == g0.now.regs.r6 && g.now.regs.r7 == Scalar(h) && g.now.regs.r8 == Scalar(i + 1)
  {
    hide Progress.Valid;
    g := Increment(g0, i);
    g := g.KeepLow(1, i + 1);
    g := g.Branch(Gt, 7, Reg(1), -10, h > i + 1);
  }

  lemma OneRound(g0: Progress, mem: Memory, h: nat, i: nat) returns (g: Progress)
    requires g0.Valid() && g0.p == XDP && TextsOk(mem.rodata) && Round(g0, mem, h, i) && i < h
    ensures g.Valid() && g == g0.(steps := g0.steps + 9, now := g.now) && Round(g, mem, h, i + 1)
  {
    hide Progress.Valid, Conversions;
    g := Print(g0, mem, h);
    g := CountUp(g, h, i);
    assert g.now.trace == Copies(Printed(mem.rodata[0..27], [h]), i + 1);
  }

  /** The rounds that are left. */
  lemma {:induction false} Rounds(g0: Progress, mem: Memory, h: nat, i: nat) returns (g: Progress)
    requires g0.Valid() && g0.p == XDP && TextsOk(mem.rodata) && Round(g0, mem, h, i)
    ensures g.Valid() && g == g0.(steps := g0.steps + 9 * (h - i), now := g.now) && Round(g, mem, h, h)
    decreases h - i
  {
    hide Progress.Valid, TextsOk, Round;
    g := g0;
    assert i <= h by { Bounded(g0, mem, h, i); }
    if i < h {
      g := OneRound(g0, mem, h, i);
      g := Rounds(g, mem, h, i + 1);
    }
  }

  lemma Bounded(g: Progress, mem: Memory, h: nat, i: nat)
    requires TextsOk(mem.rodata) && Round(g, mem, h, i)
    ensures i <= h
  {
  }

  // ---- The tail ----

  /** Slots 23 to 28. */
  /** Slots 25 to 28: the message for EtherType 8. */
  lemma LastPrint(g0: Progress) returns (g: Progress)
    requires g0.Valid() && g0.p == XDP && g0.now.pc == 25 && TextsOk(g0.now.mem.rodata)
    ensures g.Valid() && g == g0.(steps := g0.steps + 3, now := g.now)
    ensures g.now.pc == 29 && g.now.mem == g0.now.mem && g.now.regs.r6 == g0.now.regs.r6
    ensures g.now.trace == g0.now.trace + [Printed(g0.now.mem.rodata[27..51], [])]
  {
    hide Progress.Valid, Conversions;
    g := g0.SymRodata(1, 27);
    g := g.MovImm(2, 24);
    var t := g.now;
    g := g.Invoke(Printk, Return(t, Scalar(g.o(t.calls).value), t.trace + [Printed(t.mem.rodata[27..51], [])]));
  }

  lemma Last(g0: Progress, mem: Memory, h: nat) returns (g: Progress)
    requires g0.Valid() && g0.p == XDP && TextsOk(mem.rodata) && Round(g0, mem, h, h)
    ensures g.Valid() && g == g0.(steps := g0.steps + if h == 8 then 4 else 2, now := g.now)
    ensures g.now.pc == 29 && g.now.mem == mem && g.now.regs.r6 == Scalar(2)
    ensures g.now.trace == g0.now.trace + if h == 8 then [Printed(mem.rodata[27..51], [])] else []
  {
    hide Progress.Valid, Conversions;
    g := g0.Branch(Eq, 7, Imm(8), 1, h == 8);
    if h == 8 {
      g := LastPrint(g);
    } else {
      g := g.Goto(4);
    }
  }

  /** Slots 29 and 30. */
  lemma Leave(g0: Progress, r: U64) returns (g: Progress)
    requires g0.Valid() && g0.p == XDP && g0.now.pc == 29 && g0.now.regs.r6 == Scalar(r)
    ensures g.Valid() && g == g0.(steps := g0.steps + 1, now := g.now)
    ensures g.now == g0.now.(pc := 30, regs := g.now.regs) && g.At(Exit) && g.now.regs.r0 == Scalar(r)
  {
    hide Progress.Valid;
    g := g0.MovReg(0, 6);
  }

  /** Slots 6 to 28, for a packet that is long enough. */
  lemma LongPacket(g0: Progress, mem: Memory, o: Oracle) returns (g: Progress)
    requires TextsOk(mem.rodata) && |mem.packet| >= 14
    requires g0.Valid() && g0 == Progress(XDP, o, Entry(mem), 6, g0.now) && g0.now.regs.r1 == Ptr(Packet, 0)
    requires g0.now == State(6, g0.now.regs, g0.now.stack, mem, [], 0)
    ensures g.Valid() && g == g0.(steps := InsnCount(mem.packet) - 2, now := g.now)
    ensures g.now.pc == 29 && g.now.mem == mem && g.now.regs.r6 == Scalar(2) && g.now.trace == Messages(mem)
  {
    hide Progress.Valid, TextsOk, Entry;
    var h := EtherType(mem.packet);
    g := ReadType(g0);
    g := Decide(g, h);
    if h > 0 {
      g := Rounds(g, mem, h, 0);
      g := Last(g, mem, h);
    }
  }

  /** On every packet the listing ends: with result 1 if the packet is shorter than an Ethernet
      header and 2 otherwise, with exactly these messages and after exactly this many
      instructions; memory is not changed. */
  lemma XdpRuns(mem: Memory, o: Oracle) returns (end: State)
    requires TextsOk(mem.rodata)
    ensures Run(XDP, o, Running(Entry(mem)), InsnCount(mem.packet)) == Exited(Verdict(mem.packet), end)
    ensures Run(XDP, o, Running(Entry(mem)), InsnCount(mem.packet) - 1).Running?
    ensures end.mem == mem && end.trace == Messages(mem)
  {
    hide Progress.Valid, Run, TextsOk, Entry, EtherType;
    var g := CheckLength(mem, o);
    if |mem.packet| >= 14 { g := LongPacket(g, mem, o); }
    g := Leave(g, Verdict(mem.packet));
    g.Finish(InsnCount(mem.packet));
    end := g.now;
    StillRunning(g);
  }

  lemma StillRunning(g: Progress)
    requires g.Valid()
    ensures Run(g.p, g.o, Running(g.start), g.steps).Running?
  {
  }

  /** No run takes more than 589,832 instructions, and one with type 0xFFFF takes that many. */
  lemma CountBound(packet: seq<Byte>)
    ensures InsnCount(packet) <= 589_832 < 1_000_000
    ensures |packet| >= 14 && EtherType(packet) == 0xFFFF ==> InsnCount(packet) == 589_832
  {
  }

  lemma XdpBehaves(mem: Memory, o: Oracle)
    requires TextsOk(mem.rodata)
    ensures BehaviourOf(XDP, o, mem) == Returns(Verdict(mem.packet), mem, Messages(mem))
  {
    hide Run, Entry, Messages, InsnCount;
    var end := XdpRuns(mem, o);
    BehaviourIs(XDP, o, mem, InsnCount(mem.packet));
  }
}
