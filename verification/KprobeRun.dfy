/** The blocks of kprobe_exec's object code, a few instructions at a time. */
module KprobeRun {
  import opened Word
  import opened Isa
  import opened Machine
  import opened Stepping
  import opened Frames
  import opened KprobeListing
  import C = KprobeC

  const ZERO: seq<Byte> := Bytes(0, 4)

  /** Slots 0 to 6: c is read and its successor stored. */
  lemma ReadCounter(g0: Progress, c: U32) returns (g: Progress)
    requires g0.Valid() && g0.p == KPROBE_OBJECT && g0.now.pc == 0
    requires g0.now.regs.r1 == Ptr(Ctx, 0) && |g0.now.mem.data| >= 4 && g0.now.mem.data[..4] == Bytes(c, 4)
    ensures g.Valid() && g == g0.(steps := g0.steps + 3, now := g.now)
    ensures g.now == g0.now.(pc := 4, regs := g0.now.regs.(r6 := Ptr(Ctx, 0), r1 := Ptr(Data, 0), r2 := Scalar(c)))
  {
    hide Progress.Valid, LoadValue, Bytes, IdentifyAt, CopyAt, GlobalAt, EmitAt;
    g := g0.MovReg(6, 1);
    g := g.SymData(1, 0);
    LoadWord(g.now, c);
    g := g.Fetch(W, 2, 1, 0, Scalar(c));
  }

  lemma StoreCounter(g0: Progress, c: U32, data: seq<Byte>) returns (g: Progress)
    requires g0.Valid() && g0.p == KPROBE_OBJECT && g0.now.pc == 4 && |g0.now.mem.data| >= 4
    requires g0.now.regs.r1 == Ptr(Data, 0) && g0.now.regs.r2 == Scalar(c)
    requires data == Splice(g0.now.mem.data, 0, Bytes(c + 1, 4))
    ensures g.Valid() && g == g0.(steps := g0.steps + 3, now := g.now)
    ensures g.now == g0.now.(pc := 7, regs := g0.now.regs.(r3 := Scalar(c + 1)), mem := g0.now.mem.(data := data))
  {
    hide Progress.Valid, Splice, Bytes, IdentifyAt, CopyAt, GlobalAt, EmitAt;
    g := g0.MovReg(3, 2);
    g := g.Calc(Add, 3, Imm(1), Scalar(c + 1));
    g := g.Assign(W, 1, 0, 3, c + 1, data);
  }

  lemma LoadWord(s: State, c: U32)
    requires |s.mem.data| >= 4 && s.mem.data[..4] == Bytes(c, 4)
    ensures LoadValue(s, W, Ptr(Data, 0), 0) == Some(Scalar(c))
  {
    assert Word64(Bytes(c, 4)) == c by {
      Pow2Values();
      WordOfBytes(c, 4);
    }
    hide Bytes, Word64;
    assert s.mem.data[0..4] == s.mem.data[..4];
  }

  /** Slots 7 to 15: the buffer is cleared and its counter set. */
  lemma ClearFirst(g0: Progress) returns (g: Progress)
    requires g0.Valid() && g0.p == KPROBE_OBJECT && g0.now.pc == 7 && g0.now.regs.r10 == Ptr(Stack, STACK_SIZE)
    ensures g.Valid() && g == g0.(steps := g0.steps + 3, now := g.now)
    ensures g.now == g0.now.(pc := 10, regs := g0.now.regs.(r1 := Scalar(0)), stack := Put(Put(g0.now.stack, 504, ZERO), 500, ZERO))
  {
    hide Progress.Valid, Put, Bytes, IdentifyAt, CopyAt, GlobalAt, EmitAt;
    g := g0.MovImm(1, 0);
    g := g.Spill(W, -8, 1, 0);
    g := g.Spill(W, -12, 1, 0);
  }

  lemma ClearLow(g0: Progress) returns (g: Progress)
    requires g0.Valid() && g0.p == KPROBE_OBJECT && g0.now.pc == 7 && g0.now.regs.r10 == Ptr(Stack, STACK_SIZE)
    ensures g.Valid() && g == g0.(steps := g0.steps + 5, now := g.now)
    ensures g.now == g0.now.(pc := 12, regs := g0.now.regs.(r1 := Scalar(0)), stack := g.now.stack)
    ensures g.now.stack == Put(Put(Put(Put(g0.now.stack, 504, ZERO), 500, ZERO), 496, ZERO), 492, ZERO)
  {
    hide Progress.Valid, Put, Bytes, IdentifyAt, CopyAt, GlobalAt, EmitAt;
    g := ClearFirst(g0);
    g := g.Spill(W, -16, 1, 0);
    g := g.Spill(W, -20, 1, 0);
  }

  lemma ClearHigh(g0: Progress, c: U32) returns (g: Progress)
    requires g0.Valid() && g0.p == KPROBE_OBJECT && g0.now.pc == 12 && g0.now.regs.r10 == Ptr(Stack, STACK_SIZE)
    requires g0.now.regs.r1 == Scalar(0) && g0.now.regs.r2 == Scalar(c)
    ensures g.Valid() && g == g0.(steps := g0.steps + 4, now := g.now)
    ensures g.now == g0.now.(pc := 16, stack := g.now.stack)
    ensures g.now.stack == Put(Put(Put(Put(g0.now.stack, 488, ZERO), 484, ZERO), 508, ZERO), 480, Bytes(c, 4))
  {
    hide Progress.Valid, Put, Bytes, IdentifyAt, CopyAt, GlobalAt, EmitAt;
    g := g0.Spill(W, -24, 1, 0);
    g := g.Spill(W, -28, 1, 0);
    g := g.Spill(W, -4, 1, 0);
    g := g.Spill(W, -32, 2, c);
  }

  predicate ZeroFrom(stack: Frame, first: nat, last: nat) {
    last <= STACK_SIZE && forall i :: first <= i < last ==> stack[i] == 0
  }

  lemma ZeroBelow(stack: Frame, off: nat, last: nat)
    requires off + 4 <= last && ZeroFrom(stack, off + 4, last)
    ensures ZeroFrom(Put(stack, off, ZERO), off, last)
  {
    assert ZERO == [0, 0, 0, 0];
  }

  lemma ZeroAbove(stack: Frame, first: nat, off: nat)
    requires first <= off && off + 4 <= STACK_SIZE && ZeroFrom(stack, first, off)
    ensures ZeroFrom(Put(stack, off, ZERO), first, off + 4)
  {
    assert ZERO == [0, 0, 0, 0];
  }

  lemma ZeroKept(stack: Frame, off: nat, b: seq<Byte>, n: nat)
    requires off + |b| + n <= STACK_SIZE && ZeroFrom(stack, off + |b|, off + |b| + n)
    ensures Has(Put(stack, off, b), off, b) && Has(Put(stack, off, b), off + |b|, C.Zeros(n))
  {
  }

  /** The eight words at -32 to -4 after both halves of the clearing. */
  lemma ClearedFrame(stack: Frame, c: U32) returns (r: Frame)
    ensures r == Put(Put(Put(Put(Put(Put(Put(Put(stack, 504, ZERO), 500, ZERO), 496, ZERO), 492, ZERO),
                                 488, ZERO), 484, ZERO), 508, ZERO), 480, Bytes(c, 4))
    ensures Has(r, 480, Bytes(c, 4)) && Has(r, 484, C.Zeros(28))
  {
    hide Put, Bytes, Has, ZeroFrom;
    assert |ZERO| == 4;
    assert ZeroFrom(stack, 508, 508) by { NothingZero(stack); }
    r := stack;
    ZeroBelow(r, 504, 508);
    r := Put(r, 504, ZERO);
    ZeroBelow(r, 500, 508);
    r := Put(r, 500, ZERO);
    ZeroBelow(r, 496, 508);
    r := Put(r, 496, ZERO);
    ZeroBelow(r, 492, 508);
    r := Put(r, 492, ZERO);
    ZeroBelow(r, 488, 508);
    r := Put(r, 488, ZERO);
    ZeroBelow(r, 484, 508);
    r := Put(r, 484, ZERO);
    ZeroAbove(r, 484, 508);
    r := Put(r, 508, ZERO);
    ZeroKept(r, 480, Bytes(c, 4), 28);
    r := Put(r, 480, Bytes(c, 4));
  }

  lemma NothingZero(stack: Frame)
    ensures ZeroFrom(stack, 508, 508)
  {
  }

  /** Slots 16 to 22: the process and the user are recorded. */
  lemma RecordPid(g0: Progress) returns (g: Progress)
    requires g0.Valid() && g0.p == KPROBE_OBJECT && g0.now.pc == 16 && g0.now.regs.r10 == Ptr(Stack, STACK_SIZE)
    ensures g.Valid() && g == g0.(steps := g0.steps + 2, now := g.now)
    ensures g.now == g0.now.(pc := 18, calls := g0.now.calls + 1, regs := g.now.regs,
                             stack := Put(g0.now.stack, 472, Bytes(g0.o(g0.now.calls).value, 4)))
    ensures g.now.regs.r6 == g0.now.regs.r6 && g.now.regs.r10 == g0.now.regs.r10
  {
    hide Progress.Valid, Put, Bytes, CountAt, CopyAt, GlobalAt, EmitAt;
    g := g0.Ask(PidTgid);
    g := g.Spill(W, -40, 0, g0.o(g0.now.calls).value);
  }

  lemma RecordUid(g0: Progress, x: U64) returns (g: Progress)
    requires g0.Valid() && g0.p == KPROBE_OBJECT && g0.now.pc == 18 && g0.now.regs.r10 == Ptr(Stack, STACK_SIZE)
    requires x == g0.o(g0.now.calls).value
    ensures g.Valid() && g == g0.(steps := g0.steps + 5, now := g.now)
    ensures g.now == g0.now.(pc := 23, calls := g0.now.calls + 1, regs := g.now.regs,
                             stack := Put(Put(g0.now.stack, 476, Bytes(x, 4)), 464, Bytes(x % 0x1_0000_0000, 8)))
    ensures g.now.regs.r6 == g0.now.regs.r6 && g.now.regs.r10 == g0.now.regs.r10
  {
    hide Progress.Valid, Put, Bytes, CountAt, CopyAt, GlobalAt, EmitAt;
    g := g0.Ask(UidGid);
    g := g.Spill(W, -36, 0, x);
    g := g.KeepLow(0, x);
    g := g.Spill(DW, -48, 0, x % 0x1_0000_0000);
  }

  /** Slots 23 to 27: the lookup, whose key is the low word of the 64-bit user id. */
  lemma LookConfig(g0: Progress, key: seq<Byte>) returns (g: Progress)
    requires g0.Valid() && g0.p == KPROBE_OBJECT && g0.now.pc == 23 && g0.now.regs.r10 == Ptr(Stack, STACK_SIZE)
    requires |key| == 4 && Has(g0.now.stack, 464, key)
    ensures g.Valid() && g == g0.(steps := g0.steps + 4, now := g.now)
    ensures g.now == g0.now.(pc := 28, calls := g0.now.calls + 1, regs := g.now.regs, trace := g0.now.trace + [LookedUp(MyConfig, key)])
    ensures g.now.regs.r0 == if key in g0.now.mem.config then Ptr(Elem(MyConfig, key), ELEM_HEADER) else Scalar(0)
    ensures g.now.regs.r6 == g0.now.regs.r6 && g.now.regs.r10 == g0.now.regs.r10
  {
    HasRead(g0.now.mem, g0.now.stack, 464, key);
    hide Progress.Valid, ReadBytes, Has;
    g := LookArgs(g0);
    var r0 := if key in g0.now.mem.config then Ptr(Elem(MyConfig, key), ELEM_HEADER) else Scalar(0);
    g := g.Look(MapLookup, MyConfig, key, r0);
  }

  lemma LookArgs(g0: Progress) returns (g: Progress)
    requires g0.Valid() && g0.p == KPROBE_OBJECT && g0.now.pc == 23 && g0.now.regs.r10 == Ptr(Stack, STACK_SIZE)
    ensures g.Valid() && g == g0.(steps := g0.steps + 3, now := g.now)
    ensures g.now == g0.now.(pc := 27, regs := g0.now.regs.(r1 := MapPtr(MyConfig), r2 := Ptr(Stack, 464)))
  {
    hide Progress.Valid;
    g := g0.FrameSlot(2, -48);
    g := g.SymMap(1, MyConfig);
  }

  // ---- The greeting, slots 28 to 46 ----

  const FORMAT_D: seq<Byte> := [37, 100, 0]
  const FORMAT_C: seq<Byte> := [37, 99, 0]

  /** The constants that the object file keeps for the three prints. */
  predicate RodataOk(rodata: seq<Byte>) {
    |rodata| >= 9 && rodata[0..3] == FORMAT_D && rodata[3..6] == FORMAT_C && rodata[6..9] == FORMAT_C
  }

  lemma FormatsOk()
    ensures Conversions(FORMAT_D) == 1 && Conversions(FORMAT_C) == 1
  {
    assert FORMAT_D[1..] == [100, 0] && FORMAT_D[1..][1..] == [0] && FORMAT_D[1..][1..][1..] == [];
    assert FORMAT_C[1..] == [99, 0] && FORMAT_C[1..][1..] == [0] && FORMAT_C[1..][1..][1..] == [];
  }

  /** Where the formats are. */
  lemma FormatsAt(mem: Memory, stack: Frame)
    requires RodataOk(mem.rodata)
    ensures ReadBytes(mem, stack, Rodata, 0, 3) == Some(FORMAT_D)
    ensures ReadBytes(mem, stack, Rodata, 3, 3) == Some(FORMAT_C) && ReadBytes(mem, stack, Rodata, 6, 3) == Some(FORMAT_C)
  {
  }

  lemma LoadFirst(s: State, key: seq<Byte>, m: seq<Byte>)
    requires key in s.mem.config && s.mem.config[key] == m && |m| == 12
    ensures LoadValue(s, B, Ptr(Elem(MyConfig, key), ELEM_HEADER), 0) == Some(Scalar(m[0]))
  {
    assert m[0..1] == [m[0]];
    assert Word64([m[0]]) == m[0] by { assert [m[0]][1..] == []; }
  }

  lemma GreetLoad(g0: Progress, key: seq<Byte>, m: seq<Byte>) returns (g: Progress)
    requires g0.Valid() && g0.p == KPROBE_OBJECT && g0.now.pc == 28 && g0.now.regs.r0 == Ptr(Elem(MyConfig, key), ELEM_HEADER)
    requires key in g0.now.mem.config && g0.now.mem.config[key] == m && |m| == 12
    ensures g.Valid() && g == g0.(steps := g0.steps + 3, now := g.now)
    ensures g.now == g0.now.(pc := 31, regs := g0.now.regs.(r7 := g0.now.regs.r0, r3 := Scalar(m[0])))
  {
    hide Progress.Valid, LoadValue, CountAt, GlobalAt, EmitAt;
    g := g0.MovReg(7, 0);
    g := g.IfNull(7, 12, false);
    LoadFirst(g.now, key, m);
    g := g.Fetch(B, 3, 7, 0, Scalar(m[0]));
  }

  lemma GreetPrint(g0: Progress, b: Byte) returns (g: Progress)
    requires g0.Valid() && g0.p == KPROBE_OBJECT && g0.now.pc == 31 && g0.now.regs.r3 == Scalar(b)
    requires RodataOk(g0.now.mem.rodata)
    ensures g.Valid() && g == g0.(steps := g0.steps + 5, now := g.now)
    ensures g.now == g0.now.(pc := 37, regs := g.now.regs, calls := g0.now.calls + 1,
                             trace := g0.now.trace + [Printed(FORMAT_D, [SignExtendByte(b)])])
    ensures g.now.regs.r6 == g0.now.regs.r6 && g.now.regs.r7 == g0.now.regs.r7 && g.now.regs.r10 == g0.now.regs.r10
  {
    hide Progress.Valid, ReadBytes, RodataOk, SignExtendByte, Conversions, CountAt, IdentifyAt, GlobalAt, EmitAt;
    g := g0.SignExtend(3, b);
    g := g.SymRodata(1, 0);
    g := g.MovImm(2, 3);
    FormatsOk();
    FormatsAt(g.now.mem, g.now.stack);
    g := g.Say(FORMAT_D, SignExtendByte(b));
  }

  /** Slots 37 to 41: the user's message is the source of the copy. */
  lemma CopyOwn(g0: Progress) returns (g: Progress)
    requires g0.Valid() && g0.p == KPROBE_OBJECT && g0.now.pc == 37 && g0.now.regs.r10 == Ptr(Stack, STACK_SIZE)
    requires g0.now.regs.r7.Ptr?
    ensures g.Valid() && g == g0.(steps := g0.steps + 5, now := g.now)
    ensures g.now == g0.now.(pc := 47, regs := g0.now.regs.(r1 := Ptr(Stack, 500), r2 := Scalar(12), r3 := g0.now.regs.r7))
  {
    hide Progress.Valid, CountAt, IdentifyAt, GlobalAt, EmitAt;
    g := CopyTarget(g0, 37);
    g := g.MovReg(3, 7);
    g := g.Goto(5);
  }

  /** Both branches copy to the message at r10 - 12. */
  lemma CopyTarget(g0: Progress, pc: int) returns (g: Progress)
    requires g0.Valid() && g0.p == KPROBE_OBJECT && g0.now.pc == pc && (pc == 37 || pc == 42)
    requires g0.now.regs.r10 == Ptr(Stack, STACK_SIZE)
    ensures g.Valid() && g == g0.(steps := g0.steps + 3, now := g.now)
    ensures g.now == g0.now.(pc := pc + 3, regs := g0.now.regs.(r1 := Ptr(Stack, 500), r2 := Scalar(12)))
  {
    hide Progress.Valid;
    g := g0.FrameSlot(1, -12);
    g := g.MovImm(2, 12);
  }

  /** Slots 28, 29 and 42 to 46: without an own message the global one is the source. */
  lemma CopyGlobal(g0: Progress) returns (g: Progress)
    requires g0.Valid() && g0.p == KPROBE_OBJECT && g0.now.pc == 28 && g0.now.regs.r10 == Ptr(Stack, STACK_SIZE)
    requires g0.now.regs.r0 == Scalar(0)
    ensures g.Valid() && g == g0.(steps := g0.steps + 6, now := g.now)
    ensures g.now == g0.now.(pc := 47, regs := g0.now.regs.(r1 := Ptr(Stack, 500), r2 := Scalar(12), r3 := Ptr(Data, 4), r7 := Scalar(0)))
  {
    hide Progress.Valid, CountAt, GlobalAt, EmitAt;
    g := g0.MovReg(7, 0);
    g := g.IfNull(7, 12, true);
    g := CopyTarget(g, 42);
    g := g.SymMessage(3);
  }

  // ---- The copy and the first comparison, slots 47 to 51 ----

  lemma CopyMessage(g0: Progress, m: seq<Byte>) returns (g: Progress)
    requires g0.Valid() && g0.p == KPROBE_OBJECT && g0.now.pc == 47 && |m| == 12
    requires g0.now.regs.r1 == Ptr(Stack, 500) && g0.now.regs.r2 == Scalar(12) && g0.now.regs.r3.Ptr?
    requires ReadVia(g0.now, g0.now.regs.r3, 12) == Some(m)
    ensures g.Valid() && g == g0.(steps := g0.steps + 1, now := g.now)
    ensures g.now == g0.now.(pc := 48, calls := g0.now.calls + 1, regs := g.now.regs,
                             stack := Put(g0.now.stack, 500, C.Probed(m, g0.o(g0.now.calls))))
    ensures g.now.regs.r6 == g0.now.regs.r6 && g.now.regs.r10 == g0.now.regs.r10
  {
    hide Progress.Valid, ReadVia, Fit, Put;
    g := g0.FillFrame(ProbeRead, 500, 12, C.Probed(m, g0.o(g0.now.calls)));
  }

  lemma TestCounter(g0: Progress, c: U32) returns (g: Progress)
    requires g0.Valid() && g0.p == KPROBE_OBJECT && g0.now.pc == 48
    requires |g0.now.mem.data| >= 4 && g0.now.mem.data[..4] == Bytes(c, 4)
    ensures g.Valid() && g == g0.(steps := g0.steps + 3, now := g.now)
    ensures g.now == g0.now.(pc := if c > 11 then 74 else 52, regs := g0.now.regs.(r7 := Ptr(Data, 0), r1 := Scalar(c)))
  {
    hide Progress.Valid, LoadValue, Bytes, CountAt, IdentifyAt, CopyAt, EmitAt;
    g := g0.SymData(7, 0);
    LoadWord(g.now, c);
    g := g.Fetch(W, 1, 7, 0, Scalar(c));
    g := g.Branch(Gt, 1, Imm(11), 22, c > 11);
  }

  // ---- The character of the global message, slots 52 to 61 ----

  lemma LoadByte(s: State, off: nat)
    requires off < |s.mem.data|
    ensures LoadValue(s, B, Ptr(Data, off), 0) == Some(Scalar(s.mem.data[off]))
  {
    var b := s.mem.data[off];
    assert s.mem.data[off..off + 1] == [b];
    assert Word64([b]) == b by { assert [b][1..] == []; }
  }

  lemma LoadGlobalChar(g0: Progress, c: nat) returns (g: Progress)
    requires g0.Valid() && g0.p == KPROBE_OBJECT && g0.now.pc == 52 && |g0.now.mem.data| == 16
    requires c <= 11 && g0.now.regs.r1 == Scalar(c)
    ensures g.Valid() && g == g0.(steps := g0.steps + 3, now := g.now)
    ensures g.now == g0.now.(pc := 56, regs := g.now.regs) && g.now.regs.r3 == Scalar(g0.now.mem.data[4 + c])
    ensures g.now.regs.r6 == g0.now.regs.r6 && g.now.regs.r7 == g0.now.regs.r7 && g.now.regs.r10 == g0.now.regs.r10
  {
    hide Progress.Valid, LoadValue, CountAt, IdentifyAt, CopyAt, EmitAt;
    g := g0.SymMessage(2);
    g := g.Calc(Add, 2, Reg(1), Ptr(Data, 4 + c));
    LoadByte(g.now, 4 + c);
    g := g.Fetch(B, 3, 2, 0, Scalar(g0.now.mem.data[4 + c]));
  }

  lemma GlobalCharArgs(g0: Progress, b: Byte) returns (g: Progress)
    requires g0.Valid() && g0.p == KPROBE_OBJECT && g0.now.pc == 56 && g0.now.regs.r3 == Scalar(b)
    ensures g.Valid() && g == g0.(steps := g0.steps + 4, now := g.now)
    ensures g.now == g0.now.(pc := 61, regs := g0.now.regs.(r1 := Ptr(Rodata, 3), r2 := Scalar(3), r3 := Scalar(SignExtendByte(b))))
  {
    hide Progress.Valid, SignExtendByte, CountAt, IdentifyAt, CopyAt, EmitAt;
    g := g0.SignExtend(3, b);
    g := g.SymRodata(1, 3);
    g := g.MovImm(2, 3);
  }

  lemma PrintGlobalChar(g0: Progress, b: Byte) returns (g: Progress)
    requires g0.Valid() && g0.p == KPROBE_OBJECT && g0.now.pc == 56 && g0.now.regs.r3 == Scalar(b)
    requires RodataOk(g0.now.mem.rodata)
    ensures g.Valid() && g == g0.(steps := g0.steps + 5, now := g.now)
    ensures g.now == g0.now.(pc := 62, regs := g.now.regs, calls := g0.now.calls + 1,
                             trace := g0.now.trace + [Printed(FORMAT_C, [SignExtendByte(b)])])
    ensures g.now.regs.r6 == g0.now.regs.r6 && g.now.regs.r7 == g0.now.regs.r7 && g.now.regs.r10 == g0.now.regs.r10
  {
    hide Progress.Valid, ReadBytes, RodataOk, SignExtendByte, Conversions, CountAt, IdentifyAt, CopyAt, EmitAt;
    g := GlobalCharArgs(g0, b);
    FormatsOk();
    FormatsAt(g.now.mem, g.now.stack);
    g := g.Say(FORMAT_C, SignExtendByte(b));
  }

  // ---- The character of the copy, slots 62 to 73 ----

  lemma TestAgain(g0: Progress, c: nat) returns (g: Progress)
    requires g0.Valid() && g0.p == KPROBE_OBJECT && g0.now.pc == 62 && g0.now.regs.r7 == Ptr(Data, 0)
    requires |g0.now.mem.data| >= 4 && g0.now.mem.data[..4] == Bytes(c, 4) && c <= 11
    ensures g.Valid() && g == g0.(steps := g0.steps + 2, now := g.now)
    ensures g.now == g0.now.(pc := 64, regs := g0.now.regs.(r1 := Scalar(c)))
  {
    hide Progress.Valid, LoadValue, Bytes, CountAt, IdentifyAt, CopyAt, EmitAt;
    LoadWord(g0.now, c);
    g := g0.Fetch(W, 1, 7, 0, Scalar(c));
    g := g.Branch(Gt, 1, Imm(11), 10, false);
  }

  lemma LoadCell(s: State, off: int, b: Byte)
    requires 0 <= off + 28 < STACK_SIZE && s.stack[off + 28] == b
    ensures LoadValue(s, B, Ptr(Stack, off), 28) == Some(Scalar(b))
  {
    HasRead(s.mem, s.stack, off + 28, [b]);
    assert Word64([b]) == b by { assert [b][1..] == []; }
  }

  lemma LoadCopyChar(g0: Progress, c: nat, b: Byte) returns (g: Progress)
    requires g0.Valid() && g0.p == KPROBE_OBJECT && g0.now.pc == 64 && g0.now.regs.r10 == Ptr(Stack, STACK_SIZE)
    requires c <= 11 && g0.now.regs.r1 == Scalar(c) && g0.now.stack[500 + c] == b
    ensures g.Valid() && g == g0.(steps := g0.steps + 4, now := g.now)
    ensures g.now == g0.now.(pc := 68, regs := g0.now.regs.(r2 := Ptr(Stack, 472 + c), r3 := Scalar(b)))
  {
    hide Progress.Valid, LoadValue, CountAt, IdentifyAt, CopyAt, GlobalAt;
    g := g0.FrameSlot(2, -40);
    g := g.Calc(Add, 2, Reg(1), Ptr(Stack, 472 + c));
    LoadCell(g.now, 472 + c, b);
    g := g.Fetch(B, 3, 2, 28, Scalar(b));
  }

  lemma CopyCharArgs(g0: Progress, b: Byte) returns (g: Progress)
    requires g0.Valid() && g0.p == KPROBE_OBJECT && g0.now.pc == 68 && g0.now.regs.r3 == Scalar(b)
    ensures g.Valid() && g == g0.(steps := g0.steps + 4, now := g.now)
    ensures g.now == g0.now.(pc := 73, regs := g0.now.regs.(r1 := Ptr(Rodata, 6), r2 := Scalar(3), r3 := Scalar(SignExtendByte(b))))
  {
    hide Progress.Valid, SignExtendByte, CountAt, IdentifyAt, CopyAt, GlobalAt;
    g := g0.SignExtend(3, b);
    g := g.SymRodata(1, 6);
    g := g.MovImm(2, 3);
  }

  lemma PrintCopyChar(g0: Progress, b: Byte) returns (g: Progress)
    requires g0.Valid() && g0.p == KPROBE_OBJECT && g0.now.pc == 68 && g0.now.regs.r3 == Scalar(b)
    requires RodataOk(g0.now.mem.rodata)
    ensures g.Valid() && g == g0.(steps := g0.steps + 5, now := g.now)
    ensures g.now == g0.now.(pc := 74, regs := g.now.regs, calls := g0.now.calls + 1,
                             trace := g0.now.trace + [Printed(FORMAT_C, [SignExtendByte(b)])])
    ensures g.now.regs.r6 == g0.now.regs.r6 && g.now.regs.r10 == g0.now.regs.r10
  {
    hide Progress.Valid, ReadBytes, RodataOk, SignExtendByte, Conversions, CountAt, IdentifyAt, CopyAt, GlobalAt;
    g := CopyCharArgs(g0, b);
    FormatsOk();
    FormatsAt(g.now.mem, g.now.stack);
    g := g.Say(FORMAT_C, SignExtendByte(b));
  }

  // ---- The event, slots 74 to 88 ----

  lemma NameArgs(g0: Progress) returns (g: Progress)
    requires g0.Valid() && g0.p == KPROBE_OBJECT && g0.now.pc == 74 && g0.now.regs.r10 == Ptr(Stack, STACK_SIZE)
    ensures g.Valid() && g == g0.(steps := g0.steps + 3, now := g.now)
    ensures g.now == g0.now.(pc := 77, regs := g0.now.regs.(r1 := Ptr(Stack, 484), r2 := Scalar(16)))
  {
    hide Progress.Valid, CountAt, IdentifyAt, CopyAt, GlobalAt;
    g := g0.FrameSlot(1, -28);
    g := g.MovImm(2, 16);
  }

  lemma NameCommand(g0: Progress) returns (g: Progress)
    requires g0.Valid() && g0.p == KPROBE_OBJECT && g0.now.pc == 74 && g0.now.regs.r10 == Ptr(Stack, STACK_SIZE)
    ensures g.Valid() && g == g0.(steps := g0.steps + 4, now := g.now)
    ensures g.now == g0.now.(pc := 78, calls := g0.now.calls + 1, regs := g.now.regs,
                             stack := Put(g0.now.stack, 484, Fit(g0.o(g0.now.calls).bytes, 16)))
    ensures g.now.regs.r6 == g0.now.regs.r6 && g.now.regs.r10 == g0.now.regs.r10
  {
    hide Progress.Valid, Put, Fit, CountAt, IdentifyAt, CopyAt, GlobalAt;
    g := NameArgs(g0);
    g := g.FillFrame(Comm, 484, 16, Fit(g0.o(g0.now.calls).bytes, 16));
  }

  lemma EmitPointers(g0: Progress) returns (g: Progress)
    requires g0.Valid() && g0.p == KPROBE_OBJECT && g0.now.pc == 78 && g0.now.regs.r10 == Ptr(Stack, STACK_SIZE)
    requires g0.now.regs.r6 == Ptr(Ctx, 0)
    ensures g.Valid() && g == g0.(steps := g0.steps + 3, now := g.now)
    ensures g.now == g0.now.(pc := 81, regs := g0.now.regs.(r1 := Ptr(Ctx, 0), r4 := Ptr(Stack, 472)))
  {
    hide Progress.Valid, CountAt, IdentifyAt, CopyAt, GlobalAt;
    g := g0.FrameSlot(4, -40);
    g := g.MovReg(1, 6);
  }

  lemma EmitArgs(g0: Progress) returns (g: Progress)
    requires g0.Valid() && g0.p == KPROBE_OBJECT && g0.now.pc == 78 && g0.now.regs.r10 == Ptr(Stack, STACK_SIZE)
    requires g0.now.regs.r6 == Ptr(Ctx, 0)
    ensures g.Valid() && g == g0.(steps := g0.steps + 4, now := g.now)
    ensures g.now == g0.now.(pc := 83, regs := g0.now.regs.(r1 := Ptr(Ctx, 0), r2 := MapPtr(OutputMap), r4 := Ptr(Stack, 472)))
  {
    hide Progress.Valid, CountAt, IdentifyAt, CopyAt, GlobalAt;
    g := EmitPointers(g0);
    g := g.SymMap(2, OutputMap);
  }

  lemma EmitSize(g0: Progress) returns (g: Progress)
    requires g0.Valid() && g0.p == KPROBE_OBJECT && g0.now.pc == 83
    ensures g.Valid() && g == g0.(steps := g0.steps + 2, now := g.now)
    ensures g.now == g0.now.(pc := 86, regs := g0.now.regs.(r3 := Scalar(0xFFFF_FFFF), r5 := Scalar(40)))
  {
    hide Progress.Valid, CountAt, IdentifyAt, CopyAt, GlobalAt;
    g := g0.Wide(3, 0xFFFF_FFFF);
    g := g.MovImm(5, 40);
  }

  lemma ReturnZero(g0: Progress) returns (g: Progress)
    requires g0.Valid() && g0.p == KPROBE_OBJECT && g0.now.pc == 87
    ensures g.Valid() && g == g0.(steps := g0.steps + 1, now := g0.now.(pc := 88, regs := g0.now.regs.(r0 := Scalar(0)))) && g.At(Exit)
  {
    hide Progress.Valid;
    g := g0.MovImm(0, 0);
  }

  lemma EmitEvent(g0: Progress, b: seq<Byte>) returns (g: Progress)
    requires g0.Valid() && g0.p == KPROBE_OBJECT && g0.now.pc == 78 && g0.now.regs.r10 == Ptr(Stack, STACK_SIZE)
    requires g0.now.regs.r6 == Ptr(Ctx, 0) && |b| == 40 && Has(g0.now.stack, 472, b)
    ensures g.Valid() && g == g0.(steps := g0.steps + 8, now := g.now) && g.At(Exit) && g.now.regs.r0 == Scalar(0)
    ensures g.now.mem == g0.now.mem && g.now.trace == g0.now.trace + [Output(OutputMap, 0xFFFF_FFFF, b)]
  {
    HasRead(g0.now.mem, g0.now.stack, 472, b);
    hide Progress.Valid, ReadBytes, Has;
    g := EmitArgs(g0);
    g := EmitSize(g);
    g := g.Emit(0xFFFF_FFFF, b);
    g := ReturnZero(g);
  }
}
