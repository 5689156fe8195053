/** The object code of kprobe_exec does what the C function does. */
module KprobeProof {
  import opened Word
  import opened Isa
  import opened Machine
  import opened Stepping
  import opened Frames
  import opened Tables
  import opened Behaviours
  import opened KprobeListing
  import opened KprobeRun
  import C = KprobeC

  // ---- C values as bytes ----

  function IntBytes(x: CInt): seq<Byte> {
    Bytes(x % 0x1_0000_0000, 4)
  }

  /** struct data_t in memory: 40 bytes. */
  function Layout(d: C.DataT): seq<Byte> {
    IntBytes(d.pid) + IntBytes(d.uid) + IntBytes(d.counter) + d.command + d.message
  }

  ghost function StoredConfig(config: map<U64, seq<Byte>>): Table
    requires forall u :: u in config ==> u < TWO32
  {
    ConfigFits(config);
    Spelled(config, 4)
  }

  lemma ConfigFits(config: map<U64, seq<Byte>>)
    requires forall u :: u in config ==> u < TWO32
    ensures KeysFit(config, 4)
  {
    Pow2Values();
  }

  /** Memory as the loader lays it out for the globals g. */
  ghost predicate Represents(mem: Memory, g: C.Globals) {
    && C.GlobalsOk(g)
    && mem.data == IntBytes(g.c) + g.message
    && mem.config == StoredConfig(g.config)
    && RodataOk(mem.rodata)
  }

  function Shown(e: C.CEvent): Event {
    match e
    case Looked(uid) => LookedUp(MyConfig, Bytes(uid, 4))
    case PrintInt(v) => Printed(FORMAT_D, [Wrap(v)])
    case PrintChar(v) => Printed(FORMAT_C, [Wrap(v)])
    case Emitted(d) => Output(OutputMap, 0xFFFF_FFFF, Layout(d))
  }

  function ShownAll(es: seq<C.CEvent>): (r: seq<Event>)
    ensures |r| == |es|
  {
    seq(|es|, i requires 0 <= i < |es| => Shown(es[i]))
  }

  lemma ShownAppend(a: seq<C.CEvent>, b: seq<C.CEvent>)
    ensures ShownAll(a + b) == ShownAll(a) + ShownAll(b)
  {
    hide Shown;
  }

  lemma LowBytes(x: nat, n: nat)
    ensures Bytes(x, n) == Bytes(x % Pow2(8 * n), n)
  {
    var p := Pow2(8 * n);
    BytesRoundTrip(x, n);
    FromBytesOfBytes(x % p, n);
    FromBytesRoundTrip(Bytes(x, n));
  }

  /** A store of 32 bits keeps what a conversion to int keeps. */
  /** Conversion to int keeps the low 32 bits, and looks at nothing else. */
  lemma IntIsLow(x: int)
    ensures C.ToInt(x) % 0x1_0000_0000 == x % 0x1_0000_0000 && C.ToInt(x % 0x1_0000_0000) == C.ToInt(x)
  {
    var low := x % 0x1_0000_0000;
    if low >= 0x8000_0000 { DivModUnique(low - 0x1_0000_0000, 0x1_0000_0000, -1, low); }
  }

  lemma Modulus()
    ensures Pow2(8 * 4) == 0x1_0000_0000
  {
    Pow2Values();
  }

  lemma StoredInt(x: nat)
    ensures Bytes(x, 4) == IntBytes(C.ToInt(x)) == Bytes(x % 0x1_0000_0000, 4)
  {
    hide Bytes, Pow2, C.ToInt;
    IntIsLow(x);
    Modulus();
    LowBytes(x, 4);
  }

  /** Adding to the low half first makes no difference. */
  lemma NextInt(c: CInt)
    ensures C.ToInt(c % 0x1_0000_0000 + 1) == C.ToInt(c + 1)
  {
    var low := c % 0x1_0000_0000;
    var q := if c < 0 then -1 else 0;
    DivModUnique(c, 0x1_0000_0000, q, c - 0x1_0000_0000 * q);
    assert low == if c < 0 then c + 0x1_0000_0000 else c;
    IntIsLow(c + 1);
    IntIsLow(low + 1);
    if c == -1 { assert low + 1 == 0x1_0000_0000; }
  }

  lemma NextData(g: C.Globals, data: seq<Byte>)
    requires C.GlobalsOk(g) && data == IntBytes(g.c) + g.message
    ensures Splice(data, 0, Bytes(g.c % 0x1_0000_0000 + 1, 4)) == IntBytes(C.NextC(g)) + g.message
    ensures data[..4] == IntBytes(g.c)
  {
    var x := g.c % 0x1_0000_0000 + 1;
    hide Bytes, C.ToInt;
    NextInt(g.c);
    StoredInt(x);
  }

  // ---- The stages of the run ----

  /** The fields of the buffer that are known so far. */
  predicate Fields(stack: Frame, pid: seq<Byte>, uid: seq<Byte>, counter: seq<Byte>, message: seq<Byte>) {
    |pid| == |uid| == |counter| == 4 && Has(stack, 472, pid) && Has(stack, 476, uid) && Has(stack, 480, counter) && Has(stack, 500, message)
  }

  lemma Counted(g: C.Globals, mem: Memory, o: Oracle) returns (p: Progress)
    requires Represents(mem, g)
    ensures p.Valid() && p == Progress(KPROBE_OBJECT, o, Entry(mem), 6, p.now)
    ensures p.now == State(7, p.now.regs, p.now.stack, mem.(data := IntBytes(C.NextC(g)) + g.message), [], 0)
    ensures p.now.regs.r2 == Scalar(g.c % 0x1_0000_0000) && p.now.regs.r6 == Ptr(Ctx, 0) && p.now.regs.r10 == Ptr(Stack, STACK_SIZE)
  {
    NextData(g, mem.data);
    hide Progress.Valid, Entry, Bytes, Splice, StoredConfig;
    p := Begin(KPROBE_OBJECT, o, mem);
    p := ReadCounter(p, g.c % 0x1_0000_0000);
    p := StoreCounter(p, g.c % 0x1_0000_0000, IntBytes(C.NextC(g)) + g.message);
  }

  lemma Cleared(p0: Progress, c: U32) returns (p: Progress)
    requires p0.Valid() && p0.p == KPROBE_OBJECT && p0.now.pc == 7 && p0.now.regs.r10 == Ptr(Stack, STACK_SIZE)
    requires p0.now.regs.r2 == Scalar(c)
    ensures p.Valid() && p == p0.(steps := p0.steps + 9, now := p.now)
    ensures p.now == p0.now.(pc := 16, regs := p0.now.regs.(r1 := Scalar(0)), stack := p.now.stack)
    ensures Has(p.now.stack, 480, Bytes(c, 4)) && Has(p.now.stack, 484, C.Zeros(28))
  {
    hide Progress.Valid, Put, Has, Bytes;
    p := ClearLow(p0);
    p := ClearHigh(p, c);
    var r := ClearedFrame(p0.now.stack, c);
  }

  /** Slots 16 to 22, with the key of the lookup left at r10 - 48. */
  lemma Identified(p0: Progress, counter: seq<Byte>) returns (p: Progress)
    requires p0.Valid() && p0.p == KPROBE_OBJECT && p0.now.pc == 16 && p0.now.regs.r10 == Ptr(Stack, STACK_SIZE)
    requires |counter| == 4 && Has(p0.now.stack, 480, counter) && Has(p0.now.stack, 484, C.Zeros(28)) && p0.now.calls == 0
    ensures p.Valid() && p == p0.(steps := p0.steps + 7, now := p.now)
    ensures p.now == p0.now.(pc := 23, regs := p.now.regs, stack := p.now.stack, calls := 2)
    ensures p.now.regs.r6 == p0.now.regs.r6 && p.now.regs.r10 == Ptr(Stack, STACK_SIZE)
    ensures Fields(p.now.stack, Bytes(p0.o(0).value, 4), Bytes(p0.o(1).value, 4), counter, C.Zeros(12))
    ensures Has(p.now.stack, 464, Bytes(p0.o(1).value % 0x1_0000_0000, 4))
  {
    var pid, x := Bytes(p0.o(0).value, 4), p0.o(1).value;
    var uid, key := Bytes(x, 4), Bytes(x % 0x1_0000_0000, 8);
    hide Progress.Valid, Put, Has, Bytes;
    p := RecordPid(p0);
    p := RecordUid(p, x);
    FrameAfter(p0.now.stack, pid, uid, key, counter);
    KeyPrefix(x % 0x1_0000_0000);
    HasPart(p.now.stack, 464, key, 0, 4);
  }

  lemma KeyPrefix(x: U32)
    ensures Bytes(x, 8)[0..4] == Bytes(x, 4)
  {
    assert Bytes(x, 8)[0..4] == Bytes(x, 4) by {
      var a, b, c, d := x / 256, x / 256 / 256, x / 256 / 256 / 256, x / 256 / 256 / 256 / 256;
      assert Bytes(x, 8) == [x % 256] + Bytes(a, 7);
      assert Bytes(a, 7) == [a % 256] + Bytes(b, 6);
      assert Bytes(b, 6) == [b % 256] + Bytes(c, 5);
      assert Bytes(c, 5) == [c % 256] + Bytes(d, 4);
      assert Bytes(x, 4) == [x % 256] + Bytes(a, 3);
      assert Bytes(a, 3) == [a % 256] + Bytes(b, 2);
      assert Bytes(b, 2) == [b % 256] + Bytes(c, 1);
      assert Bytes(c, 1) == [c % 256] + Bytes(d, 0);
    }
  }

  lemma FrameAfter(s0: Frame, pid: seq<Byte>, uid: seq<Byte>, key: seq<Byte>, counter: seq<Byte>)
    requires |pid| == |uid| == |counter| == 4 && |key| == 8
    requires Has(s0, 480, counter) && Has(s0, 484, C.Zeros(28))
    ensures var s := Put(Put(Put(s0, 472, pid), 476, uid), 464, key);
            Fields(s, pid, uid, counter, C.Zeros(12)) && Has(s, 464, key)
  {
    hide Put;
    var s1, s2 := Put(s0, 472, pid), Put(Put(s0, 472, pid), 476, uid);
    HasPart(s0, 484, C.Zeros(28), 16, 12);
    assert C.Zeros(28)[16..28] == C.Zeros(12);
    HasPut(s0, 472, pid);
    HasKept(s0, 480, counter, 472, pid);
    HasKept(s0, 500, C.Zeros(12), 472, pid);
    HasPut(s1, 476, uid);
    HasKept(s1, 472, pid, 476, uid);
    HasKept(s1, 480, counter, 476, uid);
    HasKept(s1, 500, C.Zeros(12), 476, uid);
    HasPut(s2, 464, key);
    HasKept(s2, 472, pid, 464, key);
    HasKept(s2, 476, uid, 464, key);
    HasKept(s2, 480, counter, 464, key);
    HasKept(s2, 500, C.Zeros(12), 464, key);
  }

  lemma KeyIsLow(o: Oracle)
    ensures C.KeyOf(o) == o(1).value % 0x1_0000_0000
  {
    hide Bits64;
    MaskLow(o(1).value);
  }

  lemma ConfigAt(g: C.Globals, u: U32)
    requires C.GlobalsOk(g)
    ensures Bytes(u, 4) in StoredConfig(g.config) <==> u in g.config
    ensures u in g.config ==> StoredConfig(g.config)[Bytes(u, 4)] == g.config[u]
  {
    Pow2Values();
    ConfigFits(g.config);
    SpelledAt(g.config, 4, u);
  }

  /** Slots 28 to 46 when the user has a message. */
  lemma CopyFromConfig(p0: Progress, key: seq<Byte>, m: seq<Byte>) returns (p: Progress)
    requires p0.Valid() && p0.p == KPROBE_OBJECT && p0.now.pc == 28 && p0.now.regs.r0 == Ptr(Elem(MyConfig, key), ELEM_HEADER)
    requires key in p0.now.mem.config && p0.now.mem.config[key] == m && |m| == 12
    requires p0.now.regs.r10 == Ptr(Stack, STACK_SIZE) && RodataOk(p0.now.mem.rodata)
    ensures p.Valid() && p == p0.(steps := p0.steps + 14, now := p.now)
    ensures p.now == p0.now.(pc := 48, regs := p.now.regs, calls := p0.now.calls + 2,
                             trace := p0.now.trace + [Printed(FORMAT_D, [SignExtendByte(m[0])])],
                             stack := Put(p0.now.stack, 500, C.Probed(m, p0.o(p0.now.calls + 1))))
    ensures p.now.regs.r6 == p0.now.regs.r6 && p.now.regs.r10 == p0.now.regs.r10
  {
    hide Progress.Valid, Put, SignExtendByte, Fit;
    p := GreetLoad(p0, key, m);
    p := GreetPrint(p, m[0]);
    p := CopyOwn(p);
    assert ReadVia(p.now, p.now.regs.r3, 12) == Some(m) by { assert m[0..12] == m; }
    p := CopyMessage(p, m);
  }

  lemma CopyFromGlobal(p0: Progress, m: seq<Byte>) returns (p: Progress)
    requires p0.Valid() && p0.p == KPROBE_OBJECT && p0.now.pc == 28 && p0.now.regs.r0 == Scalar(0)
    requires p0.now.regs.r10 == Ptr(Stack, STACK_SIZE) && |p0.now.mem.data| == 16 && m == p0.now.mem.data[4..16]
    ensures p.Valid() && p == p0.(steps := p0.steps + 7, now := p.now)
    ensures p.now == p0.now.(pc := 48, regs := p.now.regs, calls := p0.now.calls + 1,
                             stack := Put(p0.now.stack, 500, C.Probed(m, p0.o(p0.now.calls))))
    ensures p.now.regs.r6 == p0.now.regs.r6 && p.now.regs.r10 == p0.now.regs.r10
  {
    hide Progress.Valid, Put, Fit;
    p := CopyGlobal(p0);
    p := CopyMessage(p, m);
  }

  /** The memory during the run of kprobe_exec, after c has been incremented. */
  ghost predicate During(mem: Memory, g: C.Globals) {
    && C.GlobalsOk(g)
    && mem.data == IntBytes(C.NextC(g)) + g.message
    && mem.config == StoredConfig(g.config)
    && RodataOk(mem.rodata)
  }

  /** Slots 28 to 47. */
  lemma WhatIsCopied(g: C.Globals, o: Oracle)
    requires C.GlobalsOk(g)
    ensures C.Found(g, o) <==> C.KeyOf(o) in g.config
    ensures C.Calls(g, o) == if C.Found(g, o) then 4 else 3
    ensures C.MessageOf(g, o) == C.Probed(if C.Found(g, o) then g.config[C.KeyOf(o)] else g.message, o(C.Calls(g, o)))
  {
    hide C.KeyOf, C.Probed;
  }

  lemma CopiedFrom(g: C.Globals, p0: Progress) returns (p: Progress)
    requires p0.Valid() && p0.p == KPROBE_OBJECT && p0.now.pc == 28 && During(p0.now.mem, g)
    requires p0.now.regs.r10 == Ptr(Stack, STACK_SIZE) && p0.now.calls == 3
    requires p0.now.regs.r0 == if C.Found(g, p0.o) then Ptr(Elem(MyConfig, Bytes(C.KeyOf(p0.o), 4)), ELEM_HEADER) else Scalar(0)
    ensures p.Valid() && p == p0.(steps := p.steps, now := p.now) && p.steps <= p0.steps + 14
    ensures p.now == p0.now.(pc := 48, regs := p.now.regs, calls := C.Calls(g, p0.o) + 1,
                             stack := Put(p0.now.stack, 500, C.MessageOf(g, p0.o)), trace := p.now.trace)
    ensures p.now.trace == p0.now.trace + if C.Found(g, p0.o) then [Printed(FORMAT_D, [SignExtendByte(g.config[C.KeyOf(p0.o)][0])])] else []
    ensures p.now.regs.r6 == p0.now.regs.r6 && p.now.regs.r10 == p0.now.regs.r10
  {
    hide Progress.Valid, Put, StoredConfig, C.KeyOf, C.Found, C.Calls, C.MessageOf, C.Probed, Bytes, C.NextC, SignExtendByte;
    var u := C.KeyOf(p0.o);
    ConfigAt(g, u);
    WhatIsCopied(g, p0.o);
    if u in g.config {
      p := CopyFromConfig(p0, Bytes(u, 4), g.config[u]);
    } else {
      p := CopyFromGlobal(p0, g.message);
    }
  }

  /** Slots 23 to 47. */
  lemma Copied(g: C.Globals, p0: Progress) returns (p: Progress)
    requires p0.Valid() && p0.p == KPROBE_OBJECT && p0.now.pc == 23 && During(p0.now.mem, g)
    requires p0.now.regs.r10 == Ptr(Stack, STACK_SIZE) && p0.now.calls == 2
    requires Has(p0.now.stack, 464, Bytes(C.KeyOf(p0.o), 4))
    ensures p.Valid() && p == p0.(steps := p.steps, now := p.now) && p.steps <= p0.steps + 18
    ensures p.now == p0.now.(pc := 48, regs := p.now.regs, calls := C.Calls(g, p0.o) + 1,
                             stack := Put(p0.now.stack, 500, C.MessageOf(g, p0.o)),
                             trace := p0.now.trace + ShownAll([C.Looked(C.KeyOf(p0.o))] + C.Greeting(g, p0.o)))
    ensures p.now.regs.r6 == p0.now.regs.r6 && p.now.regs.r10 == p0.now.regs.r10
  {
    hide Progress.Valid, Put, Has, StoredConfig, C.KeyOf, Bytes, C.NextC, C.Calls, C.MessageOf, ShownAll, C.Greeting, SignExtendByte;
    var u := C.KeyOf(p0.o);
    ConfigAt(g, u);
    GreetingShown(g, p0.o);
    p := LookConfig(p0, Bytes(u, 4));
    p := CopiedFrom(g, p);
  }

  lemma GreetingShown(g: C.Globals, o: Oracle)
    requires C.GlobalsOk(g)
    ensures ShownAll([C.Looked(C.KeyOf(o))] + C.Greeting(g, o))
         == [LookedUp(MyConfig, Bytes(C.KeyOf(o), 4))]
            + if C.Found(g, o) then [Printed(FORMAT_D, [SignExtendByte(g.config[C.KeyOf(o)][0])])] else []
  {
    hide C.KeyOf, Bytes;
  }

  /** Slots 52 to 73: both characters, when c is in range. */
  lemma Printed1(g: C.Globals, p0: Progress) returns (p: Progress)
    requires p0.Valid() && p0.p == KPROBE_OBJECT && p0.now.pc == 52 && During(p0.now.mem, g) && 0 <= C.NextC(g) < 12
    requires p0.now.regs.r7 == Ptr(Data, 0) && p0.now.regs.r1 == Scalar(C.NextC(g))
    ensures p.Valid() && p == p0.(steps := p0.steps + 8, now := p.now)
    ensures p.now == p0.now.(pc := 62, regs := p.now.regs, calls := p0.now.calls + 1,
                             trace := p0.now.trace + [Printed(FORMAT_C, [SignExtendByte(g.message[C.NextC(g)])])])
    ensures p.now.regs.r6 == p0.now.regs.r6 && p.now.regs.r7 == p0.now.regs.r7 && p.now.regs.r10 == p0.now.regs.r10
  {
    hide Progress.Valid, StoredConfig, Bytes, C.NextC, SignExtendByte;
    var c: nat := C.NextC(g);
    p := LoadGlobalChar(p0, c);
    p := PrintGlobalChar(p, g.message[c]);
  }

  lemma TestedAgain(p0: Progress, c: nat, b: Byte) returns (p: Progress)
    requires p0.Valid() && p0.p == KPROBE_OBJECT && p0.now.pc == 62 && c < 12 && p0.now.regs.r7 == Ptr(Data, 0)
    requires |p0.now.mem.data| >= 4 && p0.now.mem.data[..4] == Bytes(c, 4)
    requires p0.now.regs.r10 == Ptr(Stack, STACK_SIZE) && p0.now.stack[500 + c] == b
    ensures p.Valid() && p == p0.(steps := p0.steps + 6, now := p.now)
    ensures p.now == p0.now.(pc := 68, regs := p.now.regs) && p.now.regs.r3 == Scalar(b)
    ensures p.now.regs.r6 == p0.now.regs.r6 && p.now.regs.r10 == p0.now.regs.r10
  {
    hide Progress.Valid, Bytes;
    p := TestAgain(p0, c);
    p := LoadCopyChar(p, c, b);
  }

  lemma CounterDuring(mem: Memory, g: C.Globals)
    requires During(mem, g) && C.NextC(g) >= 0
    ensures C.GlobalsOk(g) && RodataOk(mem.rodata) && |mem.data| >= 4 && mem.data[..4] == Bytes(C.NextC(g), 4)
  {
    hide C.NextC, Bytes;
  }

  lemma Printed2(g: C.Globals, p0: Progress, m: seq<Byte>) returns (p: Progress)
    requires p0.Valid() && p0.p == KPROBE_OBJECT && p0.now.pc == 52 && During(p0.now.mem, g) && 0 <= C.NextC(g) < 12
    requires p0.now.regs.r10 == Ptr(Stack, STACK_SIZE) && p0.now.regs.r7 == Ptr(Data, 0)
    requires p0.now.regs.r1 == Scalar(C.NextC(g)) && |m| == 12 && Has(p0.now.stack, 500, m)
    ensures p.Valid() && p == p0.(steps := p0.steps + 19, now := p.now)
    ensures p.now == p0.now.(pc := 74, regs := p.now.regs, calls := p0.now.calls + 2,
                             trace := p0.now.trace + [Printed(FORMAT_C, [SignExtendByte(g.message[C.NextC(g)])]),
                                                      Printed(FORMAT_C, [SignExtendByte(m[C.NextC(g)])])])
    ensures p.now.regs.r6 == p0.now.regs.r6 && p.now.regs.r10 == p0.now.regs.r10
  {
    hide Progress.Valid, StoredConfig, Bytes, C.NextC, SignExtendByte, During;
    var c: nat := C.NextC(g);
    assert p0.now.stack[500 + c] == m[c];
    hide Has;
    CounterDuring(p0.now.mem, g);
    p := Printed1(g, p0);
    p := TestedAgain(p, c, m[c]);
    p := PrintCopyChar(p, m[c]);
  }

  lemma RangeTest(g: C.Globals)
    ensures C.InRange(g) <==> C.NextC(g) % 0x1_0000_0000 <= 11
    ensures C.InRange(g) ==> C.NextC(g) % 0x1_0000_0000 == C.NextC(g) && 0 <= C.NextC(g) < 12
  {
    C.IndexRange(C.NextC(g));
  }

  /** Slots 48 to 73. The unsigned 32-bit comparison with 11 decides as the C comparison
      of a converted int with a size does; the branch taken skips both characters. */
  lemma Compared(g: C.Globals, p0: Progress) returns (p: Progress)
    requires p0.Valid() && p0.p == KPROBE_OBJECT && p0.now.pc == 48 && During(p0.now.mem, g)
    requires p0.now.regs.r10 == Ptr(Stack, STACK_SIZE) && p0.now.calls == C.Calls(g, p0.o) + 1
    requires Has(p0.now.stack, 500, C.MessageOf(g, p0.o))
    ensures p.Valid() && p == p0.(steps := p.steps, now := p.now) && p.steps <= p0.steps + 22
    ensures p.now == p0.now.(pc := 74, regs := p.now.regs, calls := C.Calls(g, p0.o) + if C.InRange(g) then 3 else 1,
                             trace := p0.now.trace + ShownAll(C.Characters(g, p0.o)))
    ensures p.now.regs.r6 == p0.now.regs.r6 && p.now.regs.r10 == p0.now.regs.r10
  {
    RangeTest(g);
    hide Progress.Valid, StoredConfig, Bytes, C.NextC, Has, C.InRange, C.MessageOf, C.Calls, C.ToSize;
    p := TestCounter(p0, C.NextC(g) % 0x1_0000_0000);
    if C.InRange(g) {
      p := Printed2(g, p, C.MessageOf(g, p0.o));
    }
    assert p.now.trace == p0.now.trace + ShownAll(C.Characters(g, p0.o));
  }

  lemma BufferComplete(s0: Frame, d: C.DataT)
    requires |d.command| == 16 && |d.message| == 12
    requires Fields(s0, IntBytes(d.pid), IntBytes(d.uid), IntBytes(d.counter), d.message)
    ensures |Layout(d)| == 40 && Has(Put(s0, 484, d.command), 472, Layout(d))
  {
    var s := Put(s0, 484, d.command);
    var a, b, c := IntBytes(d.pid), IntBytes(d.uid), IntBytes(d.counter);
    hide Put, Bytes, IntBytes, Has;
    HasKept(s0, 472, a, 484, d.command);
    HasKept(s0, 476, b, 484, d.command);
    HasKept(s0, 480, c, 484, d.command);
    HasPut(s0, 484, d.command);
    HasKept(s0, 500, d.message, 484, d.command);
    HasJoined(s, 472, a, b);
    HasJoined(s, 472, a + b, c);
    HasJoined(s, 472, a + b + c, d.command);
    HasJoined(s, 472, a + b + c + d.command, d.message);
  }

  /** Slots 74 to 88. */
  lemma Sent(g: C.Globals, p0: Progress) returns (p: Progress)
    requires p0.Valid() && p0.p == KPROBE_OBJECT && p0.now.pc == 74 && C.GlobalsOk(g)
    requires p0.now.regs.r10 == Ptr(Stack, STACK_SIZE) && p0.now.regs.r6 == Ptr(Ctx, 0)
    requires p0.now.calls == C.Calls(g, p0.o) + if C.InRange(g) then 3 else 1
    requires var d := C.EventOf(g, p0.o); Fields(p0.now.stack, IntBytes(d.pid), IntBytes(d.uid), IntBytes(d.counter), d.message)
    ensures p.Valid() && p == p0.(steps := p0.steps + 12, now := p.now) && p.At(Exit) && p.now.regs.r0 == Scalar(0)
    ensures p.now.mem == p0.now.mem && p.now.trace == p0.now.trace + [Shown(C.Emitted(C.EventOf(g, p0.o)))]
  {
    var d := C.EventOf(g, p0.o);
    assert d.command == Fit(p0.o(p0.now.calls).bytes, 16);
    BufferComplete(p0.now.stack, d);
    hide Progress.Valid, Put, Fit, Fields, Has, Layout, C.EventOf;
    p := NameCommand(p0);
    p := EmitEvent(p, Layout(d));
  }

  /** Slots 0 to 47: everything up to the copy of a message. */
  lemma FirstHalf(g: C.Globals, mem: Memory, o: Oracle) returns (p: Progress)
    requires Represents(mem, g)
    ensures p.Valid() && p == Progress(KPROBE_OBJECT, o, Entry(mem), p.steps, p.now) && p.steps <= 40
    ensures p.now == State(48, p.now.regs, p.now.stack, mem.(data := IntBytes(C.NextC(g)) + g.message),
                           ShownAll([C.Looked(C.KeyOf(o))] + C.Greeting(g, o)), C.Calls(g, o) + 1)
    ensures p.now.regs.r6 == Ptr(Ctx, 0) && p.now.regs.r10 == Ptr(Stack, STACK_SIZE)
    ensures Fields(p.now.stack, Bytes(o(0).value, 4), Bytes(o(1).value, 4), IntBytes(g.c), C.MessageOf(g, o))
  {
    KeyIsLow(o);
    hide Progress.Valid, Entry, Bytes, StoredConfig, C.KeyOf, Put, Has, C.NextC, C.Calls, C.Greeting, C.MessageOf, Fit;
    p := Counted(g, mem, o);
    p := Cleared(p, g.c % 0x1_0000_0000);
    p := Identified(p, IntBytes(g.c));
    var s := p.now.stack;
    p := Copied(g, p);
    KeepFields(s, Bytes(o(0).value, 4), Bytes(o(1).value, 4), IntBytes(g.c), C.Zeros(12), C.MessageOf(g, o));
  }

  lemma KeepFields(s: Frame, pid: seq<Byte>, uid: seq<Byte>, counter: seq<Byte>, m0: seq<Byte>, m: seq<Byte>)
    requires Fields(s, pid, uid, counter, m0) && |m| == 12
    ensures Fields(Put(s, 500, m), pid, uid, counter, m)
  {
    HasPut(s, 500, m);
    HasKept(s, 472, pid, 500, m);
    HasKept(s, 476, uid, 500, m);
    HasKept(s, 480, counter, 500, m);
  }

  lemma EventFields(g: C.Globals, o: Oracle)
    requires C.GlobalsOk(g)
    ensures var d := C.EventOf(g, o);
            IntBytes(d.pid) == Bytes(o(0).value, 4) && IntBytes(d.uid) == Bytes(o(1).value, 4) && IntBytes(d.counter) == IntBytes(g.c)
  {
    StoredInt(o(0).value);
    StoredInt(o(1).value);
    StoredInt(o(1).value % 0x1_0000_0000);
    MaskLow(o(1).value);
    hide Bytes, Bits64, Fit;
  }

  /** The object code is correct: for all globals, tables and helper answers it returns 0
      within 89 steps, leaves the incremented c and nothing else changed, and shows what
      the C function shows, the 40 bytes of the event included. */
  lemma ObjectMeetsC(g: C.Globals, mem: Memory, o: Oracle)
    requires Represents(mem, g)
    ensures var st := Run(KPROBE_OBJECT, o, Running(Entry(mem)), 89);
            && st.Exited? && st.result == 0
            && st.end.mem == mem.(data := IntBytes(C.NextC(g)) + g.message)
            && Represents(st.end.mem, g.(c := C.NextC(g)))
            && st.end.trace == ShownAll(C.EventsOf(g, o))
  {
    hide Progress.Valid, Run, Entry, Bytes, StoredConfig, C.KeyOf, Has, C.NextC, C.Calls, C.Greeting, C.MessageOf, C.EventOf, C.InRange, C.Characters;
    var p := FirstHalf(g, mem, o);
    p := Compared(g, p);
    EventFields(g, o);
    assert C.EventOf(g, o).message == C.MessageOf(g, o) by { MessagePart(g, o); }
    p := Sent(g, p);
    p.Finish(89);
    assert p.now.trace == ShownAll(C.EventsOf(g, o));
  }

  lemma MessagePart(g: C.Globals, o: Oracle)
    requires C.GlobalsOk(g)
    ensures C.EventOf(g, o).message == C.MessageOf(g, o)
  {
  }

  lemma Behaves(g: C.Globals, mem: Memory, o: Oracle)
    requires Represents(mem, g)
    ensures BehaviourOf(KPROBE_OBJECT, o, mem)
         == Returns(0, mem.(data := IntBytes(C.NextC(g)) + g.message), ShownAll(C.EventsOf(g, o)))
  {
    hide Run, Entry, StoredConfig, C.EventsOf;
    ObjectMeetsC(g, mem, o);
    BehaviourIs(KPROBE_OBJECT, o, mem, 89);
  }

  lemma IntDecodes(b: seq<Byte>) returns (c: CInt)
    requires |b| == 4
    ensures IntBytes(c) == b
  {
    Pow2Values();
    FromBytesRoundTrip(b);
    c := C.ToInt(FromBytes(b));
    StoredInt(FromBytes(b));
  }

  /** Every memory with sections of the right size, the formats in place and well-formed
      tables represents some globals, so the theorems cover it. */
  lemma EveryMemoryRepresents(mem: Memory) returns (g: C.Globals)
    requires |mem.data| == 16 && TableOk(MyConfig, mem.config) && RodataOk(mem.rodata)
    ensures Represents(mem, g)
  {
    hide Bytes, FromBytes, Spelled, Decoded, RodataOk, IntBytes;
    var c := IntDecodes(mem.data[..4]);
    var config := Decoded(mem.config, 4);
    DecodedSpells(mem.config, 4);
    assert Pow2(8 * 4) == TWO32 by { Pow2Values(); }
    g := C.Globals(c, mem.data[4..], config);
    assert mem.data == mem.data[..4] + mem.data[4..];
  }
}
