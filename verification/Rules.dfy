/**
 The rules of the machine, spelled out one by one: when an instruction or a helper call is an
 error, and otherwise every part of the state that it leaves.
 */
module Rules {
  import opened Word
  import opened Isa
  import opened Machine
  import C = Counter

  // ---- Entry, exit, and what no instruction may do ----

  /** On entry r1 is the context and r10 the end of the frame, and nothing else is set. */
  lemma EntryRule(mem: Memory)
    ensures var s := Entry(mem);
            && s.pc == 0 && s.mem == mem && s.trace == [] && s.calls == 0
            && s.regs.r1 == Ptr(Ctx, 0) && s.regs.r10 == Ptr(Stack, 512)
            && (forall r: RegId :: r != 1 && r != 10 ==> s.regs.Get(r) == Uninit)
            && (forall off: int, n: nat :: n > 0 ==> ReadBytes(mem, s.stack, Stack, off, n).None?)
  {
    var s := Entry(mem);
    forall off: int, n: nat | n > 0 ensures ReadBytes(mem, s.stack, Stack, off, n).None? {
      if 0 <= off && off + n <= 512 { assert s.stack[off] == -1; }
    }
  }

  /** Execution must not leave the program, the frame pointer is never written, and an exit
      needs a number in r0. */
  lemma FenceRule(p: Program, o: Oracle, s: State, r: Reply)
    ensures s.pc < 0 || s.pc >= |p| ==> Step(p, o, s) == Error
    ensures forall op, src :: Execute(Alu(op, 10, src), s, r) == Error
    ensures forall size, base, off :: Execute(Load(size, 10, base, off), s, r) == Error
    ensures forall imm :: Execute(LoadImm(10, imm), s, r) == Error
    ensures forall sym, addend :: Execute(LoadSym(10, sym, addend), s, r) == Error
    ensures Execute(Second, s, r) == Error
    ensures Execute(Exit, s, r) == if s.regs.r0.Scalar? then Exited(s.regs.r0.n, s) else Error
  {
    hide AluResult, LoadValue, Resolve;
  }

  /** Every helper call loses r1 to r5 and keeps r6 to r10. */
  lemma CallRule(h: Helper, s: State, r: Reply)
    ensures !CallHelper(h, s, r).Exited?
    ensures CallHelper(h, s, r).Running? ==>
              var t := CallHelper(h, s, r).s;
              && t.pc == s.pc + 1 && t.calls == s.calls + 1 && |t.trace| >= |s.trace|
              && t.regs == Regs(t.regs.r0, Uninit, Uninit, Uninit, Uninit, Uninit,
                                s.regs.r6, s.regs.r7, s.regs.r8, s.regs.r9, s.regs.r10)
  {
    hide ReadBytes, WriteBytes, Conversions, Accepts, WithTable, TableOf, Fit, ScalarArgs;
  }

  // ---- Loads and stores ----

  /** n bytes can be read where all of them lie inside their region; a frame also needs all
      of them to have been stored before. */
  lemma ReadRule(s: State, a: int, n: nat)
    requires n > 0
    ensures var b := ReadBytes(s.mem, s.stack, Stack, a, n);
            && (b.Some? <==> 0 <= a && a + n <= 512 && forall i :: a <= i < a + n ==> s.stack[i] != -1)
            && (b.Some? ==> forall i :: 0 <= i < n ==> b.value[i] == s.stack[a + i])
    ensures ReadBytes(s.mem, s.stack, Data, a, n) == if 0 <= a && a + n <= |s.mem.data| then Some(s.mem.data[a..a + n]) else None
    ensures ReadBytes(s.mem, s.stack, Rodata, a, n) == if 0 <= a && a + n <= |s.mem.rodata| then Some(s.mem.rodata[a..a + n]) else None
    ensures ReadBytes(s.mem, s.stack, Packet, a, n) == if 0 <= a && a + n <= |s.mem.packet| then Some(s.mem.packet[a..a + n]) else None
    ensures ReadBytes(s.mem, s.stack, Ctx, a, n) == None
    ensures forall key :: ReadBytes(s.mem, s.stack, Elem(OutputMap, key), a, n) == None
    ensures forall key :: ReadBytes(s.mem, s.stack, Elem(CounterTable, key), a, n) ==
                          if key in s.mem.counters && 56 <= a && a - 56 + n <= |s.mem.counters[key]|
                          then Some(s.mem.counters[key][a - 56..a - 56 + n]) else None
    ensures forall key :: ReadBytes(s.mem, s.stack, Elem(MyConfig, key), a, n) ==
                          if key in s.mem.config && 56 <= a && a - 56 + n <= |s.mem.config[key]|
                          then Some(s.mem.config[key][a - 56..a - 56 + n]) else None
  {
  }

  /** Bytes can be written where all of them lie inside the frame, the data section or a map
      value, and exactly those bytes change; the context, packets and constants stay. */
  lemma WriteRule(s: State, a: int, t: seq<Byte>)
    ensures var w := WriteBytes(s.mem, s.stack, Stack, a, t);
            && (w.Some? <==> 0 <= a && a + |t| <= 512)
            && (w.Some? ==> w.value.0 == s.mem)
            && (w.Some? ==> forall i :: 0 <= i < 512 ==> w.value.1[i] == if a <= i < a + |t| then t[i - a] else s.stack[i])
    ensures WriteBytes(s.mem, s.stack, Data, a, t) ==
            if 0 <= a && a + |t| <= |s.mem.data|
            then Some((s.mem.(data := s.mem.data[..a] + t + s.mem.data[a + |t|..]), s.stack)) else None
    ensures forall region :: region in {Ctx, Packet, Rodata} ==> WriteBytes(s.mem, s.stack, region, a, t) == None
    ensures forall key :: WriteBytes(s.mem, s.stack, Elem(OutputMap, key), a, t) == None
  {
  }

  lemma WriteElemRule(s: State, key: seq<Byte>, a: int, t: seq<Byte>)
    ensures WriteBytes(s.mem, s.stack, Elem(CounterTable, key), a, t) ==
            if key in s.mem.counters && 56 <= a && a - 56 + |t| <= |s.mem.counters[key]| then
              var v := s.mem.counters[key];
              Some((s.mem.(counters := s.mem.counters[key := v[..a - 56] + t + v[a - 56 + |t|..]]), s.stack))
            else None
    ensures WriteBytes(s.mem, s.stack, Elem(MyConfig, key), a, t) ==
            if key in s.mem.config && 56 <= a && a - 56 + |t| <= |s.mem.config[key]| then
              var v := s.mem.config[key];
              Some((s.mem.(config := s.mem.config[key := v[..a - 56] + t + v[a - 56 + |t|..]]), s.stack))
            else None
  {
  }

  function Two(low: nat, high: nat): nat {
    low + 0x100 * high
  }

  /** The lowest byte comes first. */
  lemma LittleEndian(b: seq<Byte>)
    ensures |b| == 1 ==> FromBytes(b) == b[0]
    ensures |b| == 2 ==> FromBytes(b) == Two(b[0], b[1])
    ensures |b| == 4 ==> FromBytes(b) == Two(b[0], b[1]) + 0x1_0000 * Two(b[2], b[3])
    ensures |b| == 8 ==> FromBytes(b) == Two(b[0], b[1]) + 0x1_0000 * Two(b[2], b[3])
                                         + 0x1_0000_0000 * Two(b[4], b[5]) + 0x1_0000_0000_0000 * Two(b[6], b[7])
  {
    if |b| in {2, 4, 8} { TwoBytes(b); }
    if |b| in {4, 8} {
      TwoBytes(b[2..]);
      assert b[2..][2..] == b[4..];
    }
    if |b| == 8 {
      TwoBytes(b[4..]);
      TwoBytes(b[6..]);
      assert b[4..][2..] == b[6..] && b[6..][2..] == [];
    }
    if |b| == 1 { assert b[1..] == []; }
  }

  lemma TwoBytes(b: seq<Byte>)
    requires |b| >= 2
    ensures FromBytes(b) == Two(b[0], b[1]) + 0x1_0000 * FromBytes(b[2..])
    ensures FromBytes([]) == 0
  {
    assert b[1..][1..] == b[2..];
  }

  /** A load is an error unless its address is a multiple of its size and all its bytes can be
      read; then it gives the number that they spell, lowest byte first. */
  lemma LoadRule(s: State, size: Size, region: Region, b: int, off: int)
    requires region != Ctx
    ensures var v, a, n := LoadValue(s, size, Ptr(region, b), off), b + off, size.Bytes();
            && (v.Some? <==> a % n == 0 && ReadBytes(s.mem, s.stack, region, a, n).Some?)
            && (v.Some? ==> v.value == Scalar(FromBytes(ReadBytes(s.mem, s.stack, region, a, n).value)))
  {
    hide ReadBytes, FromBytes;
  }

  /** The two words of an XDP context, and nothing else, are pointers: to the start and to the
      end of the packet. */
  lemma ContextRule(s: State, size: Size, b: int, off: int)
    ensures LoadValue(s, size, Ptr(Ctx, b), off) ==
            if size != W then None else if b + off == 0 then Some(Ptr(Packet, 0))
            else if b + off == 4 then Some(Ptr(Packet, |s.mem.packet|)) else None
  {
  }

  /** A store needs a pointer, a number, an address that is a multiple of its size, and bytes
      that can be written; otherwise it is an error and nothing changes. */
  lemma StoreRule(s: State, size: Size, base: RegId, off: Off16, val: RegId, r: Reply)
    ensures var st, p, v, n := Execute(Store(size, base, off, val), s, r), s.regs.Get(base), s.regs.Get(val), size.Bytes();
            && (st.Running? <==> (p.Ptr? && v.Scalar? && (p.off + off) % n == 0
                                  && WriteBytes(s.mem, s.stack, p.region, p.off + off, Bytes(v.n, n)).Some?))
            && (st.Running? ==>
                  var w := WriteBytes(s.mem, s.stack, p.region, p.off + off, Bytes(v.n, n)).value;
                  st.s == s.(pc := s.pc + 1, mem := w.0, stack := w.1))
            && (!st.Running? ==> st == Error)
  {
    hide WriteBytes, Bytes;
  }

  /** In particular a store at an address that is no multiple of its size is an error. */
  lemma UnalignedStore(s: State, size: Size, base: RegId, off: Off16, val: RegId, r: Reply)
    requires s.regs.Get(base).Ptr? && (s.regs.Get(base).off + off) % size.Bytes() != 0
    ensures Execute(Store(size, base, off, val), s, r) == Error
  {
    StoreRule(s, size, base, off, val, r);
  }

  // ---- Helpers ----

  /** A lookup finds the value of the key that r2 points at, 56 bytes into its element, or
      null; it changes no memory. */
  lemma LookupRule(s: State, r: Reply)
    ensures var st, a := CallHelper(MapLookup, s, r), s.regs.r1;
            var key := if s.regs.r2.Ptr? then
                         ReadBytes(s.mem, s.stack, s.regs.r2.region, s.regs.r2.off, if a == MapPtr(CounterTable) then 8 else 4)
                       else None;
            && (st.Running? <==> a in {MapPtr(CounterTable), MapPtr(MyConfig)} && key.Some?)
            && (st.Running? ==>
                  && st.s.mem == s.mem && st.s.stack == s.stack && st.s.trace == s.trace + [LookedUp(a.m, key.value)]
                  && st.s.regs.r0 == if key.value in (if a.m == CounterTable then s.mem.counters else s.mem.config)
                                     then Ptr(Elem(a.m, key.value), 56) else Scalar(0))
  {
    hide ReadBytes;
  }

  /** An update returns 0 exactly if the kernel does not refuse it, the flags allow it (1 asks for
      a new key, 2 for an old one) and a new key finds room; only then the table changes. Otherwise
      the result is an error from -4095 to -1. */
  lemma UpdateRule(s: State, r: Reply)
    ensures var st, a, flags := CallHelper(MapUpdate, s, r), s.regs.r1, s.regs.r4;
            var n, m := if a == MapPtr(CounterTable) then 8 else 4, if a == MapPtr(CounterTable) then 8 else 12;
            var key := if s.regs.r2.Ptr? then ReadBytes(s.mem, s.stack, s.regs.r2.region, s.regs.r2.off, n) else None;
            var val := if s.regs.r3.Ptr? then ReadBytes(s.mem, s.stack, s.regs.r3.region, s.regs.r3.off, m) else None;
            && (st.Running? <==> a in {MapPtr(CounterTable), MapPtr(MyConfig)} && flags.Scalar? && key.Some? && val.Some?)
            && (st.Running? ==>
                  var t, room := if a.m == CounterTable then s.mem.counters else s.mem.config, if a.m == CounterTable then 5_000_000 else 10_240;
                  var ok := !r.refuse && (flags.n == 0 || (flags.n == 1 && key.value !in t) || (flags.n == 2 && key.value in t))
                            && (key.value in t || |t| < room);
                  && st.s.trace == s.trace + [Updated(a.m, key.value, val.value, flags.n)] && st.s.stack == s.stack
                  && (ok <==> st.s.regs.r0 == Scalar(0))
                  && (ok && a.m == CounterTable ==> st.s.mem == s.mem.(counters := t[key.value := val.value]))
                  && (ok && a.m == MyConfig ==> st.s.mem == s.mem.(config := t[key.value := val.value]))
                  && (!ok ==> st.s.mem == s.mem && st.s.regs.r0.Scalar? && 0x1_0000_0000_0000_0000 - 4095 <= st.s.regs.r0.n))
  {
    hide ReadBytes;
    ErrorRange(r.value);
  }

  lemma ErrorRange(x: U64)
    ensures Wrap(-1 - x % 4095) >= 0x1_0000_0000_0000_0000 - 4095
  {
  }

  /** The update of hello's table, whatever the flags: r0 is 0 exactly if the C helper returns 0,
      and the table is then the C table with the new pair. */
  lemma UpdateMeetsC(s: State, r: Reply, t: C.CTable, u: U64, n: U64, flags: U64)
    requires s.regs.r1 == MapPtr(CounterTable) && s.regs.r4 == Scalar(flags) && s.mem.counters == C.Stored(t)
    requires s.regs.r2.Ptr? && ReadBytes(s.mem, s.stack, s.regs.r2.region, s.regs.r2.off, 8) == Some(Bytes(u, 8))
    requires s.regs.r3.Ptr? && ReadBytes(s.mem, s.stack, s.regs.r3.region, s.regs.r3.off, 8) == Some(Bytes(n, 8))
    ensures var st := CallHelper(MapUpdate, s, r);
            && st.Running? && (st.s.regs.r0 == Scalar(0) <==> C.AdmitsWith(t, u, flags, r.refuse))
            && st.s.mem == s.mem.(counters := C.Stored(if C.AdmitsWith(t, u, flags, r.refuse) then t[u := n] else t))
  {
    hide ReadBytes, Bytes, C.Stored, CallHelper;
    UpdateRule(s, r);
    C.StoredAt(t, u);
    C.StoredUpdate(t, u, n);
  }

  /** The helpers for the command name and for a probe fill the buffer at r1 with as many bytes
      as r2 says: a probe copies what r3 points at, if it may; otherwise the kernel's bytes come
      first and zeros follow. */
  lemma FillRule(h: Helper, s: State, r: Reply)
    requires h.Comm? || h.ProbeRead?
    requires s.regs.r2.Scalar? && 0 < s.regs.r2.n <= 512 && (h.ProbeRead? ==> s.regs.r3 != Uninit)
    ensures var st, p, n := CallHelper(h, s, r), s.regs.r1, s.regs.r2.n;
            var src := if h.ProbeRead? && s.regs.r3.Ptr? then ReadBytes(s.mem, s.stack, s.regs.r3.region, s.regs.r3.off, n) else None;
            exists t: seq<Byte> ::
              && |t| == n
              && (src.Some? && !r.refuse ==> t == src.value)
              && (!(src.Some? && !r.refuse) ==> forall i :: 0 <= i < n ==> t[i] == if i < |r.bytes| then r.bytes[i] else 0)
              && (st.Running? <==> p.Ptr? && WriteBytes(s.mem, s.stack, p.region, p.off, t).Some?)
              && (st.Running? ==>
                    var w := WriteBytes(s.mem, s.stack, p.region, p.off, t).value;
                    st.s.mem == w.0 && st.s.stack == w.1 && st.s.trace == s.trace && st.s.regs.r0 == Scalar(r.value))
  {
    hide ReadBytes, WriteBytes;
    var n := s.regs.r2.n;
    var src := if h.ProbeRead? && s.regs.r3.Ptr? then ReadBytes(s.mem, s.stack, s.regs.r3.region, s.regs.r3.off, n) else None;
    var t := if src.Some? && !r.refuse then src.value else Fit(r.bytes, n);
    assert |t| == n;
  }

  /** A print shows the format and its arguments, from r3 on, one for each conversion. */
  lemma PrintRule(s: State, r: Reply, fmt: seq<Byte>)
    requires |fmt| <= 512 && s.regs.r2 == Scalar(|fmt|) && s.regs.r1.Ptr?
    requires ReadBytes(s.mem, s.stack, s.regs.r1.region, s.regs.r1.off, |fmt|) == Some(fmt)
    ensures var st, n, a := CallHelper(Printk, s, r), Conversions(fmt), s.regs;
            && (st.Running? <==> n <= 3 && (n >= 1 ==> a.r3.Scalar?) && (n >= 2 ==> a.r4.Scalar?) && (n == 3 ==> a.r5.Scalar?))
            && (st.Running? ==>
                  var args := if n == 0 then [] else if n == 1 then [a.r3.n] else if n == 2 then [a.r3.n, a.r4.n] else [a.r3.n, a.r4.n, a.r5.n];
                  st.s.trace == s.trace + [Printed(fmt, args)] && st.s.mem == s.mem && st.s.stack == s.stack)
  {
    hide ReadBytes, Conversions, ScalarArgs;
    if Conversions(fmt) <= 3 { ArgumentRule(s.regs, Conversions(fmt)); }
  }

  lemma ArgumentRule(a: Regs, n: nat)
    requires n <= 3
    ensures ScalarArgs(a, n).Some? <==> (n >= 1 ==> a.r3.Scalar?) && (n >= 2 ==> a.r4.Scalar?) && (n == 3 ==> a.r5.Scalar?)
    ensures ScalarArgs(a, n).Some? ==>
              ScalarArgs(a, n).value == if n == 0 then [] else if n == 1 then [a.r3.n] else if n == 2 then [a.r3.n, a.r4.n] else [a.r3.n, a.r4.n, a.r5.n]
  {
  }

  /** The conversions are the percent signs. */
  lemma {:induction false} ConversionRule(fmt: seq<Byte>)
    ensures Conversions(fmt) == multiset(fmt)[37]
  {
    if fmt != [] {
      ConversionRule(fmt[1..]);
      assert fmt == [fmt[0]] + fmt[1..];
    }
  }

  /** The event output needs the context, the perf map and a buffer that can be read, and shows
      its bytes. */
  lemma OutputRule(s: State, r: Reply)
    requires s.regs.r3.Scalar? && s.regs.r5.Scalar? && s.regs.r5.n <= 512
    ensures var st, p, n := CallHelper(PerfOutput, s, r), s.regs.r4, s.regs.r5.n;
            var b := if p.Ptr? then ReadBytes(s.mem, s.stack, p.region, p.off, n) else None;
            && (st.Running? <==> s.regs.r1 == Ptr(Ctx, 0) && s.regs.r2 == MapPtr(OutputMap) && b.Some?)
            && (st.Running? ==>
                  st.s.trace == s.trace + [Output(OutputMap, s.regs.r3.n, b.value)] && st.s.mem == s.mem && st.s.stack == s.stack)
  {
    hide ReadBytes;
  }

  /** Asking for ids changes nothing but r0; a buffer or format of more than 512 bytes, a command
      buffer of none, and a probe of a register that is not set are errors. */
  lemma LimitRule(h: Helper, s: State, r: Reply)
    ensures h.PidTgid? || h.UidGid? ==>
              var st := CallHelper(h, s, r);
              st.Running? && st.s.regs.r0 == Scalar(r.value) && st.s.mem == s.mem && st.s.stack == s.stack && st.s.trace == s.trace
    ensures (h.Comm? || h.ProbeRead? || h.Printk?) && (!s.regs.r2.Scalar? || s.regs.r2.n > 512) ==> CallHelper(h, s, r) == Error
    ensures h.Comm? && s.regs.r2 == Scalar(0) ==> CallHelper(h, s, r) == Error
    ensures h.ProbeRead? && s.regs.r3 == Uninit ==> CallHelper(h, s, r) == Error
    ensures h.PerfOutput? && (!s.regs.r3.Scalar? || !s.regs.r5.Scalar? || s.regs.r5.n > 512) ==> CallHelper(h, s, r) == Error
  {
    hide ReadBytes, WriteBytes, Fit, Conversions;
  }
}
