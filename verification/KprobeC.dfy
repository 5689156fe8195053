/**
 The C program kprobe_exec: it counts its runs in the global c, greets with the
 user's configured message or the global one, and emits an event.
 */
module KprobeC {
  import opened Word
  import M = Machine

  /** Conversion to int keeps the low 32 bits. */
  function ToInt(x: int): CInt {
    var low := x % 0x1_0000_0000;
    if low < 0x8000_0000 then low else low - 0x1_0000_0000
  }

  /** char is signed. */
  function ToChar(b: Byte): int {
    if b < 128 then b else b - 256
  }

  /** The conversion of an int to the type of sizeof. */
  function ToSize(x: CInt): U64 {
    Wrap(x)
  }

  /** A negative int is a huge size, so it fails the bounds test. */
  lemma IndexRange(x: CInt)
    ensures ToSize(x) < 12 <==> 0 <= x < 12
  {
  }

  datatype DataT = DataT(pid: CInt, uid: CInt, counter: CInt, command: seq<Byte>, message: seq<Byte>)

  datatype CEvent = Looked(uid: U32) | PrintInt(value: int) | PrintChar(value: int) | Emitted(data: DataT)

  datatype Globals = Globals(c: CInt, message: seq<Byte>, config: map<U64, seq<Byte>>)

  predicate GlobalsOk(g: Globals) {
    && |g.message| == 12
    && (forall u :: u in g.config ==> u < TWO32 && |g.config[u]| == 12)
  }

  function Zeros(n: nat): (r: seq<Byte>)
    ensures |r| == n
  {
    seq(n, _ => 0)
  }

  /** What a probe of m leaves in a buffer of m's size. */
  function Probed(m: seq<Byte>, r: M.Reply): (b: seq<Byte>)
    ensures |b| == |m|
  {
    if r.refuse then Fit(r.bytes, |m|) else m
  }

  /** The key of the lookup: the map's keys are 32 bits wide, so of the 64-bit variable
      uid only the low half is read. */
  function KeyOf(o: M.Oracle): U32 {
    Bits64(BitAnd, o(1).value, 0xFFFF_FFFF) % 0x1_0000_0000
  }

  function Found(g: Globals, o: M.Oracle): bool {
    KeyOf(o) in g.config
  }

  /** The number of helper calls before the probe. */
  function Calls(g: Globals, o: M.Oracle): nat {
    if Found(g, o) then 4 else 3
  }

  function NextC(g: Globals): CInt {
    ToInt(g.c + 1)
  }

  function InRange(g: Globals): bool {
    ToSize(NextC(g)) < 12
  }

  /** data.message after the probe. */
  function MessageOf(g: Globals, o: M.Oracle): (b: seq<Byte>)
    requires GlobalsOk(g)
    ensures |b| == 12
  {
    Probed(if Found(g, o) then g.config[KeyOf(o)] else g.message, o(Calls(g, o)))
  }

  /** The emitted event. */
  function EventOf(g: Globals, o: M.Oracle): DataT
    requires GlobalsOk(g)
  {
    DataT(ToInt(o(0).value), ToInt(Bits64(BitAnd, o(1).value, 0xFFFF_FFFF)), g.c,
          Fit(o(Calls(g, o) + if InRange(g) then 3 else 1).bytes, 16), MessageOf(g, o))
  }

  function Greeting(g: Globals, o: M.Oracle): seq<CEvent>
    requires GlobalsOk(g)
  {
    if Found(g, o) then [PrintInt(ToChar(g.config[KeyOf(o)][0]))] else []
  }

  /** The two prints of the character at c, of the global message and of the copy. */
  function Characters(g: Globals, o: M.Oracle): seq<CEvent>
    requires GlobalsOk(g)
  {
    IndexRange(NextC(g));
    if InRange(g) then [PrintChar(ToChar(g.message[NextC(g)])), PrintChar(ToChar(MessageOf(g, o)[NextC(g)]))] else []
  }

  function EventsOf(g: Globals, o: M.Oracle): seq<CEvent>
    requires GlobalsOk(g)
  {
    [Looked(KeyOf(o))] + Greeting(g, o) + Characters(g, o) + [Emitted(EventOf(g, o))]
  }

  /** The value of c after a run, spelled out. */
  lemma NextIs(g: Globals)
    ensures NextC(g) == if g.c == 0x7FFF_FFFF then -0x8000_0000 else g.c + 1
    ensures InRange(g) <==> 0 <= NextC(g) < 12
  {
    IndexRange(NextC(g));
  }

  lemma KeyIs(o: M.Oracle)
    ensures KeyOf(o) == o(1).value % 0x1_0000_0000 == Bits64(BitAnd, o(1).value, 0xFFFF_FFFF)
  {
    hide Bits64;
    MaskLow(o(1).value);
  }

  lemma IntIsCongruent(x: U64)
    ensures ToInt(x) == x % 0x1_0000_0000 || ToInt(x) == x % 0x1_0000_0000 - 0x1_0000_0000
  {
  }

  /** The event, field by field. The process and the user are the low halves of the two answers;
      the command is the answer of the last helper but one, padded with zeros to 16 bytes; the
      message is the user's or else the global one, unless the probe is refused: then the kernel's
      bytes, padded with zeros. */
  lemma EventIs(g: Globals, o: M.Oracle)
    requires GlobalsOk(g)
    ensures var d, u, c := EventOf(g, o), o(1).value % 0x1_0000_0000, if g.c == 0x7FFF_FFFF then -0x8000_0000 else g.c + 1;
            var probe := if u in g.config then 4 else 3;
            var comm := probe + if 0 <= c < 12 then 3 else 1;
            && d.counter == g.c
            && (d.pid == o(0).value % 0x1_0000_0000 || d.pid == o(0).value % 0x1_0000_0000 - 0x1_0000_0000)
            && (d.uid == u || d.uid == u - 0x1_0000_0000)
            && |d.command| == 16 && |d.message| == 12
            && (forall i :: 0 <= i < 16 ==> d.command[i] == if i < |o(comm).bytes| then o(comm).bytes[i] else 0)
            && (!o(probe).refuse ==> d.message == if u in g.config then g.config[u] else g.message)
            && (o(probe).refuse ==> forall i :: 0 <= i < 12 ==> d.message[i] == if i < |o(probe).bytes| then o(probe).bytes[i] else 0)
  {
    KeyIs(o);
    NextIs(g);
    IntIsCongruent(o(0).value);
    IntIsCongruent(o(1).value % 0x1_0000_0000);
    hide Bits64, ToInt, KeyOf, NextC, InRange;
  }

  /** All that a run shows, in order. */
  lemma EventsAre(g: Globals, o: M.Oracle)
    requires GlobalsOk(g)
    ensures var d, u, c := EventOf(g, o), o(1).value % 0x1_0000_0000, if g.c == 0x7FFF_FFFF then -0x8000_0000 else g.c + 1;
            EventsOf(g, o) == [Looked(u)] + (if u in g.config then [PrintInt(ToChar(g.config[u][0]))] else [])
                              + (if 0 <= c < 12 then [PrintChar(ToChar(g.message[c])), PrintChar(ToChar(d.message[c]))] else [])
                              + [Emitted(d)]
  {
    KeyIs(o);
    NextIs(g);
    hide Bits64, ToInt, KeyOf, NextC, InRange, MessageOf;
  }

  class KprobeProgram {
    var c: CInt
    var message: seq<Byte>
    var config: map<U64, seq<Byte>>
    var events: seq<CEvent>

    function State(): Globals reads this {
      Globals(c, message, config)
    }

    constructor (config: map<U64, seq<Byte>>)
      ensures c == 1 && this.config == config && events == []
      ensures message == [72, 101, 108, 108, 111, 32, 87, 111, 114, 108, 100, 0]
    {
      c := 1;
      message := [72, 101, 108, 108, 111, 32, 87, 111, 114, 108, 100, 0];
      this.config := config;
      events := [];
    }

    method KprobeExec(o: M.Oracle) returns (ret: int)
      requires GlobalsOk(State())
      modifies this
      ensures ret == 0 && State() == old(State()).(c := NextC(old(State())))
      ensures events == old(events) + EventsOf(old(State()), o)
    {
      IndexRange(ToInt(c + 1));
      hide Bits64, ToSize, Fit, Zeros, ToInt;
      var calls := 3;
      var data := DataT(0, 0, 0, Zeros(16), Zeros(12));
      data := data.(counter := c);
      c := ToInt(c + 1);
      data := data.(pid := ToInt(o(0).value));
      var uid := Bits64(BitAnd, o(1).value, 0xFFFF_FFFF);
      data := data.(uid := ToInt(uid));
      var key := uid % 0x1_0000_0000;
      events := events + [Looked(key)];
      var found := key in config;
      if found {
        events := events + [PrintInt(ToChar(config[key][0]))];
        calls := calls + 1;
      }
      if found {
        data := data.(message := Probed(config[key], o(calls)));
      } else {
        data := data.(message := Probed(message, o(calls)));
      }
      calls := calls + 1;
      if ToSize(c) < 12 {
        events := events + [PrintChar(ToChar(message[c]))];
        calls := calls + 1;
      }
      if ToSize(c) < 12 {
        events := events + [PrintChar(ToChar(data.message[c]))];
        calls := calls + 1;
      }
      data := data.(command := Fit(o(calls).bytes, 16));
      events := events + [Emitted(data)];
      ret := 0;
    }
  }
}
