/** The helper bpf_loop with any callback, and the packet check that is driven by it. */
module BpfLoop {
  import opened Word
  import opened Isa

  /** 1 << 23. */
  const MAX_LOOPS: nat := 8_388_608

  const EINVAL: int := -22
  const E2BIG: int := -7

  /** What a callback answers: 0 to go on, 1 to stop. */
  type Answer = x: int | 0 <= x <= 1

  type Callback<!C> = (nat, C) -> (Answer, C)

  /** The context after n calls, on the indices 0 to n - 1. */
  function After<C>(f: Callback<C>, ctx: C, n: nat): C {
    if n == 0 then ctx else f(n - 1, After(f, ctx, n - 1)).1
  }

  /** The answer of the call on index i. */
  function AnswerAt<C>(f: Callback<C>, ctx: C, i: nat): Answer {
    f(i, After(f, ctx, i)).0
  }

  /** The first index below n whose call answers 1, or n. */
  function FirstStop<C>(f: Callback<C>, ctx: C, n: nat): (i: nat)
    ensures i <= n && (i < n ==> AnswerAt(f, ctx, i) == 1)
    ensures forall j: nat :: j < i ==> AnswerAt(f, ctx, j) == 0
  {
    if n == 0 then 0 else
    var i := FirstStop(f, ctx, n - 1);
    if i < n - 1 || AnswerAt(f, ctx, n - 1) == 1 then i else n
  }

  /** Runs the callback on 0, 1, 2 and so on, up to and including the first call that answers
      1, and returns the number of calls; with bad arguments it makes no call. */
  method Loop<C>(nrLoops: U32, callback: Callback<C>, ctx: C, flags: U64) returns (ret: int, after: C)
    ensures flags != 0 ==> ret == -22 && after == ctx
    ensures flags == 0 && nrLoops > 8_388_608 ==> ret == -7 && after == ctx
    ensures flags == 0 && nrLoops <= 8_388_608 ==>
              var stop := FirstStop(callback, ctx, nrLoops);
              ret == (if stop < nrLoops then stop + 1 else nrLoops) && after == After(callback, ctx, ret)
  {
    after := ctx;
    if flags != 0 { return EINVAL, ctx; }
    if nrLoops > MAX_LOOPS { return E2BIG, ctx; }
    for i := 0 to nrLoops
      invariant after == After(callback, ctx, i)
      invariant forall j: nat :: j < i ==> AnswerAt(callback, ctx, j) == 0
    {
      var answer := callback(i, after);
      after := answer.1;
      if answer.0 == 1 {
        assert AnswerAt(callback, ctx, i) == 1;
        return i + 1, after;
      }
    }
    ret := nrLoops;
  }

  // ---- do_check ----

  /** Whether the packet has a byte 100, and it is 123. */
  predicate Marked(packet: seq<Byte>) {
    |packet| > 100 && packet[100] == 123
  }

  function Checked(index: nat, packet: seq<Byte>): Answer {
    if 0 < index <= 100 && Marked(packet) then 1 else 0
  }

  /** Whether the callback reads a byte of the packet at all. */
  predicate Looks(index: nat, packet: seq<Byte>) {
    0 < index <= 100 && |packet| > 100
  }

  /** The body of do_check, positions counted from the start of the packet: the byte is read
      only where the packet has one. */
  method DoCheck(index: nat, packet: seq<Byte>) returns (r: Answer, looked: bool)
    ensures r == 1 <==> 1 <= index <= 100 && |packet| > 100 && packet[100] == 123
    ensures looked <==> 1 <= index <= 100 && |packet| > 100
    ensures r == Checked(index, packet) && looked == Looks(index, packet)
  {
    looked := false;
    var data, dataEnd := 0, |packet|;
    if index > 0 && index <= 100 {
      var thisByte := data + index;
      thisByte := data + 100;
      if thisByte >= data && thisByte < dataEnd {
        looked := true;
        if packet[thisByte] == 123 { return 1, looked; }
      }
    }
    return 0, looked;
  }

  /** do_check leaves its context, the packet, as it is. */
  const CHECK: Callback<seq<Byte>> := (i, packet) => (Checked(i, packet), packet)

  lemma {:induction false} PacketStays(packet: seq<Byte>, n: nat)
    ensures After(CHECK, packet, n) == packet
  {
    if n > 0 { PacketStays(packet, n - 1); }
  }

  lemma CheckStops(packet: seq<Byte>, n: nat)
    ensures FirstStop(CHECK, packet, n) == if n >= 2 && |packet| > 100 && packet[100] == 123 then 1 else n
  {
    PacketStays(packet, 0);
    PacketStays(packet, 1);
    if n >= 2 && Marked(packet) {
      forall j: nat | j < 1 ensures AnswerAt(CHECK, packet, j) == 0 { }
    } else {
      forall j: nat | j < n ensures AnswerAt(CHECK, packet, j) == 0 { PacketStays(packet, j); }
    }
  }

  /** The result is 2 if n is at least 2 and byte 100 of the packet is 123, and n otherwise; an
      n above the helper's limit is an error. */
  method LoopCheck(n: U32, packet: seq<Byte>) returns (ret: int)
    ensures ret == if n > 8_388_608 then -7 else if n >= 2 && |packet| > 100 && packet[100] == 123 then 2 else n
  {
    CheckStops(packet, n);
    var after;
    ret, after := Loop(n, CHECK, packet, 0);
  }

  // ---- The callback with its looks at the packet counted ----

  datatype Context = Context(packet: seq<Byte>, looks: nat)

  const COUNTING: Callback<Context> :=
    (i: nat, ctx: Context) => (Checked(i, ctx.packet), ctx.(looks := ctx.looks + if Looks(i, ctx.packet) then 1 else 0))

  lemma {:induction false} LooksCounted(packet: seq<Byte>, n: nat)
    ensures After(COUNTING, Context(packet, 0), n) == Context(packet, if |packet| <= 100 || n == 0 then 0 else if n <= 100 then n - 1 else 100)
  {
    if n > 0 { LooksCounted(packet, n - 1); }
  }

  /** xdp_parser_func asks for one loop, which is index 0: no byte is ever looked at. */
  method XdpParserFunc(packet: seq<Byte>) returns (verdict: int, calls: int, looks: nat)
    ensures verdict == 2 && calls == 1 && looks == 0
  {
    var ctx;
    LooksCounted(packet, 1);
    calls, ctx := Loop(1, COUNTING, Context(packet, 0), 0);
    looks := ctx.looks;
    verdict := XDP_PASS;
  }
}
