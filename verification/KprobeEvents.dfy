/**
 The trace of the object code of kprobe_exec, byte by byte: what an observer of its helper calls
 sees, in terms of the memory that it started with and of the helpers' answers.
 */
module KprobeEvents {
  import opened Word
  import opened Isa
  import opened Machine
  import opened KprobeListing
  import C = KprobeC
  import P = KprobeProof
  import R = KprobeRun
  import Rules

  /** Four bytes that spell a number, lowest byte first. */
  predicate Spells(b: seq<Byte>, off: nat, x: int)
    requires off + 4 <= |b|
  {
    b[off] + 0x100 * (b[off + 1] as int) + 0x1_0000 * (b[off + 2] as int) + 0x100_0000 * (b[off + 3] as int) == x
  }

  lemma KeySpelled(u: U32)
    ensures |Bytes(u, 4)| == 4 && Spells(Bytes(u, 4), 0, u)
  {
    hide Bytes, FromBytes, Pow2;
    BytesRoundTrip(u, 4);
    P.Modulus();
    DivModUnique(u, 0x1_0000_0000, 0, u);
    Rules.LittleEndian(Bytes(u, 4));
  }

  lemma IntSpelled(x: CInt)
    ensures |P.IntBytes(x)| == 4 && Spells(P.IntBytes(x), 0, if x < 0 then x + 0x1_0000_0000 else x)
  {
    hide Bytes, Spells;
    var low := if x < 0 then x + 0x1_0000_0000 else x;
    DivModUnique(x, 0x1_0000_0000, if x < 0 then -1 else 0, low);
    KeySpelled(low);
  }

  /** The event as the 40 bytes of struct data_t. */
  lemma LayoutIs(d: C.DataT)
    requires |d.command| == 16 && |d.message| == 12
    ensures var b := P.Layout(d);
            && |b| == 40 && Spells(b, 0, if d.pid < 0 then d.pid + 0x1_0000_0000 else d.pid)
            && Spells(b, 4, if d.uid < 0 then d.uid + 0x1_0000_0000 else d.uid)
            && Spells(b, 8, if d.counter < 0 then d.counter + 0x1_0000_0000 else d.counter)
            && b[12..28] == d.command && b[28..40] == d.message
  {
    hide P.IntBytes;
    IntSpelled(d.pid);
    IntSpelled(d.uid);
    IntSpelled(d.counter);
  }

  /** A signed char as a 64-bit argument. */
  function Widened(b: Byte): U64 {
    if b < 128 then b else 0xFFFF_FFFF_FFFF_FF00 + b
  }

  lemma CharWidened(b: Byte)
    ensures Wrap(C.ToChar(b)) == Widened(b)
  {
  }

  lemma PrintsAre(x: Byte, y: Byte)
    ensures P.ShownAll([C.PrintInt(C.ToChar(x))]) == [Printed([37, 100, 0], [Widened(x)])]
    ensures P.ShownAll([C.PrintChar(C.ToChar(x)), C.PrintChar(C.ToChar(y))])
         == [Printed([37, 99, 0], [Widened(x)]), Printed([37, 99, 0], [Widened(y)])]
  {
    CharWidened(x);
    CharWidened(y);
    hide C.ToChar, Wrap, Widened;
  }

  /** The events of a run as the object code shows them. */
  lemma ShownIs(g: C.Globals, o: Oracle, u: U32, c: int, d: C.DataT)
    requires C.GlobalsOk(g) && d == C.EventOf(g, o) && |d.message| == 12
    requires u == o(1).value % 0x1_0000_0000 && c == if g.c == 0x7FFF_FFFF then -0x8000_0000 else g.c + 1
    ensures P.ShownAll(C.EventsOf(g, o)) ==
            [LookedUp(MyConfig, Bytes(u, 4))]
            + (if u in g.config then [Printed([37, 100, 0], [Widened(g.config[u][0])])] else [])
            + (if 0 <= c < 12 then [Printed([37, 99, 0], [Widened(g.message[c])]), Printed([37, 99, 0], [Widened(d.message[c])])] else [])
            + [Output(OutputMap, 0xFFFF_FFFF, P.Layout(d))]
  {
    hide C.EventOf, C.EventsOf, C.ToChar, Widened, Bytes, P.Layout, P.ShownAll;
    C.EventsAre(g, o);
    var look, mail := [C.Looked(u)], [C.Emitted(d)];
    var greet := if u in g.config then [C.PrintInt(C.ToChar(g.config[u][0]))] else [];
    var chars := if 0 <= c < 12 then [C.PrintChar(C.ToChar(g.message[c])), C.PrintChar(C.ToChar(d.message[c]))] else [];
    P.ShownAppend(look + greet + chars, mail);
    P.ShownAppend(look + greet, chars);
    P.ShownAppend(look, greet);
    EndsShown(u, d);
    if u in g.config { PrintsAre(g.config[u][0], g.config[u][0]); }
    if 0 <= c < 12 { PrintsAre(g.message[c], d.message[c]); }
  }

  lemma EndsShown(u: U32, d: C.DataT)
    ensures P.ShownAll([C.Looked(u)]) == [LookedUp(MyConfig, Bytes(u, 4))] && P.ShownAll([]) == []
    ensures P.ShownAll([C.Emitted(d)]) == [Output(OutputMap, 0xFFFF_FFFF, P.Layout(d))]
  {
    hide Bytes, P.Layout;
  }

  /** From all globals, tables and answers: the lookup of the user, the greeting if the user has a
      message, the two characters at the new c if it is in range, and the event. Of the 40 bytes of
      the event, the first twelve spell the low halves of the two ids and the old c; then come the
      command name as the helper answers it, and the message, or what a refused probe leaves. */
  lemma TraceIs(g: C.Globals, mem: Memory, o: Oracle) returns (key: seq<Byte>, b: seq<Byte>)
    requires P.Represents(mem, g)
    ensures var u, c := o(1).value % 0x1_0000_0000, if g.c == 0x7FFF_FFFF then -0x8000_0000 else g.c + 1;
            var st, probe := Run(KPROBE_OBJECT, o, Running(Entry(mem)), 89), if u in g.config then 4 else 3;
            var comm := probe + if 0 <= c < 12 then 3 else 1;
            && |key| == 4 && Spells(key, 0, u) && C.GlobalsOk(g) && |b| == 40
            && st.Exited? && st.result == 0
            && st.end.trace == [LookedUp(MyConfig, key)]
                               + (if u in g.config then [Printed([37, 100, 0], [Widened(g.config[u][0])])] else [])
                               + (if 0 <= c < 12 then [Printed([37, 99, 0], [Widened(g.message[c])]), Printed([37, 99, 0], [Widened(b[28 + c])])]
                                  else [])
                               + [Output(OutputMap, 0xFFFF_FFFF, b)]
            && Spells(b, 0, o(0).value % 0x1_0000_0000) && Spells(b, 4, u) && Spells(b, 8, if g.c < 0 then g.c + 0x1_0000_0000 else g.c)
            && (forall i :: 0 <= i < 16 ==> b[12 + i] == if i < |o(comm).bytes| then o(comm).bytes[i] else 0)
            && (!o(probe).refuse ==> b[28..40] == if u in g.config then g.config[u] else g.message)
            && (o(probe).refuse ==> forall i :: 0 <= i < 12 ==> b[28 + i] == if i < |o(probe).bytes| then o(probe).bytes[i] else 0)
  {
    hide Run, Entry, Bytes, C.EventOf, C.EventsOf, Widened, P.Layout, P.ShownAll, Spells, P.StoredConfig, R.RodataOk, P.IntBytes;
    var u, c := o(1).value % 0x1_0000_0000, if g.c == 0x7FFF_FFFF then -0x8000_0000 else g.c + 1;
    var d := C.EventOf(g, o);
    P.ObjectMeetsC(g, mem, o);
    C.EventIs(g, o);
    ShownIs(g, o, u, c, d);
    LayoutIs(d);
    KeySpelled(u);
    key, b := Bytes(u, 4), P.Layout(d);
    assert forall i :: 0 <= i < 16 ==> b[12..28][i] == b[12 + i];
    assert forall i :: 0 <= i < 12 ==> b[28..40][i] == b[28 + i];
  }
}
