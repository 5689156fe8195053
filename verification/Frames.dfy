/** Reading back what was stored in a frame. */
module Frames {
  import opened Word
  import opened Isa
  import opened Machine
  import Tables

  lemma ReadPut(mem: Memory, stack: Frame, off: nat, t: seq<Byte>)
    requires off + |t| <= STACK_SIZE
    ensures ReadBytes(mem, Put(stack, off, t), Stack, off, |t|) == Some(t)
  {
    var f := Put(stack, off, t);
    assert Stored(f, off, |t|) == t;
  }

  lemma ReadPutOther(mem: Memory, stack: Frame, off: nat, t: seq<Byte>, at: int, n: nat)
    requires off + |t| <= STACK_SIZE && (at + n <= off || off + |t| <= at)
    ensures ReadBytes(mem, Put(stack, off, t), Stack, at, n) == ReadBytes(mem, stack, Stack, at, n)
  {
    var f := Put(stack, off, t);
    if 0 <= at && at + n <= STACK_SIZE {
      assert forall i :: at <= i < at + n ==> f[i] == stack[i];
      if forall i :: at <= i < at + n ==> stack[i] >= 0 { assert Stored(f, at, n) == Stored(stack, at, n); }
    }
  }

  lemma WordOfBytes(x: nat, n: nat)
    requires n in {1, 2, 4, 8} && x < Pow2(8 * n)
    ensures Word64(Bytes(x, n)) == x
  {
    Tables.FromBytesOfBytes(x, n);
  }

  /** Loading a whole eight-byte map value. */
  lemma LoadElem(s: State, m: MapId, key: seq<Byte>, x: U64)
    requires key in TableOf(s.mem, m) && TableOf(s.mem, m)[key] == Bytes(x, 8)
    ensures LoadValue(s, DW, Ptr(Elem(m, key), ELEM_HEADER), 0) == Some(Scalar(x))
  {
    assert Word64(Bytes(x, 8)) == x by {
      Pow2Values();
      WordOfBytes(x, 8);
    }
    hide Bytes, Word64, TableOf;
    assert Bytes(x, 8)[0..8] == Bytes(x, 8);
  }

  // ---- Known contents of a frame ----

  predicate Has(stack: Frame, off: nat, b: seq<Byte>) {
    off + |b| <= STACK_SIZE && forall i :: 0 <= i < |b| ==> stack[off + i] == b[i]
  }

  lemma HasRead(mem: Memory, stack: Frame, off: nat, b: seq<Byte>)
    requires Has(stack, off, b)
    ensures ReadBytes(mem, stack, Stack, off, |b|) == Some(b)
  {
    assert forall i :: off <= i < off + |b| ==> stack[i] == b[i - off];
    assert Stored(stack, off, |b|) == b;
  }

  lemma HasPut(stack: Frame, off: nat, b: seq<Byte>)
    requires off + |b| <= STACK_SIZE
    ensures Has(Put(stack, off, b), off, b)
  {
  }

  lemma HasKept(stack: Frame, off: nat, b: seq<Byte>, at: nat, t: seq<Byte>)
    requires Has(stack, off, b) && at + |t| <= STACK_SIZE && (off + |b| <= at || at + |t| <= off)
    ensures Has(Put(stack, at, t), off, b)
  {
  }

  lemma HasJoined(stack: Frame, off: nat, a: seq<Byte>, b: seq<Byte>)
    requires Has(stack, off, a) && Has(stack, off + |a|, b)
    ensures Has(stack, off, a + b)
  {
    forall i | 0 <= i < |a + b| ensures stack[off + i] == (a + b)[i] {
      if i >= |a| { assert stack[off + |a| + (i - |a|)] == b[i - |a|]; }
    }
  }

  lemma HasPart(stack: Frame, off: nat, b: seq<Byte>, i: nat, n: nat)
    requires Has(stack, off, b) && i + n <= |b|
    ensures Has(stack, off + i, b[i..i + n])
  {
    var p := b[i..i + n];
    forall j | 0 <= j < |p| ensures stack[off + i + j] == p[j] { assert stack[off + (i + j)] == b[i + j]; }
  }
}
