/**
 Hash tables as C sees them, with integer keys, against the byte strings that the
 machine stores.
 */
module Tables {
  import opened Word

  lemma FromBytesOfBytes(u: nat, n: nat)
    requires u < Pow2(8 * n)
    ensures FromBytes(Bytes(u, n)) == u
  {
    BytesRoundTrip(u, n);
    DivModUnique(u, Pow2(8 * n), 0, u);
  }

  ghost predicate KeysFit<V>(t: map<U64, V>, n: nat) {
    forall u :: u in t ==> u < Pow2(8 * n)
  }

  ghost function Keys<V>(t: map<U64, V>, n: nat): set<seq<Byte>> {
    set u | u in t :: Bytes(u, n)
  }

  lemma KeyDecodes<V>(t: map<U64, V>, n: nat, k: seq<Byte>)
    requires KeysFit(t, n)
    ensures k in Keys(t, n) <==> |k| == n && FromBytes(k) in t
  {
    if k in Keys(t, n) {
      var u :| u in t && Bytes(u, n) == k;
      FromBytesOfBytes(u, n);
    } else if |k| == n && FromBytes(k) in t {
      FromBytesRoundTrip(k);
    }
  }

  /** A table with its integer keys spelled as n bytes. */
  ghost function Spelled<V>(t: map<U64, V>, n: nat): (r: map<seq<Byte>, V>)
    requires KeysFit(t, n)
    ensures forall k {:trigger k in r} :: k in r <==> |k| == n && FromBytes(k) in t
    ensures forall k {:trigger r[k]} :: k in r ==> r[k] == t[FromBytes(k)]
  {
    assert forall k :: k in Keys(t, n) <==> |k| == n && FromBytes(k) in t by {
      forall k ensures k in Keys(t, n) <==> |k| == n && FromBytes(k) in t { KeyDecodes(t, n, k); }
    }
    map k | k in Keys(t, n) :: t[FromBytes(k)]
  }

  lemma SpelledAt<V>(t: map<U64, V>, n: nat, u: U64)
    requires KeysFit(t, n) && u < Pow2(8 * n)
    ensures Bytes(u, n) in Spelled(t, n) <==> u in t
    ensures u in t ==> Spelled(t, n)[Bytes(u, n)] == t[u]
  {
    FromBytesOfBytes(u, n);
  }

  lemma SpelledUpdate<V>(t: map<U64, V>, n: nat, u: U64, x: V)
    requires KeysFit(t, n) && u < Pow2(8 * n)
    ensures KeysFit(t[u := x], n)
    ensures Spelled(t[u := x], n) == Spelled(t, n)[Bytes(u, n) := x]
  {
    var a, b := Spelled(t[u := x], n), Spelled(t, n)[Bytes(u, n) := x];
    FromBytesOfBytes(u, n);
    hide Bytes, FromBytes, Pow2, Spelled;
    forall k: seq<Byte>
      ensures k in a <==> k in b
      ensures k in a && k in b ==> a[k] == b[k]
    {
      if |k| == n && FromBytes(k) == u { SameBytes(k, u, n); }
    }
  }

  lemma SameBytes(k: seq<Byte>, u: nat, n: nat)
    requires |k| == n && FromBytes(k) == u
    ensures k == Bytes(u, n)
  {
    FromBytesRoundTrip(k);
  }

  /** The integer keys of a table whose keys are n bytes long. */
  ghost function Decoded<V>(r: map<seq<Byte>, V>, n: nat): (t: map<U64, V>)
    requires n <= 8 && forall k :: k in r ==> |k| == n
    ensures forall u: U64 {:trigger u in t} :: u in t <==> u < Pow2(8 * n) && Bytes(u, n) in r
    ensures forall u: U64 {:trigger t[u]} :: u in t ==> t[u] == r[Bytes(u, n)]
  {
    KeyRange(r, n);
    var us: set<U64> := set k | k in r :: FromBytes(k);
    forall u: U64 ensures u in us <==> u < Pow2(8 * n) && Bytes(u, n) in r {
      if u in us {
        var k :| k in r && FromBytes(k) == u;
        FromBytesRoundTrip(k);
      } else if u < Pow2(8 * n) && Bytes(u, n) in r {
        FromBytesOfBytes(u, n);
      }
    }
    map u: U64 | u in us :: r[Bytes(u, n)]
  }

  lemma KeyRange<V>(r: map<seq<Byte>, V>, n: nat)
    requires n <= 8 && forall k :: k in r ==> |k| == n
    ensures Pow2(8 * n) <= TWO64
    ensures forall k :: k in r ==> FromBytes(k) < TWO64
  {
    Pow2Values();
    Pow2Monotone(8 * n, 64);
  }

  /** Every table with keys of n bytes is the spelling of its decoding. */
  lemma DecodedAt<V>(r: map<seq<Byte>, V>, n: nat, k: seq<Byte>)
    requires n <= 8 && forall k :: k in r ==> |k| == n
    requires KeysFit(Decoded(r, n), n)
    ensures var s := Spelled(Decoded(r, n), n); (k in s <==> k in r) && (k in r ==> s[k] == r[k])
  {
    hide Bytes, FromBytes, Pow2, Spelled, Decoded, KeysFit;
    KeyRange(r, n);
    if |k| == n { FromBytesRoundTrip(k); }
  }

  lemma DecodedSpells<V>(r: map<seq<Byte>, V>, n: nat)
    requires n <= 8 && forall k :: k in r ==> |k| == n
    ensures KeysFit(Decoded(r, n), n) && Spelled(Decoded(r, n), n) == r
  {
    hide Bytes, FromBytes, Pow2, Spelled, Decoded;
    KeyRange(r, n);
    var s := Spelled(Decoded(r, n), n);
    hide KeysFit;
    forall k
      ensures k in s <==> k in r
      ensures k in s && k in r ==> s[k] == r[k]
    {
      DecodedAt(r, n, k);
    }
  }

  lemma {:induction false} SpelledSize<V>(t: map<U64, V>, n: nat)
    requires KeysFit(t, n)
    ensures |Spelled(t, n)| == |t|
    decreases |t|
  {
    if t == map[] {
      assert Spelled(t, n) == map[];
    } else {
      var u :| u in t;
      var r := t - {u};
      assert t == r[u := t[u]];
      SpelledSize(r, n);
      SpelledUpdate(r, n, u, t[u]);
      SpelledAt(r, n, u);
    }
  }
}
