/**
 What the operations and comparisons of the machine compute, in terms of numbers and bits.
 */
module Arithmetic {
  import opened Word
  import opened Isa
  import opened Machine

  // ---- Bits ----

  /** A number without its lowest k bits. */
  function Above(x: nat, k: nat): nat {
    DivBound(x, Pow2(k));
    x / Pow2(k)
  }

  /** Bit k of a number. */
  predicate BitAt(x: nat, k: nat) {
    Above(x, k) % 2 == 1
  }

  lemma DivDiv(x: nat, a: nat, b: nat)
    requires a > 0 && b > 0
    ensures x / (a * b) == x / a / b
  {
    var q := x / a;
    assert x == a * q + x % a && q == b * (q / b) + q % b;
    assert x == (a * b) * (q / b) + (a * (q % b) + x % a);
    assert a * (q % b) <= a * (b - 1) by { MulGe(a, b - 1, q % b); }
    DivModUnique(x, a * b, q / b, a * (q % b) + x % a);
  }

  /** Bit k + m of a number is bit k of the number without its lowest m bits. */
  lemma BitAbove(x: nat, m: nat, k: nat)
    ensures BitAt(x, m + k) == BitAt(Above(x, m), k)
  {
    hide Pow2;
    Pow2Add(m, k);
    DivDiv(x, Pow2(m), Pow2(k));
  }

  lemma BitZero(x: nat)
    ensures BitAt(x, 0) <==> x % 2 == 1
  {
  }

  /** The three bitwise operations work bit by bit. */
  lemma {:induction false} BitsAt(op: BitOp, x: nat, y: nat, n: nat, k: nat)
    requires k < n
    ensures BitAt(Bits(op, x, y, n), k) <==>
            match op
            case BitAnd => BitAt(x, k) && BitAt(y, k)
            case BitOr => BitAt(x, k) || BitAt(y, k)
            case BitXor => BitAt(x, k) != BitAt(y, k)
    decreases k
  {
    var r, h := Bits(op, x, y, n), Bits(op, x / 2, y / 2, n - 1);
    assert r == 2 * h + Bit(op, x % 2, y % 2);
    hide Bits, BitAt, Pow2;
    if k == 0 {
      BitZero(r);
      BitZero(x);
      BitZero(y);
    } else {
      BitsAt(op, x / 2, y / 2, n - 1, k - 1);
      Halved(r, k);
      Halved(x, k);
      Halved(y, k);
      assert r / 2 == h;
    }
  }

  lemma Halved(x: nat, k: nat)
    requires k > 0
    ensures BitAt(x, k) == BitAt(x / 2, k - 1)
  {
    BitAbove(x, 1, k - 1);
  }

  /** A shift to the right moves every bit down. */
  lemma ShrBits(x: U64, m: nat, k: nat)
    ensures BitAt(Shr(x, m), k) <==> BitAt(x, k + m)
  {
    BitAbove(x, m, k);
    hide BitAt;
    assert k + m == m + k;
  }

  lemma AddMultiple(p: nat, t: int, r: nat)
    requires p > 0
    ensures (p * t + r) / p == t + r / p
  {
    DivModUnique(p * t + r, p, t + r / p, r % p);
  }

  /** Adding an even multiple of p to r does not change the parity of r / p. */
  lemma SameParity(p: nat, t: nat, r: nat)
    requires p > 0
    ensures (p * (2 * t) + r) / p % 2 == r / p % 2
  {
    AddMultiple(p, 2 * t, r);
    DivBound(r, p);
    AddEven(t, r / p);
  }

  lemma AddEven(t: nat, h: nat)
    ensures (2 * t + h) % 2 == h % 2
  {
  }

  lemma SplitAt(x: nat, p: nat, d: nat)
    requires p > 0 && d > 0
    ensures p * (2 * d) > 0 && x == p * (2 * (d * (x / (p * (2 * d))))) + x % (p * (2 * d)) && x / (p * (2 * d)) >= 0
  {
    assert p * (2 * d) > 0 by { MulGe(p, 2 * d, 1); }
    DivBound(x, p * (2 * d));
    Regroup(p, d, x / (p * (2 * d)));
  }

  lemma Regroup(p: nat, d: nat, q: nat)
    ensures p * (2 * d) * q == p * (2 * (d * q))
  {
  }

  /** What is dropped above bit m does not touch the bits below. */
  lemma LowBits(x: nat, m: nat, k: nat)
    requires k < m
    ensures BitAt(x % Pow2(m), k) == BitAt(x, k)
  {
    hide Pow2;
    var p, d := Pow2(k), Pow2(m - k - 1);
    assert Pow2(m) == p * (2 * d) by {
      Pow2Add(k, m - k);
      Pow2Doubles(m - k);
    }
    SplitAt(x, p, d);
    DivBound(x, Pow2(m));
    SameParity(p, d * (x / Pow2(m)), x % Pow2(m));
  }

  /** A product with a power of two moves every bit up. */
  lemma TimesBits(x: nat, m: nat, k: nat)
    ensures BitAt(x * Pow2(m), k) <==> k >= m && BitAt(x, k - m)
  {
    hide Pow2;
    var y := x * Pow2(m);
    if k >= m {
      BitAbove(y, m, k - m);
      DivModUnique(y, Pow2(m), x, 0);
    } else {
      var p, d := Pow2(k), Pow2(m - k - 1);
      assert Pow2(m) == p * (2 * d) by {
        Pow2Add(k, m - k);
        Pow2Doubles(m - k);
      }
      assert y == p * (2 * (x * d));
      DivModUnique(y, p, 2 * (x * d), 0);
      DivModUnique(2 * (x * d), 2, x * d, 0);
    }
  }

  /** A shift to the left moves every bit up, and drops those above bit 63. */
  lemma ShlBits(x: U64, m: nat, k: nat)
    requires k < 64
    ensures BitAt(Shl(x, m), k) <==> k >= m && BitAt(x, k - m)
  {
    Pow2Values();
    hide Pow2, BitAt;
    LowBits(x * Pow2(m), 64, k);
    TimesBits(x, m, k);
  }

  lemma ShrBelow(x: U64, m: nat)
    requires m < 64
    ensures Shr(x, m) < Pow2(64 - m)
  {
    hide Pow2;
    var p, d := Pow2(m), Pow2(64 - m);
    assert p * d == TWO64 by {
      Pow2Add(m, 64 - m);
      Pow2Values();
    }
    var q := x / p;
    if q >= d { MulGe(p, q, d); }
  }

  /** Below 2^63 both shifts to the right agree; above, the arithmetic one fills with ones. */
  lemma AshrIs(x: U64, m: nat)
    requires m < 64
    ensures x < 0x8000_0000_0000_0000 ==> Ashr(x, m) == Shr(x, m)
    ensures x >= 0x8000_0000_0000_0000 ==> Ashr(x, m) == Shr(x, m) + (TWO64 - Pow2(64 - m))
  {
    hide Pow2;
    var p, d := Pow2(m), Pow2(64 - m);
    assert p * d == TWO64 by {
      Pow2Add(m, 64 - m);
      Pow2Values();
    }
    var q := x / p;
    DivBound(x, p);
    ShrBelow(x, m);
    assert d <= TWO64 by { MulGe(d, p, 1); }
    if x >= 0x8000_0000_0000_0000 {
      assert p * -d == -TWO64;
      AddMultiple(p, -d, x);
      DivModUnique(q - d, TWO64, -1, q - d + TWO64);
    }
  }

  lemma {:induction false} AllOnes(n: nat, k: nat)
    requires k < n
    ensures BitAt(Pow2(n) - 1, k)
    decreases k
  {
    hide BitAt, Pow2;
    Pow2Doubles(n);
    var h := Pow2(n - 1) - 1;
    DivModUnique(Pow2(n) - 1, 2, h, 1);
    if k == 0 {
      BitZero(Pow2(n) - 1);
    } else {
      Halved(Pow2(n) - 1, k);
      AllOnes(n - 1, k - 1);
    }
  }

  lemma NoneAbove(x: nat, n: nat, k: nat)
    requires x < Pow2(n) && n <= k
    ensures !BitAt(x, k)
  {
    Pow2Monotone(n, k);
    hide Pow2;
    DivModUnique(x, Pow2(k), 0, x);
  }

  /** Bits from m on are those of h, the others those of l. */
  lemma JoinedBits(h: nat, l: nat, m: nat, k: nat)
    requires l < Pow2(m)
    ensures BitAt(h * Pow2(m) + l, k) <==> if k < m then BitAt(l, k) else BitAt(h, k - m)
  {
    hide Pow2;
    var x := h * Pow2(m) + l;
    DivModUnique(x, Pow2(m), h, l);
    if k < m { LowBits(x, m, k); } else { BitAbove(x, m, k - m); }
  }

  /** An arithmetic shift moves every bit down and repeats bit 63. */
  lemma AshrBits(x: U64, m: nat, k: nat)
    requires m < 64 && k < 64
    ensures BitAt(Ashr(x, m), k) <==> BitAt(x, if k + m < 64 then k + m else 63)
  {
    hide Pow2, BitAt, Ashr, Shr;
    Pow2Values();
    AshrIs(x, m);
    ShrBits(x, m, k);
    TopBit(x);
    if x < 0x8000_0000_0000_0000 {
      if k + m >= 64 { NoneAbove(x, 64, k + m); }
    } else {
      ShrBelow(x, m);
      var n := 64 - m;
      assert TWO64 - Pow2(n) == (Pow2(m) - 1) * Pow2(n) by { Pow2Add(m, n); }
      JoinedBits(Pow2(m) - 1, Shr(x, m), n, k);
      if k >= n { AllOnes(m, k - n); }
    }
  }

  lemma TopBit(x: U64)
    ensures BitAt(x, 63) <==> x >= 0x8000_0000_0000_0000
  {
    Pow2Values();
    Pow2Doubles(64);
    hide Pow2;
    assert Pow2(63) == 0x8000_0000_0000_0000;
    if x >= 0x8000_0000_0000_0000 {
      DivModUnique(x, Pow2(63), 1, x - 0x8000_0000_0000_0000);
    } else {
      DivModUnique(x, Pow2(63), 0, x);
    }
  }

  // ---- Numbers ----

  /** The reading of a register as a signed number. */
  function AsSigned(x: U64): int {
    if x >= 0x8000_0000_0000_0000 then x - 0x1_0000_0000_0000_0000 else x
  }

  /** Sums, differences, products and negation are taken modulo 2^64. */
  lemma ModularOps(x: U64, y: U64)
    ensures ScalarAlu(Add, x, y) == if x + y < TWO64 then x + y else x + y - TWO64
    ensures ScalarAlu(Sub, x, y) == if x >= y then x - y else x - y + TWO64
    ensures ScalarAlu(Neg, x, y) == if x == 0 then 0 else TWO64 - x
    ensures ScalarAlu(Mov, x, y) == y
  {
  }

  lemma Products(x: U64, y: U64)
    ensures exists q: nat :: x * y == TWO64 * q + ScalarAlu(Mul, x, y)
  {
    ProductQuotient(x * y, ScalarAlu(Mul, x, y));
  }

  lemma ProductQuotient(p: nat, r: U64)
    requires r == Wrap(p)
    ensures exists q: nat :: p == TWO64 * q + r
  {
    DivBound(p, TWO64);
    var q: nat := p / TWO64;
    assert p == TWO64 * q + r;
  }

  /** An unsigned division by zero is an error; otherwise quotient and remainder are those of
      the division that rounds down. */
  lemma Division(x: U64, y: U64)
    ensures AluResult(Div, Scalar(x), Scalar(y)).Some? <==> y != 0
    ensures AluResult(Mod, Scalar(x), Scalar(y)).Some? <==> y != 0
    ensures y != 0 ==>
              var q, r := AluResult(Div, Scalar(x), Scalar(y)).value, AluResult(Mod, Scalar(x), Scalar(y)).value;
              q.Scalar? && r.Scalar? && x == y * q.n + r.n && r.n < y
  {
    if y != 0 { DivBound(x, y); }
  }

  /** A signed division by zero, and the one that overflows, are errors; otherwise the quotient
      is rounded towards zero, and the remainder has the sign of the dividend. */
  lemma SignedDivision(x: U64, y: U64)
    ensures var ok := y != 0 && !(x == 0x8000_0000_0000_0000 && y == 0xFFFF_FFFF_FFFF_FFFF);
            && (AluResult(SDiv, Scalar(x), Scalar(y)).Some? <==> ok)
            && (AluResult(SMod, Scalar(x), Scalar(y)).Some? <==> ok)
            && (ok ==>
                  var q, r := AluResult(SDiv, Scalar(x), Scalar(y)).value, AluResult(SMod, Scalar(x), Scalar(y)).value;
                  q.Scalar? && r.Scalar? &&
                  var a, b, c, d := AsSigned(x), AsSigned(y), AsSigned(q.n), AsSigned(r.n);
                  a == b * c + d && Abs(d) < Abs(b) && (a >= 0 ==> d >= 0) && (a <= 0 ==> d <= 0))
  {
    if y != 0 && !(x == 0x8000_0000_0000_0000 && y == 0xFFFF_FFFF_FFFF_FFFF) {
      Truncates(AsSigned(x), AsSigned(y));
      Representable(AsSigned(x), AsSigned(y));
      hide Quot, Rem;
      Unwraps(Quot(AsSigned(x), AsSigned(y)));
      Unwraps(Rem(AsSigned(x), AsSigned(y)));
    }
  }

  function Abs(x: int): nat {
    if x < 0 then -x else x
  }

  lemma Truncates(a: int, b: int)
    requires b != 0
    ensures var q, r := Quot(a, b), Rem(a, b);
            a == b * q + r && Abs(r) < Abs(b) && (a >= 0 ==> r >= 0) && (a <= 0 ==> r <= 0)
  {
    var n := Abs(a);
    assert n == b * (n / b) + n % b;
    if a < 0 { assert b * -(n / b) == -(b * (n / b)); }
  }

  lemma DivLess(n: nat, d: nat)
    requires n > 0 && d >= 2
    ensures 0 <= n / d < n
  {
    DivBound(n, d);
    if n / d == n { MulGe(n, d, 2); }
  }

  lemma QuotSize(a: int, b: int)
    requires b != 0
    ensures Quot(a, b) == if (a >= 0) == (b > 0) then Abs(a) / Abs(b) else -(Abs(a) / Abs(b))
  {
    var n := Abs(a);
    if b < 0 {
      assert n == -b * (n / -b) + n % -b;
      assert b * -(n / -b) == -b * (n / -b);
      EuclideanQuotient(n, b, -(n / -b), n % -b);
    }
  }

  lemma EuclideanQuotient(n: int, b: int, q: int, r: int)
    requires b < 0 && n == b * q + r && 0 <= r < -b
    ensures n / b == q
  {
    var k := n / b - q;
    assert b * k == r - n % b;
  }

  /** The only quotient that does not fit is that of the smallest number by -1. */
  lemma Representable(a: int, b: int)
    requires b != 0 && -0x8000_0000_0000_0000 <= a < 0x8000_0000_0000_0000 && -0x8000_0000_0000_0000 <= b < 0x8000_0000_0000_0000
    requires !(a == -0x8000_0000_0000_0000 && b == -1)
    ensures -0x8000_0000_0000_0000 <= Quot(a, b) < 0x8000_0000_0000_0000
    ensures -0x8000_0000_0000_0000 <= Rem(a, b) < 0x8000_0000_0000_0000
  {
    Truncates(a, b);
    QuotSize(a, b);
    hide Quot, Rem;
    DivBound(Abs(a), Abs(b));
    if a != 0 && Abs(b) >= 2 { DivLess(Abs(a), Abs(b)); }
  }

  lemma Unwraps(x: int)
    requires -0x8000_0000_0000_0000 <= x < 0x8000_0000_0000_0000
    ensures AsSigned(Wrap(x)) == x
  {
  }

  /** Comparisons, signed and unsigned, and the test for a common bit. */
  lemma Comparisons(x: U64, y: U64)
    ensures Compare(Eq, Scalar(x), Scalar(y)) == Some(x == y) && Compare(Ne, Scalar(x), Scalar(y)) == Some(x != y)
    ensures Compare(Gt, Scalar(x), Scalar(y)) == Some(x > y) && Compare(Ge, Scalar(x), Scalar(y)) == Some(x >= y)
    ensures Compare(Lt, Scalar(x), Scalar(y)) == Some(x < y) && Compare(Le, Scalar(x), Scalar(y)) == Some(x <= y)
    ensures Compare(SGt, Scalar(x), Scalar(y)) == Some(AsSigned(x) > AsSigned(y))
    ensures Compare(SGe, Scalar(x), Scalar(y)) == Some(AsSigned(x) >= AsSigned(y))
    ensures Compare(SLt, Scalar(x), Scalar(y)) == Some(AsSigned(x) < AsSigned(y))
    ensures Compare(SLe, Scalar(x), Scalar(y)) == Some(AsSigned(x) <= AsSigned(y))
    ensures Compare(Set, Scalar(x), Scalar(y)) == Some(Bits64(BitAnd, x, y) != 0)
  {
    hide Bits64;
  }

  /** A pointer may be compared with null for equality, and with another pointer into the packet
      for order; every other comparison with a pointer is an error. */
  lemma PointerComparisons(op: CmpOp, region: Region, off: int, v: Value)
    ensures Compare(op, Ptr(region, off), v) ==
            if v == Scalar(0) && op == Eq then Some(false) else if v == Scalar(0) && op == Ne then Some(true)
            else if region == Packet && v.Ptr? && v.region == Packet && op == Gt then Some(off > v.off) else None
    ensures forall w: Value :: w.Scalar? ==> Compare(op, w, Ptr(region, off)) == None
  {
  }

  /** Which operations on which operands are errors: shifts by 64 and more, byte swaps, and on a
      pointer everything but moving it by a signed number. */
  lemma Operands(op: AluOp, d: Value, v: Value)
    ensures op == Mov ==> AluResult(op, d, v) == if v == Uninit then None else Some(v)
    ensures op != Mov && (!v.Scalar? || d == Uninit || d.MapPtr?) ==> AluResult(op, d, v) == None
    ensures op != Mov && v.Scalar? && d.Ptr? ==>
              AluResult(op, d, v) == if op == Add then Some(Ptr(d.region, d.off + AsSigned(v.n)))
                                     else if op == Sub then Some(Ptr(d.region, d.off - AsSigned(v.n))) else None
    ensures v.Scalar? && d.Scalar? ==>
              && (op in {Lsh, Rsh, Arsh} ==> (AluResult(op, d, v).Some? <==> v.n < 64))
              && (op in {Add, Sub, Mul, Or, And, Xor, Neg} ==> AluResult(op, d, v).Some?) && AluResult(End, d, v) == None
  {
    hide ScalarAlu;
  }

  /** The bitwise operations, bit by bit. */
  lemma BitwiseOps(x: U64, y: U64, k: nat)
    requires k < 64
    ensures BitAt(ScalarAlu(And, x, y), k) <==> BitAt(x, k) && BitAt(y, k)
    ensures BitAt(ScalarAlu(Or, x, y), k) <==> BitAt(x, k) || BitAt(y, k)
    ensures BitAt(ScalarAlu(Xor, x, y), k) <==> BitAt(x, k) != BitAt(y, k)
  {
    hide Bits, BitAt;
    BitsAt(BitAnd, x, y, 64, k);
    BitsAt(BitOr, x, y, 64, k);
    BitsAt(BitXor, x, y, 64, k);
  }

  /** The shifts, bit by bit. */
  lemma Shifts(x: U64, y: nat, k: nat)
    requires y < 64 && k < 64
    ensures BitAt(ScalarAlu(Lsh, x, y), k) <==> k >= y && BitAt(x, k - y)
    ensures BitAt(ScalarAlu(Rsh, x, y), k) <==> k + y < 64 && BitAt(x, k + y)
    ensures BitAt(ScalarAlu(Arsh, x, y), k) <==> BitAt(x, if k + y < 64 then k + y else 63)
  {
    hide BitAt, Shl, Shr, Ashr;
    ShlBits(x, y, k);
    ShrBits(x, y, k);
    AshrBits(x, y, k);
    if k + y >= 64 {
      Pow2Values();
      NoneAbove(x, 64, k + y);
    }
  }
}
