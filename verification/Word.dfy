/**
 64-bit machine words as integers, with the shifts, masks and little-endian
 byte strings of the BPF instruction set.
 */
module Word {
  const TWO32: int := 0x1_0000_0000
  const TWO64: int := 0x1_0000_0000_0000_0000

  type Byte = x: int | 0 <= x < 256
  type U32 = x: int | 0 <= x < TWO32
  type U64 = x: int | 0 <= x < TWO64

  /** A C int. */
  type CInt = x: int | -0x8000_0000 <= x < 0x8000_0000

  function Pow2(n: nat): (r: nat)
    ensures r > 0
  {
    if n == 0 then 1 else 2 * Pow2(n - 1)
  }

  /** Reduction modulo 2^64: the value a register keeps. */
  function Wrap(x: int): U64 {
    x % 0x1_0000_0000_0000_0000
  }

  /** The two's complement reading of a register. */
  function Signed(x: U64): int {
    if x < 0x8000_0000_0000_0000 then x else x - 0x1_0000_0000_0000_0000
  }

  function Shl(x: U64, k: nat): U64 {
    Wrap(x * Pow2(k))
  }

  function Shr(x: U64, k: nat): U64 {
    ShrBound(x, k);
    x / Pow2(k)
  }

  /** Dafny's division by a positive number rounds down, as an arithmetic shift does. */
  function Ashr(x: U64, k: nat): U64 {
    Wrap(Signed(x) / Pow2(k))
  }

  lemma ShrBound(x: nat, k: nat)
    ensures 0 <= x / Pow2(k) <= x
  {
    DivBound(x, Pow2(k));
  }

  lemma DivBound(x: nat, d: nat)
    requires d > 0
    ensures 0 <= x / d <= x
  {
    var q := x / d;
    assert x == d * q + x % d;
    if q < 0 { MulGe(d, -1, q); }
    if q >= 0 { MulGe(q, d, 1); }
  }

  lemma {:induction false} Pow2Add(a: nat, b: nat)
    ensures Pow2(a + b) == Pow2(a) * Pow2(b)
  {
    if a > 0 { Pow2Add(a - 1, b); }
  }

  lemma {:induction false} Pow2Monotone(a: nat, b: nat)
    requires a <= b
    ensures Pow2(a) <= Pow2(b)
    decreases b
  {
    if a < b { Pow2Monotone(a, b - 1); }
  }

  lemma Pow2Product(a: nat, b: nat, x: nat, y: nat)
    requires Pow2(a) == x && Pow2(b) == y
    ensures Pow2(a + b) == x * y
  {
    Pow2Add(a, b);
  }

  lemma Pow2Values()
    ensures Pow2(8) == 0x100 && Pow2(16) == 0x1_0000 && Pow2(32) == TWO32
    ensures Pow2(56) == 0x100_0000_0000_0000 && Pow2(64) == TWO64
  {
    Pow2Small();
    hide Pow2;
    Pow2Product(4, 4, 16, 16);
    Pow2Product(8, 8, 0x100, 0x100);
    Pow2Product(16, 16, 0x1_0000, 0x1_0000);
    Pow2Product(8, 16, 0x100, 0x1_0000);
    Pow2Product(24, 32, 0x100_0000, 0x1_0000_0000);
    Pow2Product(32, 32, 0x1_0000_0000, 0x1_0000_0000);
  }

  lemma Pow2Zero()
    ensures Pow2(0) == 1
  {
  }

  lemma Pow2Small()
    ensures Pow2(4) == 16
  {
    assert Pow2(2) == 4;
  }

  lemma Pow2Doubles(n: nat)
    requires n > 0
    ensures Pow2(n) == 2 * Pow2(n - 1)
  {
  }

  /** Division that drops the fraction towards zero, and its remainder. */
  function Quot(x: int, y: int): int
    requires y != 0
  {
    if x >= 0 then x / y else -((-x) / y)
  }

  function Rem(x: int, y: int): int
    requires y != 0
  {
    x - y * Quot(x, y)
  }

  datatype BitOp = BitAnd | BitOr | BitXor

  function Bit(op: BitOp, a: int, b: int): (r: int)
    ensures 0 <= r <= 1
  {
    match op
    case BitAnd => if a == 1 && b == 1 then 1 else 0
    case BitOr => if a == 1 || b == 1 then 1 else 0
    case BitXor => if a != b then 1 else 0
  }

  /** The low n bits of x and y combined bit by bit. */
  function Bits(op: BitOp, x: nat, y: nat, n: nat): (r: nat)
    ensures r < Pow2(n)
    decreases n, x
  {
    if n == 0 then 0 else 2 * Bits(op, x / 2, y / 2, n - 1) + Bit(op, x % 2, y % 2)
  }

  function Bits64(op: BitOp, x: U64, y: U64): U64 {
    Pow2Values();
    Bits(op, x, y, 64)
  }

  lemma HalfMod(x: nat, p: nat)
    requires p > 0
    ensures x % (2 * p) == 2 * ((x / 2) % p) + x % 2
  {
    var h, q, r := x / 2, x / 2 / p, x / 2 % p;
    assert x == 2 * p * q + (2 * r + x % 2);
    DivModUnique(x, 2 * p, q, 2 * r + x % 2);
  }

  lemma MulGe(d: nat, a: int, b: int)
    requires a >= b
    ensures d * a >= d * b
  {
    assert d * a - d * b == d * (a - b);
  }

  lemma DivModUnique(x: int, d: int, q: int, r: int)
    requires d > 0 && 0 <= r < d && x == d * q + r
    ensures x / d == q && x % d == r
  {
    var k := x / d - q;
    assert d * k == r - x % d;
    assert k < 1 by { if k >= 1 { MulGe(d, k, 1); assert false; } }
    assert k > -1 by { if k <= -1 { MulGe(d, -1, k); assert false; } }
  }

  lemma {:induction false} MaskNone(x: nat, n: nat)
    ensures Bits(BitAnd, x, 0, n) == 0
    decreases n
  {
    if n > 0 { MaskNone(x / 2, n - 1); }
  }

  lemma MaskStep(x: nat, m: nat, n: nat)
    requires m > 0 && n > 0
    ensures Bits(BitAnd, x, 2 * m - 1, n) == 2 * Bits(BitAnd, x / 2, m - 1, n - 1) + x % 2
  {
    DivModUnique(2 * m - 1, 2, m - 1, 1);
  }

  /** A mask of k ones keeps the value modulo 2^k. */
  lemma {:induction false} MaskIsMod(x: nat, k: nat, n: nat)
    requires k <= n
    ensures Bits(BitAnd, x, Pow2(k) - 1, n) == x % Pow2(k)
    decreases n
  {
    hide Bits, Pow2;
    if k == 0 {
      assert Pow2(0) == 1 by { Pow2Zero(); }
      MaskNone(x, n);
    } else {
      Pow2Doubles(k);
      MaskIsMod(x / 2, k - 1, n - 1);
      MaskStep(x, Pow2(k - 1), n);
      HalfMod(x, Pow2(k - 1));
    }
  }

  lemma {:induction false} OrZero(x: nat, n: nat)
    requires x < Pow2(n)
    ensures Bits(BitOr, x, 0, n) == x
    decreases n
  {
    if n > 0 { OrZero(x / 2, n - 1); }
  }

  lemma NoBits(x: nat, y: nat)
    ensures Bits(BitOr, x, y, 0) == 0
  {
  }

  lemma OrStep(m: nat, l: nat, n: nat)
    requires n > 0
    ensures Bits(BitOr, 2 * m, l, n) == 2 * Bits(BitOr, m, l / 2, n - 1) + l % 2
  {
    DivModUnique(2 * m, 2, m, 0);
  }

  lemma Doubled(h: nat, k: nat)
    requires k > 0
    ensures h * Pow2(k) == 2 * (h * Pow2(k - 1))
  {
  }

  /** Or-ing a value into zero low bits adds it. */
  lemma {:induction false} OrDisjoint(h: nat, l: nat, k: nat, n: nat)
    requires l < Pow2(k) && h * Pow2(k) + l < Pow2(n)
    ensures Bits(BitOr, h * Pow2(k), l, n) == h * Pow2(k) + l
    decreases k
  {
    hide Bits;
    if k == 0 {
      assert h * Pow2(0) == h;
      OrZero(h, n);
    } else if n == 0 {
      NoBits(h * Pow2(k), l);
    } else {
      Doubled(h, k);
      var m := h * Pow2(k - 1);
      OrDisjoint(h, l / 2, k - 1, n - 1);
      OrStep(m, l, n);
    }
  }

  /** A word xor itself is zero: the usual way to clear a register on x86. */
  lemma {:induction false} XorSelf(x: nat, n: nat)
    ensures Bits(BitXor, x, x, n) == 0
    decreases n
  {
    if n > 0 { XorSelf(x / 2, n - 1); }
  }

  /** The mask of a 32-bit value. */
  lemma MaskLow(x: U64)
    ensures Bits64(BitAnd, x, 0xFFFF_FFFF) == x % 0x1_0000_0000
  {
    Pow2Values();
    MaskIsMod(x, 32, 64);
  }

  /** The shift pair that a compiler emits for that mask. */
  lemma ShiftPairIsMask(x: U64)
    ensures Shr(Shl(x, 32), 32) == x % 0x1_0000_0000 == Bits64(BitAnd, x, 0xFFFF_FFFF)
  {
    MaskLow(x);
    var q, r := x / 0x1_0000_0000, x % 0x1_0000_0000;
    assert Pow2(32) == 0x1_0000_0000 by { Pow2Values(); }
    hide Bits64, Pow2;
    DivModUnique(x * 0x1_0000_0000, 0x1_0000_0000_0000_0000, q, r * 0x1_0000_0000);
    DivModUnique(r * 0x1_0000_0000, 0x1_0000_0000, r, 0);
  }

  /** A signed char widened to a register. */
  function SignExtendByte(b: Byte): U64 {
    Wrap(if b < 128 then b else b - 256)
  }

  lemma ShiftPairIsSignExtension(b: Byte)
    ensures Ashr(Shl(b, 56), 56) == SignExtendByte(b)
  {
    Pow2Values();
    hide Pow2;
    var p, x := 0x100_0000_0000_0000, Shl(b, 56);
    assert x == b * 0x100_0000_0000_0000;
    if b < 128 {
      DivModUnique(Signed(x), p, b, 0);
    } else {
      DivModUnique(Signed(x), p, b - 256, 0);
    }
  }

  /** The n low bytes of x, least significant first. */
  function Bytes(x: nat, n: nat): (b: seq<Byte>)
    ensures |b| == n
  {
    if n == 0 then [] else [x % 256] + Bytes(x / 256, n - 1)
  }

  function FromBytes(b: seq<Byte>): (x: nat)
    ensures x < Pow2(8 * |b|)
  {
    if b == [] then 0 else
      assert Pow2(8 * |b|) == 256 * Pow2(8 * |b| - 8) by { Pow2Byte(|b| - 1); }
      b[0] + 256 * FromBytes(b[1..])
  }

  lemma Pow2Byte(n: nat)
    ensures Pow2(8 * (n + 1)) == 256 * Pow2(8 * n)
  {
    var k := 8 * n;
    assert Pow2(k + 8) == 2 * Pow2(k + 7);
    assert Pow2(k + 7) == 2 * Pow2(k + 6);
    assert Pow2(k + 6) == 2 * Pow2(k + 5);
    assert Pow2(k + 5) == 2 * Pow2(k + 4);
    assert Pow2(k + 4) == 2 * Pow2(k + 3);
    assert Pow2(k + 3) == 2 * Pow2(k + 2);
    assert Pow2(k + 2) == 2 * Pow2(k + 1);
  }

  /** The lowest byte of a remainder. */
  lemma ByteMod(x: nat, p: nat)
    requires p > 0
    ensures x % (256 * p) == 256 * (x / 256 % p) + x % 256
  {
    var h := x / 256;
    var q, r := h / p, h % p;
    assert h == p * q + r && x == 256 * h + x % 256;
    assert x == (256 * p) * q + (256 * r + x % 256);
    DivModUnique(x, 256 * p, q, 256 * r + x % 256);
  }

  lemma {:induction false} BytesRoundTrip(x: nat, n: nat)
    ensures FromBytes(Bytes(x, n)) == x % Pow2(8 * n)
  {
    hide Pow2;
    if n == 0 {
      assert Pow2(0) == 1 by { Pow2Zero(); }
    } else {
      BytesRoundTrip(x / 256, n - 1);
      Pow2Byte(n - 1);
      ByteMod(x, Pow2(8 * (n - 1)));
      assert Bytes(x, n)[1..] == Bytes(x / 256, n - 1);
    }
  }

  lemma {:induction false} FromBytesRoundTrip(b: seq<Byte>)
    ensures Bytes(FromBytes(b), |b|) == b
  {
    if b != [] {
      FromBytesRoundTrip(b[1..]);
      var rest := FromBytes(b[1..]);
      DivModUnique(b[0] + 256 * rest, 256, rest, b[0]);
      assert b == [b[0]] + b[1..];
    }
  }

  /** The first n bytes of b, with zeros where b has run out. */
  function Fit(b: seq<Byte>, n: nat): (r: seq<Byte>)
    ensures |r| == n
  {
    seq(n, i requires 0 <= i < n => if i < |b| then b[i] else 0)
  }
}
