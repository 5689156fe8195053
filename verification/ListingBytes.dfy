/** The bytes printed beside the instructions of the listings are their encodings. */
module ListingBytes {
  import opened Word
  import opened Isa
  import opened Codec
  import opened HelloListing
  import opened KprobeListing
  import opened XdpListing
  import M = Machine

  /** The eight bytes of a slot. */
  datatype Row = Row(b0: Byte, b1: Byte, b2: Byte, b3: Byte, b4: Byte, b5: Byte, b6: Byte, b7: Byte) {
    function Bytes(): seq<Byte> {
      [b0, b1, b2, b3, b4, b5, b6, b7]
    }
  }

  /** hello, eight bytes for each slot. */
  function HelloBytesAt(k: int): Row {
    match k
    case 0 => Row(0x85, 0x00, 0x00, 0x00, 0x0f, 0x00, 0x00, 0x00)
    case 1 => Row(0x67, 0x00, 0x00, 0x00, 0x20, 0x00, 0x00, 0x00)
    case 2 => Row(0x77, 0x00, 0x00, 0x00, 0x20, 0x00, 0x00, 0x00)
    case 3 => Row(0x7b, 0x0a, 0xf8, 0xff, 0x00, 0x00, 0x00, 0x00)
    case 4 => Row(0xbf, 0xa2, 0x00, 0x00, 0x00, 0x00, 0x00, 0x00)
    case 5 => Row(0x07, 0x02, 0x00, 0x00, 0xf8, 0xff, 0xff, 0xff)
    case 6 => Row(0x18, 0x01, 0x00, 0x00, 0x00, 0x00, 0x00, 0x00)
    case 7 => Row(0x00, 0x00, 0x00, 0x00, 0x00, 0x00, 0x00, 0x00)
    case 8 => Row(0x85, 0x00, 0x00, 0x00, 0x01, 0x00, 0x00, 0x00)
    case 9 => Row(0xb7, 0x01, 0x00, 0x00, 0x01, 0x00, 0x00, 0x00)
    case 10 => Row(0x15, 0x00, 0x02, 0x00, 0x00, 0x00, 0x00, 0x00)
    case 11 => Row(0x79, 0x01, 0x00, 0x00, 0x00, 0x00, 0x00, 0x00)
    case 12 => Row(0x07, 0x01, 0x00, 0x00, 0x01, 0x00, 0x00, 0x00)
    case 13 => Row(0x7b, 0x1a, 0xf0, 0xff, 0x00, 0x00, 0x00, 0x00)
    case 14 => Row(0xbf, 0xa2, 0x00, 0x00, 0x00, 0x00, 0x00, 0x00)
    case 15 => Row(0x07, 0x02, 0x00, 0x00, 0xf8, 0xff, 0xff, 0xff)
    case 16 => Row(0xbf, 0xa3, 0x00, 0x00, 0x00, 0x00, 0x00, 0x00)
    case 17 => Row(0x07, 0x03, 0x00, 0x00, 0xf0, 0xff, 0xff, 0xff)
    case 18 => Row(0x18, 0x01, 0x00, 0x00, 0x00, 0x00, 0x00, 0x00)
    case 19 => Row(0x00, 0x00, 0x00, 0x00, 0x00, 0x00, 0x00, 0x00)
    case 20 => Row(0xb7, 0x04, 0x00, 0x00, 0x00, 0x00, 0x00, 0x00)
    case 21 => Row(0x85, 0x00, 0x00, 0x00, 0x02, 0x00, 0x00, 0x00)
    case 22 => Row(0xb7, 0x00, 0x00, 0x00, 0x00, 0x00, 0x00, 0x00)
    case _ => Row(0x95, 0x00, 0x00, 0x00, 0x00, 0x00, 0x00, 0x00)
  }

  /** xdp_drop_prog, slots 0 to 12. */
  function XdpHeadBytesAt(k: int): Row {
    match k
    case 0 => Row(0xb7, 0x06, 0x00, 0x00, 0x01, 0x00, 0x00, 0x00)
    case 1 => Row(0x61, 0x12, 0x04, 0x00, 0x00, 0x00, 0x00, 0x00)
    case 2 => Row(0x61, 0x11, 0x00, 0x00, 0x00, 0x00, 0x00, 0x00)
    case 3 => Row(0xbf, 0x13, 0x00, 0x00, 0x00, 0x00, 0x00, 0x00)
    case 4 => Row(0x07, 0x03, 0x00, 0x00, 0x0e, 0x00, 0x00, 0x00)
    case 5 => Row(0x2d, 0x23, 0x17, 0x00, 0x00, 0x00, 0x00, 0x00)
    case 6 => Row(0x71, 0x12, 0x0c, 0x00, 0x00, 0x00, 0x00, 0x00)
    case 7 => Row(0x71, 0x17, 0x0d, 0x00, 0x00, 0x00, 0x00, 0x00)
    case 8 => Row(0x67, 0x07, 0x00, 0x00, 0x08, 0x00, 0x00, 0x00)
    case 9 => Row(0x4f, 0x27, 0x00, 0x00, 0x00, 0x00, 0x00, 0x00)
    case 10 => Row(0xb7, 0x06, 0x00, 0x00, 0x02, 0x00, 0x00, 0x00)
    case 11 => Row(0x15, 0x07, 0x11, 0x00, 0x00, 0x00, 0x00, 0x00)
    case _ => Row(0xb7, 0x08, 0x00, 0x00, 0x00, 0x00, 0x00, 0x00)
  }

  /** xdp_drop_prog, slots 13 to 30. */
  function XdpRestBytesAt(k: int): Row {
    match k
    case 13 => Row(0x18, 0x01, 0x00, 0x00, 0x00, 0x00, 0x00, 0x00)
    case 14 => Row(0x00, 0x00, 0x00, 0x00, 0x00, 0x00, 0x00, 0x00)
    case 15 => Row(0xb7, 0x02, 0x00, 0x00, 0x1b, 0x00, 0x00, 0x00)
    case 16 => Row(0xbf, 0x73, 0x00, 0x00, 0x00, 0x00, 0x00, 0x00)
    case 17 => Row(0x85, 0x00, 0x00, 0x00, 0x06, 0x00, 0x00, 0x00)
    case 18 => Row(0x07, 0x08, 0x00, 0x00, 0x01, 0x00, 0x00, 0x00)
    case 19 => Row(0xbf, 0x81, 0x00, 0x00, 0x00, 0x00, 0x00, 0x00)
    case 20 => Row(0x67, 0x01, 0x00, 0x00, 0x20, 0x00, 0x00, 0x00)
    case 21 => Row(0x77, 0x01, 0x00, 0x00, 0x20, 0x00, 0x00, 0x00)
    case 22 => Row(0x2d, 0x17, 0xf6, 0xff, 0x00, 0x00, 0x00, 0x00)
    case 23 => Row(0x15, 0x07, 0x01, 0x00, 0x08, 0x00, 0x00, 0x00)
    case 24 => Row(0x05, 0x00, 0x04, 0x00, 0x00, 0x00, 0x00, 0x00)
    case 25 => Row(0x18, 0x01, 0x00, 0x00, 0x1b, 0x00, 0x00, 0x00)
    case 26 => Row(0x00, 0x00, 0x00, 0x00, 0x00, 0x00, 0x00, 0x00)
    case 27 => Row(0xb7, 0x02, 0x00, 0x00, 0x18, 0x00, 0x00, 0x00)
    case 28 => Row(0x85, 0x00, 0x00, 0x00, 0x06, 0x00, 0x00, 0x00)
    case 29 => Row(0xbf, 0x60, 0x00, 0x00, 0x00, 0x00, 0x00, 0x00)
    case _ => Row(0x95, 0x00, 0x00, 0x00, 0x00, 0x00, 0x00, 0x00)
  }

  /** kprobe_exec, slots 0 to 15. */
  function KprobeCountBytesAt(k: int): Row {
    match k
    case 0 => Row(0xbf, 0x16, 0x00, 0x00, 0x00, 0x00, 0x00, 0x00)
    case 1 => Row(0x18, 0x01, 0x00, 0x00, 0x00, 0x00, 0x00, 0x00)
    case 2 => Row(0x00, 0x00, 0x00, 0x00, 0x00, 0x00, 0x00, 0x00)
    case 3 => Row(0x61, 0x12, 0x00, 0x00, 0x00, 0x00, 0x00, 0x00)
    case 4 => Row(0xbf, 0x23, 0x00, 0x00, 0x00, 0x00, 0x00, 0x00)
    case 5 => Row(0x07, 0x03, 0x00, 0x00, 0x01, 0x00, 0x00, 0x00)
    case 6 => Row(0x63, 0x31, 0x00, 0x00, 0x00, 0x00, 0x00, 0x00)
    case 7 => Row(0xb7, 0x01, 0x00, 0x00, 0x00, 0x00, 0x00, 0x00)
    case 8 => Row(0x63, 0x1a, 0xf8, 0xff, 0x00, 0x00, 0x00, 0x00)
    case 9 => Row(0x63, 0x1a, 0xf4, 0xff, 0x00, 0x00, 0x00, 0x00)
    case 10 => Row(0x63, 0x1a, 0xf0, 0xff, 0x00, 0x00, 0x00, 0x00)
    case 11 => Row(0x63, 0x1a, 0xec, 0xff, 0x00, 0x00, 0x00, 0x00)
    case 12 => Row(0x63, 0x1a, 0xe8, 0xff, 0x00, 0x00, 0x00, 0x00)
    case 13 => Row(0x63, 0x1a, 0xe4, 0xff, 0x00, 0x00, 0x00, 0x00)
    case 14 => Row(0x63, 0x1a, 0xfc, 0xff, 0x00, 0x00, 0x00, 0x00)
    case _ => Row(0x63, 0x2a, 0xe0, 0xff, 0x00, 0x00, 0x00, 0x00)
  }

  /** kprobe_exec, slots 16 to 29. */
  function KprobeIdentifyBytesAt(k: int): Row {
    match k
    case 16 => Row(0x85, 0x00, 0x00, 0x00, 0x0e, 0x00, 0x00, 0x00)
    case 17 => Row(0x63, 0x0a, 0xd8, 0xff, 0x00, 0x00, 0x00, 0x00)
    case 18 => Row(0x85, 0x00, 0x00, 0x00, 0x0f, 0x00, 0x00, 0x00)
    case 19 => Row(0x63, 0x0a, 0xdc, 0xff, 0x00, 0x00, 0x00, 0x00)
    case 20 => Row(0x67, 0x00, 0x00, 0x00, 0x20, 0x00, 0x00, 0x00)
    case 21 => Row(0x77, 0x00, 0x00, 0x00, 0x20, 0x00, 0x00, 0x00)
    case 22 => Row(0x7b, 0x0a, 0xd0, 0xff, 0x00, 0x00, 0x00, 0x00)
    case 23 => Row(0xbf, 0xa2, 0x00, 0x00, 0x00, 0x00, 0x00, 0x00)
    case 24 => Row(0x07, 0x02, 0x00, 0x00, 0xd0, 0xff, 0xff, 0xff)
    case 25 => Row(0x18, 0x01, 0x00, 0x00, 0x00, 0x00, 0x00, 0x00)
    case 26 => Row(0x00, 0x00, 0x00, 0x00, 0x00, 0x00, 0x00, 0x00)
    case 27 => Row(0x85, 0x00, 0x00, 0x00, 0x01, 0x00, 0x00, 0x00)
    case 28 => Row(0xbf, 0x07, 0x00, 0x00, 0x00, 0x00, 0x00, 0x00)
    case _ => Row(0x15, 0x07, 0x0c, 0x00, 0x00, 0x00, 0x00, 0x00)
  }

  /** kprobe_exec, slots 30 to 47. */
  function KprobeCopyBytesAt(k: int): Row {
    match k
    case 30 => Row(0x71, 0x73, 0x00, 0x00, 0x00, 0x00, 0x00, 0x00)
    case 31 => Row(0x67, 0x03, 0x00, 0x00, 0x38, 0x00, 0x00, 0x00)
    case 32 => Row(0xc7, 0x03, 0x00, 0x00, 0x38, 0x00, 0x00, 0x00)
    case 33 => Row(0x18, 0x01, 0x00, 0x00, 0x00, 0x00, 0x00, 0x00)
    case 34 => Row(0x00, 0x00, 0x00, 0x00, 0x00, 0x00, 0x00, 0x00)
    case 35 => Row(0xb7, 0x02, 0x00, 0x00, 0x03, 0x00, 0x00, 0x00)
    case 36 => Row(0x85, 0x00, 0x00, 0x00, 0x06, 0x00, 0x00, 0x00)
    case 37 => Row(0xbf, 0xa1, 0x00, 0x00, 0x00, 0x00, 0x00, 0x00)
    case 38 => Row(0x07, 0x01, 0x00, 0x00, 0xf4, 0xff, 0xff, 0xff)
    case 39 => Row(0xb7, 0x02, 0x00, 0x00, 0x0c, 0x00, 0x00, 0x00)
    case 40 => Row(0xbf, 0x73, 0x00, 0x00, 0x00, 0x00, 0x00, 0x00)
    case 41 => Row(0x05, 0x00, 0x05, 0x00, 0x00, 0x00, 0x00, 0x00)
    case 42 => Row(0xbf, 0xa1, 0x00, 0x00, 0x00, 0x00, 0x00, 0x00)
    case 43 => Row(0x07, 0x01, 0x00, 0x00, 0xf4, 0xff, 0xff, 0xff)
    case 44 => Row(0xb7, 0x02, 0x00, 0x00, 0x0c, 0x00, 0x00, 0x00)
    case 45 => Row(0x18, 0x03, 0x00, 0x00, 0x00, 0x00, 0x00, 0x00)
    case 46 => Row(0x00, 0x00, 0x00, 0x00, 0x00, 0x00, 0x00, 0x00)
    case _ => Row(0x85, 0x00, 0x00, 0x00, 0x71, 0x00, 0x00, 0x00)
  }

  /** kprobe_exec, slots 48 to 63. */
  function KprobeGlobalBytesAt(k: int): Row {
    match k
    case 48 => Row(0x18, 0x07, 0x00, 0x00, 0x00, 0x00, 0x00, 0x00)
    case 49 => Row(0x00, 0x00, 0x00, 0x00, 0x00, 0x00, 0x00, 0x00)
    case 50 => Row(0x61, 0x71, 0x00, 0x00, 0x00, 0x00, 0x00, 0x00)
    case 51 => Row(0x25, 0x01, 0x16, 0x00, 0x0b, 0x00, 0x00, 0x00)
    case 52 => Row(0x18, 0x02, 0x00, 0x00, 0x00, 0x00, 0x00, 0x00)
    case 53 => Row(0x00, 0x00, 0x00, 0x00, 0x00, 0x00, 0x00, 0x00)
    case 54 => Row(0x0f, 0x12, 0x00, 0x00, 0x00, 0x00, 0x00, 0x00)
    case 55 => Row(0x71, 0x23, 0x00, 0x00, 0x00, 0x00, 0x00, 0x00)
    case 56 => Row(0x67, 0x03, 0x00, 0x00, 0x38, 0x00, 0x00, 0x00)
    case 57 => Row(0xc7, 0x03, 0x00, 0x00, 0x38, 0x00, 0x00, 0x00)
    case 58 => Row(0x18, 0x01, 0x00, 0x00, 0x03, 0x00, 0x00, 0x00)
    case 59 => Row(0x00, 0x00, 0x00, 0x00, 0x00, 0x00, 0x00, 0x00)
    case 60 => Row(0xb7, 0x02, 0x00, 0x00, 0x03, 0x00, 0x00, 0x00)
    case 61 => Row(0x85, 0x00, 0x00, 0x00, 0x06, 0x00, 0x00, 0x00)
    case 62 => Row(0x61, 0x71, 0x00, 0x00, 0x00, 0x00, 0x00, 0x00)
    case _ => Row(0x25, 0x01, 0x0a, 0x00, 0x0b, 0x00, 0x00, 0x00)
  }

  /** kprobe_exec, slots 64 to 88. */
  function KprobeEmitBytesAt(k: int): Row {
    match k
    case 64 => Row(0xbf, 0xa2, 0x00, 0x00, 0x00, 0x00, 0x00, 0x00)
    case 65 => Row(0x07, 0x02, 0x00, 0x00, 0xd8, 0xff, 0xff, 0xff)
    case 66 => Row(0x0f, 0x12, 0x00, 0x00, 0x00, 0x00, 0x00, 0x00)
    case 67 => Row(0x71, 0x23, 0x1c, 0x00, 0x00, 0x00, 0x00, 0x00)
    case 68 => Row(0x67, 0x03, 0x00, 0x00, 0x38, 0x00, 0x00, 0x00)
    case 69 => Row(0xc7, 0x03, 0x00, 0x00, 0x38, 0x00, 0x00, 0x00)
    case 70 => Row(0x18, 0x01, 0x00, 0x00, 0x06, 0x00, 0x00, 0x00)
    case 71 => Row(0x00, 0x00, 0x00, 0x00, 0x00, 0x00, 0x00, 0x00)
    case 72 => Row(0xb7, 0x02, 0x00, 0x00, 0x03, 0x00, 0x00, 0x00)
    case 73 => Row(0x85, 0x00, 0x00, 0x00, 0x06, 0x00, 0x00, 0x00)
    case 74 => Row(0xbf, 0xa1, 0x00, 0x00, 0x00, 0x00, 0x00, 0x00)
    case 75 => Row(0x07, 0x01, 0x00, 0x00, 0xe4, 0xff, 0xff, 0xff)
    case 76 => Row(0xb7, 0x02, 0x00, 0x00, 0x10, 0x00, 0x00, 0x00)
    case 77 => Row(0x85, 0x00, 0x00, 0x00, 0x10, 0x00, 0x00, 0x00)
    case 78 => Row(0xbf, 0xa4, 0x00, 0x00, 0x00, 0x00, 0x00, 0x00)
    case 79 => Row(0x07, 0x04, 0x00, 0x00, 0xd8, 0xff, 0xff, 0xff)
    case 80 => Row(0xbf, 0x61, 0x00, 0x00, 0x00, 0x00, 0x00, 0x00)
    case 81 => Row(0x18, 0x02, 0x00, 0x00, 0x00, 0x00, 0x00, 0x00)
    case 82 => Row(0x00, 0x00, 0x00, 0x00, 0x00, 0x00, 0x00, 0x00)
    case 83 => Row(0x18, 0x03, 0x00, 0x00, 0xff, 0xff, 0xff, 0xff)
    case 84 => Row(0x00, 0x00, 0x00, 0x00, 0x00, 0x00, 0x00, 0x00)
    case 85 => Row(0xb7, 0x05, 0x00, 0x00, 0x28, 0x00, 0x00, 0x00)
    case 86 => Row(0x85, 0x00, 0x00, 0x00, 0x19, 0x00, 0x00, 0x00)
    case 87 => Row(0xb7, 0x00, 0x00, 0x00, 0x00, 0x00, 0x00, 0x00)
    case _ => Row(0x95, 0x00, 0x00, 0x00, 0x00, 0x00, 0x00, 0x00)
  }

  function XdpBytesAt(k: int): Row {
    if k < 13 then XdpHeadBytesAt(k) else XdpRestBytesAt(k)
  }

  function KprobeBytesAt(k: int): Row {
    if k < 16 then KprobeCountBytesAt(k) else if k < 30 then KprobeIdentifyBytesAt(k) else if k < 48 then KprobeCopyBytesAt(k)
    else if k < 64 then KprobeGlobalBytesAt(k) else KprobeEmitBytesAt(k)
  }

  /** The slots one after another. */
  function Joined(at: int -> Row, n: nat): seq<Byte> {
    if n == 0 then [] else Joined(at, n - 1) + at(n - 1).Bytes()
  }

  /** The fields of r, byte by byte. */
  predicate Spelt(r: Raw, b: Row) {
    && b.b0 == r.code && b.b1 == Hex(r.src, r.dst)
    && Pair(b.b2, b.b3) == Unsigned16(r.off)
    && Quad(b.b4, b.b5, b.b6, b.b7) == Unsigned32(r.imm)
  }

  function Pair(low: nat, high: nat): nat {
    256 * high + low
  }

  function Quad(a: nat, b: nat, c: nat, d: nat): nat {
    0x1_0000 * Pair(c, d) + Pair(a, b)
  }

  lemma TwoBytes(a: nat, b: nat)
    requires a < 256 && b < 256
    ensures Bytes(Pair(a, b), 2) == [a, b]
  {
    var x := Pair(a, b);
    DivModUnique(x, 256, b, a);
    DivModUnique(b, 256, 0, b);
    assert Bytes(x, 2) == [a] + Bytes(b, 1);
    assert Bytes(b, 1) == [b] + Bytes(b / 256, 0);
  }

  lemma QuadSplit(a: nat, b: nat, c: nat, d: nat)
    ensures Quad(a, b, c, d) == 0x1_0000 * Pair(c, d) + Pair(a, b) && Pair(a, b) == 256 * b + a
  {
  }

  lemma FourBytes(a: nat, b: nat, c: nat, d: nat)
    requires a < 256 && b < 256 && c < 256 && d < 256
    ensures Bytes(Quad(a, b, c, d), 4) == [a, b, c, d]
  {
    hide Hex, Quad, Pair;
    QuadSplit(a, b, c, d);
    TwoBytes(c, d);
    var x, y := Quad(a, b, c, d), Pair(c, d);
    DivModUnique(x, 256, 256 * y + b, a);
    DivModUnique(256 * y + b, 256, y, b);
    assert Bytes(x, 4) == [a] + ([b] + Bytes(y, 2));
  }

  lemma SpeltBytes(r: Raw, b: Row)
    requires Spelt(r, b)
    ensures RawBytes(r) == b.Bytes()
  {
    hide Bytes, Unsigned16, Unsigned32, Hex, Pair, Quad;
    TwoBytes(b.b2, b.b3);
    FourBytes(b.b4, b.b5, b.b6, b.b7);
    assert b.Bytes() == [b.b0, b.b1] + [b.b2, b.b3] + [b.b4, b.b5, b.b6, b.b7];
  }

  lemma {:induction false} SlotsBytesAppend(a: seq<Raw>, r: Raw)
    ensures SlotsBytes(a + [r]) == SlotsBytes(a) + RawBytes(r)
  {
    hide RawBytes;
    if a == [] {
      assert [r][1..] == [];
    } else {
      assert (a + [r])[1..] == a[1..] + [r];
      SlotsBytesAppend(a[1..], r);
    }
  }

  lemma {:induction false} JoinedIs(rs: seq<Raw>, at: int -> Row, n: nat)
    requires n <= |rs| && forall k: nat :: k < n ==> Spelt(rs[k], at(k))
    ensures Joined(at, n) == SlotsBytes(rs[..n])
    decreases n
  {
    hide Spelt, RawBytes;
    if n > 0 {
      JoinedIs(rs, at, n - 1);
      assert Spelt(rs[n - 1], at(n - 1));
      SpeltBytes(rs[n - 1], at(n - 1));
      SlotsBytesAppend(rs[..n - 1], rs[n - 1]);
      assert rs[..n] == rs[..n - 1] + [rs[n - 1]];
    }
  }

  /** The encoding of p, once every slot is known to be spelt as listed. */
  lemma EncodedAs(p: Program, at: int -> Row)
    requires Codable(p) && forall k: nat :: k < |p| ==> SlotCodable(p, k) && Spelt(RawAt(p, k), at(k))
    ensures Encode(p).0 == Joined(at, |p|)
  {
    hide Spelt, Joined, RawAt, SlotCodable;
    var rs := Raws(p);
    JoinedIs(rs, at, |p|);
    assert rs[..|p|] == rs;
  }

  /** Two-digit numbers, one row for each first digit. */
  lemma HexRows()
    ensures forall l: nat {:trigger Hex(0, l)} :: Hex(0, l) == 0 + l
    ensures forall l: nat {:trigger Hex(1, l)} :: Hex(1, l) == 16 + l
    ensures forall l: nat {:trigger Hex(2, l)} :: Hex(2, l) == 32 + l
    ensures forall l: nat {:trigger Hex(3, l)} :: Hex(3, l) == 48 + l
    ensures forall l: nat {:trigger Hex(4, l)} :: Hex(4, l) == 64 + l
    ensures forall l: nat {:trigger Hex(5, l)} :: Hex(5, l) == 80 + l
    ensures forall l: nat {:trigger Hex(6, l)} :: Hex(6, l) == 96 + l
    ensures forall l: nat {:trigger Hex(7, l)} :: Hex(7, l) == 112 + l
    ensures forall l: nat {:trigger Hex(8, l)} :: Hex(8, l) == 128 + l
    ensures forall l: nat {:trigger Hex(9, l)} :: Hex(9, l) == 144 + l
    ensures forall l: nat {:trigger Hex(10, l)} :: Hex(10, l) == 160 + l
    ensures forall l: nat {:trigger Hex(11, l)} :: Hex(11, l) == 176 + l
    ensures forall l: nat {:trigger Hex(12, l)} :: Hex(12, l) == 192 + l
    ensures forall l: nat {:trigger Hex(13, l)} :: Hex(13, l) == 208 + l
  {
  }

  /** Small numbers, and small negative numbers, fill their higher bytes with 00 and ff. */
  lemma SmallNumbers()
    ensures forall x: nat {:trigger Pair(x, 0)} :: Pair(x, 0) == x
    ensures forall x: nat {:trigger Pair(x, 0xff)} :: Pair(x, 0xff) == x + 0xff00
    ensures forall x: nat {:trigger Quad(x, 0, 0, 0)} :: Quad(x, 0, 0, 0) == x
    ensures forall x: nat {:trigger Quad(x, 0xff, 0xff, 0xff)} :: Quad(x, 0xff, 0xff, 0xff) == x + 0xffff_ff00
  {
    hide Pair, Quad;
    forall x: nat ensures Pair(x, 0) == x { QuadSplit(x, 0, 0, 0); }
    forall x: nat ensures Pair(x, 0xff) == x + 0xff00 { QuadSplit(x, 0xff, 0, 0); }
    forall x: nat ensures Quad(x, 0, 0, 0) == x { QuadSplit(x, 0, 0, 0); }
    forall x: nat ensures Quad(x, 0xff, 0xff, 0xff) == x + 0xffff_ff00 { QuadSplit(x, 0xff, 0xff, 0xff); QuadSplit(0xff, 0xff, 0, 0); }
  }

  /** The halves of the wide constants in the listings. */
  lemma SmallHalves()
    ensures Signed32(0) == 0 && Signed32(3) == 3 && Signed32(6) == 6 && Signed32(27) == 27
    ensures Signed32(Low32(0xFFFF_FFFF)) == -1 && High32(0xFFFF_FFFF) == 0
  {
  }

  lemma HelloSlots1(k: nat)
    requires 0 <= k < 12
    ensures SlotCodable(HELLO_OBJECT, k) && Spelt(RawAt(HELLO_OBJECT, k), HelloBytesAt(k))
  {
    hide Low32, High32, Signed32, Hex, Pair, Quad;
    SmallHalves();
    HexRows();
    SmallNumbers();
  }

  lemma HelloSlots2(k: nat)
    requires 12 <= k < 24
    ensures SlotCodable(HELLO_OBJECT, k) && Spelt(RawAt(HELLO_OBJECT, k), HelloBytesAt(k))
  {
    hide Low32, High32, Signed32, Hex, Pair, Quad;
    SmallHalves();
    HexRows();
    SmallNumbers();
  }

  lemma XdpSlots1(k: nat)
    requires 0 <= k < 13
    ensures SlotCodable(XDP, k) && Spelt(RawAt(XDP, k), XdpBytesAt(k))
  {
    hide Low32, High32, Signed32, Hex, Pair, Quad, XdpRestBytesAt, XdpTailAt;
    SmallHalves();
    HexRows();
    SmallNumbers();
  }

  lemma XdpSlots2(k: nat)
    requires 13 <= k < 22
    ensures SlotCodable(XDP, k) && Spelt(RawAt(XDP, k), XdpBytesAt(k))
  {
    hide Low32, High32, Signed32, Hex, Pair, Quad, XdpHeadBytesAt, XdpHeadAt;
    SmallHalves();
    HexRows();
    SmallNumbers();
  }

  lemma XdpSlots3(k: nat)
    requires 22 <= k < 31
    ensures SlotCodable(XDP, k) && Spelt(RawAt(XDP, k), XdpBytesAt(k))
  {
    hide Low32, High32, Signed32, Hex, Pair, Quad, XdpHeadBytesAt, XdpHeadAt;
    SmallHalves();
    HexRows();
    SmallNumbers();
  }

  lemma KprobeCountSlots(k: nat)
    requires 0 <= k < 16
    ensures SlotCodable(KPROBE_OBJECT, k) && Spelt(RawAt(KPROBE_OBJECT, k), KprobeBytesAt(k))
  {
    hide Low32, High32, Signed32, Hex, Pair, Quad, KprobeIdentifyBytesAt, KprobeCopyBytesAt, KprobeGlobalBytesAt, KprobeEmitBytesAt, CopyAt, GlobalAt, EmitAt;
    SmallHalves();
    HexRows();
    SmallNumbers();
  }

  lemma KprobeIdentifySlots(k: nat)
    requires 16 <= k < 30
    ensures SlotCodable(KPROBE_OBJECT, k) && Spelt(RawAt(KPROBE_OBJECT, k), KprobeBytesAt(k))
  {
    hide Low32, High32, Signed32, Hex, Pair, Quad, KprobeCountBytesAt, KprobeCopyBytesAt, KprobeGlobalBytesAt, KprobeEmitBytesAt, GlobalAt, EmitAt;
    SmallHalves();
    HexRows();
    SmallNumbers();
  }

  lemma KprobeCopySlots(k: nat)
    requires 30 <= k < 48
    ensures SlotCodable(KPROBE_OBJECT, k) && Spelt(RawAt(KPROBE_OBJECT, k), KprobeBytesAt(k))
  {
    hide Low32, High32, Signed32, Hex, Pair, Quad, KprobeCountBytesAt, KprobeIdentifyBytesAt, KprobeGlobalBytesAt, KprobeEmitBytesAt, CountAt, EmitAt;
    SmallHalves();
    HexRows();
    SmallNumbers();
  }

  lemma KprobeGlobalSlots(k: nat)
    requires 48 <= k < 64
    ensures SlotCodable(KPROBE_OBJECT, k) && Spelt(RawAt(KPROBE_OBJECT, k), KprobeBytesAt(k))
  {
    hide Low32, High32, Signed32, Hex, Pair, Quad, KprobeCountBytesAt, KprobeIdentifyBytesAt, KprobeCopyBytesAt, KprobeEmitBytesAt, CountAt, IdentifyAt;
    SmallHalves();
    HexRows();
    SmallNumbers();
  }

  lemma KprobeEmitSlots1(k: nat)
    requires 64 <= k < 70
    ensures SlotCodable(KPROBE_OBJECT, k) && Spelt(RawAt(KPROBE_OBJECT, k), KprobeBytesAt(k))
  {
    hide Low32, High32, Signed32, Hex, Pair, Quad, KprobeCountBytesAt, KprobeIdentifyBytesAt, KprobeCopyBytesAt, KprobeGlobalBytesAt, CountAt, IdentifyAt, CopyAt;
    SmallHalves();
    HexRows();
    SmallNumbers();
  }

  lemma KprobeEmitSlots2(k: nat)
    requires 70 <= k < 77
    ensures SlotCodable(KPROBE_OBJECT, k) && Spelt(RawAt(KPROBE_OBJECT, k), KprobeBytesAt(k))
  {
    hide Low32, High32, Signed32, Hex, Pair, Quad, KprobeCountBytesAt, KprobeIdentifyBytesAt, KprobeCopyBytesAt, KprobeGlobalBytesAt, CountAt, IdentifyAt, CopyAt;
    SmallHalves();
    HexRows();
    SmallNumbers();
  }

  lemma KprobeEmitSlots3(k: nat)
    requires 77 <= k < 89
    ensures SlotCodable(KPROBE_OBJECT, k) && Spelt(RawAt(KPROBE_OBJECT, k), KprobeBytesAt(k))
  {
    hide Low32, High32, Signed32, Hex, Pair, Quad, KprobeCountBytesAt, KprobeIdentifyBytesAt, KprobeCopyBytesAt, KprobeGlobalBytesAt, CountAt, IdentifyAt, CopyAt;
    SmallHalves();
    HexRows();
    SmallNumbers();
  }

  const HELLO_RELOCS: Relocs := map[6 := MapRef(CounterTable), 18 := MapRef(CounterTable)]
  const XDP_RELOCS: Relocs := map[13 := RodataRef, 25 := RodataRef]
  const KPROBE_RELOCS: Relocs :=
    map[1 := DataRef, 25 := MapRef(MyConfig), 33 := RodataRef, 45 := MessageRef, 48 := DataRef, 52 := MessageRef,
        58 := RodataRef, 70 := RodataRef, 81 := MapRef(OutputMap)]

  lemma HelloRelocs()
    ensures RelocsOf(HELLO_OBJECT) == HELLO_RELOCS
  {
  }

  lemma XdpRelocs()
    ensures RelocsOf(XDP) == XDP_RELOCS
  {
  }

  lemma KprobeSymbols(k: nat)
    requires k < 89
    ensures KprobeObjectAt(k).LoadSym? <==> k in KPROBE_RELOCS
    ensures k in KPROBE_RELOCS ==> KprobeObjectAt(k).sym == KPROBE_RELOCS[k]
  {
  }

  lemma KprobeRelocs()
    ensures RelocsOf(KPROBE_OBJECT) == KPROBE_RELOCS
  {
    hide KprobeObjectAt;
    forall k: nat ensures k in RelocsOf(KPROBE_OBJECT) <==> k in KPROBE_RELOCS {
      if k < 89 { KprobeSymbols(k); }
    }
    forall k: nat | k in KPROBE_RELOCS ensures RelocsOf(KPROBE_OBJECT)[k] == KPROBE_RELOCS[k] { KprobeSymbols(k); }
  }

  /** The bytes listed for hello are its encoding, and decode to it. */
  lemma HelloBytes()
    ensures Codable(HELLO_OBJECT) && Encode(HELLO_OBJECT) == (Joined(HelloBytesAt, 24), HELLO_RELOCS)
    ensures Decode(Joined(HelloBytesAt, 24), HELLO_RELOCS) == M.Some(HELLO_OBJECT)
  {
    hide SlotCodable, RawAt, Spelt, Joined, HelloObjectAt;
    forall k: nat | k < 24 ensures SlotCodable(HELLO_OBJECT, k) && Spelt(RawAt(HELLO_OBJECT, k), HelloBytesAt(k)) {
      if k < 12 { HelloSlots1(k); } else { HelloSlots2(k); }
    }
    EncodedAs(HELLO_OBJECT, HelloBytesAt);
    HelloRelocs();
    EncodeDecode(HELLO_OBJECT);
  }

  /** The bytes listed for xdp_drop_prog are its encoding, and decode to it. */
  lemma XdpBytes()
    ensures Codable(XDP) && Encode(XDP) == (Joined(XdpBytesAt, 31), XDP_RELOCS)
    ensures Decode(Joined(XdpBytesAt, 31), XDP_RELOCS) == M.Some(XDP)
  {
    hide SlotCodable, RawAt, Spelt, Joined, XdpAt;
    forall k: nat | k < 31 ensures SlotCodable(XDP, k) && Spelt(RawAt(XDP, k), XdpBytesAt(k)) {
      if k < 13 { XdpSlots1(k); } else if k < 22 { XdpSlots2(k); } else { XdpSlots3(k); }
    }
    EncodedAs(XDP, XdpBytesAt);
    XdpRelocs();
    EncodeDecode(XDP);
  }

  /** The bytes listed for kprobe_exec are its encoding, and decode to it. */
  lemma KprobeBytes()
    ensures Codable(KPROBE_OBJECT) && Encode(KPROBE_OBJECT) == (Joined(KprobeBytesAt, 89), KPROBE_RELOCS)
    ensures Decode(Joined(KprobeBytesAt, 89), KPROBE_RELOCS) == M.Some(KPROBE_OBJECT)
  {
    hide SlotCodable, RawAt, Spelt, Joined, KprobeObjectAt;
    forall k: nat | k < 89 ensures SlotCodable(KPROBE_OBJECT, k) && Spelt(RawAt(KPROBE_OBJECT, k), KprobeBytesAt(k)) {
      if k < 16 { KprobeCountSlots(k); } else if k < 30 { KprobeIdentifySlots(k); } else if k < 48 { KprobeCopySlots(k); }
      else if k < 64 { KprobeGlobalSlots(k); } else if k < 70 { KprobeEmitSlots1(k); }
      else if k < 77 { KprobeEmitSlots2(k); } else { KprobeEmitSlots3(k); }
    }
    EncodedAs(KPROBE_OBJECT, KprobeBytesAt);
    KprobeRelocs();
    EncodeDecode(KPROBE_OBJECT);
  }
}
