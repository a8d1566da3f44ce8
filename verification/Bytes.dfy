/** Bytes, and the little-endian layout in which the devices keep wider values in memory. */
module Bytes {
  type byte = bv8

  function Bytes16(v: bv16): (s: seq<byte>)
    ensures |s| == 2
  {
    [(v & 0xff) as byte, (v >> 8) as byte]
  }

  function Value16(s: seq<byte>): bv16
    requires |s| == 2
  {
    (s[0] as bv16) | (s[1] as bv16 << 8)
  }

  function Bytes32(v: bv32): (s: seq<byte>)
    ensures |s| == 4
  {
    [(v & 0xff) as byte, ((v >> 8) & 0xff) as byte, ((v >> 16) & 0xff) as byte, (v >> 24) as byte]
  }

  function Value32(s: seq<byte>): bv32
    requires |s| == 4
  {
    (s[0] as bv32) | (s[1] as bv32 << 8) | (s[2] as bv32 << 16) | (s[3] as bv32 << 24)
  }

  lemma NextByte(b: byte)
    requires b as nat < 255
    ensures (b + 1) as nat == b as nat + 1
  {}

  /** The byte of a number. */
  function ByteOf(x: nat): (b: byte)
    requires x < 256
    ensures b as nat == x
  {
    if x == 0 then 0
    else
      var before := ByteOf(x - 1);
      NextByte(before);
      before + 1
  }

  lemma RoundTrip16(v: bv16)
    ensures Value16(Bytes16(v)) == v
  {}

  lemma RoundTrip32(v: bv32)
    ensures Value32(Bytes32(v)) == v
  {}

  lemma Layout32(s: seq<byte>)
    requires |s| == 4
    ensures Bytes32(Value32(s)) == s
  {}

  // Four 32-bit fields in a row.

  function FourWords(a: bv32, b: bv32, c: bv32, d: bv32): (s: seq<byte>)
    ensures |s| == 16
  {
    Bytes32(a) + Bytes32(b) + Bytes32(c) + Bytes32(d)
  }

  lemma FourWordsFields(a: bv32, b: bv32, c: bv32, d: bv32)
    ensures var s := FourWords(a, b, c, d);
            Value32(s[0..4]) == a && Value32(s[4..8]) == b && Value32(s[8..12]) == c && Value32(s[12..16]) == d
  {
    hide Value32, Bytes32;
    RoundTrip32(a);
    RoundTrip32(b);
    RoundTrip32(c);
    RoundTrip32(d);
    var s := FourWords(a, b, c, d);
    assert s[0..4] == Bytes32(a) && s[4..8] == Bytes32(b);
    assert s[8..12] == Bytes32(c) && s[12..16] == Bytes32(d);
  }

  /** A slot number of a 16-entry ring as a host writes it to a register. */
  function SlotWord(k: nat): (v: bv32)
    requires k < 16
    ensures v as nat == k && ((v & 0xFFFF) as bv16) as nat == k
  {
    match k
    case 0 => 0 case 1 => 1 case 2 => 2 case 3 => 3 case 4 => 4 case 5 => 5 case 6 => 6 case 7 => 7
    case 8 => 8 case 9 => 9 case 10 => 10 case 11 => 11 case 12 => 12 case 13 => 13 case 14 => 14 case _ => 15
  }

  // ---------- 64-bit registers written in two halves ----------

  const TWO_TO_THE_32 := 0x1_0000_0000
  const TWO_TO_THE_64 := 0x1_0000_0000_0000_0000

  function WithLow(x: nat, val: bv32): nat {
    x / TWO_TO_THE_32 * TWO_TO_THE_32 + val as nat
  }

  function WithHigh(x: nat, val: bv32): nat {
    val as nat * TWO_TO_THE_32 + x % TWO_TO_THE_32
  }

  /** Writing both halves sets the register, whatever it held. */
  lemma BothHalves(x: nat, lo: bv32, hi: bv32)
    ensures WithHigh(WithLow(x, lo), hi) == hi as nat * TWO_TO_THE_32 + lo as nat == WithLow(WithHigh(x, hi), lo)
  {
    var l, h := lo as nat, hi as nat;
    Remainders(x / TWO_TO_THE_32, l);
    Remainders(h, x % TWO_TO_THE_32);
  }

  /** What each half-write leaves, as a number. */
  lemma Halves(x: nat, val: bv32)
    ensures WithLow(x, val) == x - x % 0x1_0000_0000 + val as nat
    ensures WithHigh(x, val) == val as nat * 0x1_0000_0000 + x % 0x1_0000_0000
  {}

  lemma Remainders(q: nat, r: nat)
    requires r < TWO_TO_THE_32
    ensures (q * TWO_TO_THE_32 + r) % TWO_TO_THE_32 == r && (q * TWO_TO_THE_32 + r) / TWO_TO_THE_32 == q
  {}
}
