/** What words, masks and shifts mean as numbers. */
module Numbers {
  import opened Bytes
  import opened Modular

  /** The number of a byte sequence, least significant byte first. */
  function LittleEndian(s: seq<byte>): nat {
    if s == [] then 0 else s[0] as nat + 256 * LittleEndian(s[1..])
  }

  // ---------- Words as a high and a low part ----------

  lemma SameWord(x: bv32, y: bv32)
    requires x == y
    ensures x as nat == y as nat
  {}

  lemma SameHalfword(x: bv16, y: bv16)
    requires x == y
    ensures x as nat == y as nat
  {}

  function Join1(hi: bv31, lo: bv1): bv32 {
    (hi as bv32 << 1) | (lo as bv32)
  }

  function High1(x: bv32): bv31 {
    (x >> 1) as bv31
  }

  function Low1(x: bv32): bv1 {
    (x & 1) as bv1
  }

  lemma Joined1(hi: bv31, lo: bv1)
    ensures Join1(hi, lo) as nat == 2 * hi as nat + lo as nat
  {
    Concat1(hi, lo);
    SameWord(Join1(hi, lo), (hi as bv32 << 1) | (lo as bv32));
  }

  lemma Concat1(hi: bv31, lo: bv1)
    ensures ((hi as bv32 << 1) | (lo as bv32)) as nat == 2 * hi as nat + lo as nat
  {}

  lemma Parts1(x: bv32)
    ensures x == Join1(High1(x), Low1(x))
  {}

  lemma Sum1(x: bv32)
    ensures x as nat == 2 * High1(x) as nat + Low1(x) as nat
  {
    hide Join1, High1, Low1;
    Parts1(x);
    Joined1(High1(x), Low1(x));
  }

  function Join2(hi: bv30, lo: bv2): bv32 {
    (hi as bv32 << 2) | (lo as bv32)
  }

  function High2(x: bv32): bv30 {
    (x >> 2) as bv30
  }

  function Low2(x: bv32): bv2 {
    (x & 3) as bv2
  }

  lemma Joined2(hi: bv30, lo: bv2)
    ensures Join2(hi, lo) as nat == 4 * hi as nat + lo as nat
  {
    Concat2(hi, lo);
    SameWord(Join2(hi, lo), (hi as bv32 << 2) | (lo as bv32));
  }

  lemma Concat2(hi: bv30, lo: bv2)
    ensures ((hi as bv32 << 2) | (lo as bv32)) as nat == 4 * hi as nat + lo as nat
  {}

  lemma Parts2(x: bv32)
    ensures x == Join2(High2(x), Low2(x))
  {}

  lemma Sum2(x: bv32)
    ensures x as nat == 4 * High2(x) as nat + Low2(x) as nat
  {
    hide Join2, High2, Low2;
    Parts2(x);
    Joined2(High2(x), Low2(x));
  }

  function Join12(hi: bv20, lo: bv12): bv32 {
    (hi as bv32 << 12) | (lo as bv32)
  }

  function High12(x: bv32): bv20 {
    (x >> 12) as bv20
  }

  function Low12(x: bv32): bv12 {
    (x & 0xFFF) as bv12
  }

  lemma Joined12(hi: bv20, lo: bv12)
    ensures Join12(hi, lo) as nat == 4096 * hi as nat + lo as nat
  {
    Concat12(hi, lo);
    SameWord(Join12(hi, lo), (hi as bv32 << 12) | (lo as bv32));
  }

  lemma Concat12(hi: bv20, lo: bv12)
    ensures ((hi as bv32 << 12) | (lo as bv32)) as nat == 4096 * hi as nat + lo as nat
  {}

  lemma Parts12(x: bv32)
    ensures x == Join12(High12(x), Low12(x))
  {}

  lemma Sum12(x: bv32)
    ensures x as nat == 4096 * High12(x) as nat + Low12(x) as nat
  {
    hide Join12, High12, Low12;
    Parts12(x);
    Joined12(High12(x), Low12(x));
  }

  function Join16(hi: bv16, lo: bv16): bv32 {
    (hi as bv32 << 16) | (lo as bv32)
  }

  function High16(x: bv32): bv16 {
    (x >> 16) as bv16
  }

  function Low16(x: bv32): bv16 {
    (x & 0xFFFF) as bv16
  }

  lemma Joined16(hi: bv16, lo: bv16)
    ensures Join16(hi, lo) as nat == 65536 * hi as nat + lo as nat
  {
    Concat16(hi, lo);
    SameWord(Join16(hi, lo), (hi as bv32 << 16) | (lo as bv32));
  }

  lemma Concat16(hi: bv16, lo: bv16)
    ensures ((hi as bv32 << 16) | (lo as bv32)) as nat == 65536 * hi as nat + lo as nat
  {}

  lemma Parts16(x: bv32)
    ensures x == Join16(High16(x), Low16(x))
  {}

  lemma Sum16(x: bv32)
    ensures x as nat == 65536 * High16(x) as nat + Low16(x) as nat
  {
    hide Join16, High16, Low16;
    Parts16(x);
    Joined16(High16(x), Low16(x));
  }

  function Join8(hi: bv8, lo: bv8): bv16 {
    (hi as bv16 << 8) | (lo as bv16)
  }

  function High8(x: bv16): bv8 {
    (x >> 8) as bv8
  }

  function Low8(x: bv16): bv8 {
    (x & 0xFF) as bv8
  }

  lemma Joined8(hi: bv8, lo: bv8)
    ensures Join8(hi, lo) as nat == 256 * hi as nat + lo as nat
  {
    Concat8(hi, lo);
    SameHalfword(Join8(hi, lo), (hi as bv16 << 8) | (lo as bv16));
  }

  lemma Concat8(hi: bv8, lo: bv8)
    ensures ((hi as bv16 << 8) | (lo as bv16)) as nat == 256 * hi as nat + lo as nat
  {}

  lemma Parts8(x: bv16)
    ensures x == Join8(High8(x), Low8(x))
  {}

  lemma Sum8(x: bv16)
    ensures x as nat == 256 * High8(x) as nat + Low8(x) as nat
  {
    hide Join8, High8, Low8;
    Parts8(x);
    Joined8(High8(x), Low8(x));
  }

  lemma FourBytes(a: byte, b: byte, c: byte, d: byte)
    ensures ((a as bv32) | (b as bv32 << 8) | (c as bv32 << 16) | (d as bv32 << 24)) as nat
            == a as nat + 256 * b as nat + 65536 * c as nat + 16777216 * d as nat
  {}

  // ---------- Masks ----------

  /** The lowest bit is the remainder by two. */
  lemma LowBit(x: bv32)
    ensures x & 1 != 0 <==> x as nat % 2 == 1
  {
    LowIsOne(x);
    Sum1(x);
    hide Low1, High1;
    Parity(x as nat, High1(x) as nat, Low1(x));
  }

  lemma LowIsOne(x: bv32)
    ensures x & 1 != 0 <==> Low1(x) == 1
  {}

  lemma Parity(n: nat, hi: nat, lo: bv1)
    requires n == 2 * hi + lo as nat
    ensures n % 2 == 1 <==> lo == 1
  {
    if lo == 1 {
      ModOf(n, hi, 1, 2);
    } else {
      assert lo == 0;
      ModOf(n, hi, 0, 2);
    }
  }

  function WithLowBit(x: bv32): bv32 {
    x | 1
  }

  function WithoutLowBit(x: bv32): bv32 {
    x & 0xFFFFFFFE
  }

  /** Setting and clearing the lowest bit. */
  lemma LowBitSet(x: bv32)
    ensures WithLowBit(x) as nat == x as nat - x as nat % 2 + 1
    ensures WithoutLowBit(x) as nat == x as nat - x as nat % 2
  {
    hide High1, Low1, Join1, WithLowBit, WithoutLowBit;
    Sum1(x);
    SetParts(x);
    Joined1(High1(x), 1);
    Joined1(High1(x), 0);
    OneBit(Low1(x));
    ModOf(x as nat, High1(x) as nat, Low1(x) as nat, 2);
  }

  lemma SetParts(x: bv32)
    ensures WithLowBit(x) == Join1(High1(x), 1) && WithoutLowBit(x) == Join1(High1(x), 0)
  {}

  lemma OneBit(b: bv1)
    ensures b as nat < 2
  {}

  lemma SecondBit(x: bv32)
    ensures x & 2 != 0 <==> x as nat % 4 >= 2
  {
    LowIsTwo(x);
    Sum2(x);
    hide Low2, High2;
    Quarters(x as nat, High2(x) as nat, Low2(x));
  }

  lemma LowIsTwo(x: bv32)
    ensures x & 2 != 0 <==> Low2(x) == 2 || Low2(x) == 3
  {}

  lemma Quarters(n: nat, hi: nat, lo: bv2)
    requires n == 4 * hi + lo as nat
    ensures n % 4 >= 2 <==> lo == 2 || lo == 3
  {
    if lo == 0 {
      ModOf(n, hi, 0, 4);
    } else if lo == 1 {
      ModOf(n, hi, 1, 4);
    } else if lo == 2 {
      ModOf(n, hi, 2, 4);
    } else {
      assert lo == 3;
      ModOf(n, hi, 3, 4);
    }
  }

  lemma TwelveBits(x: bv32)
    ensures ((x & 0xFFF) as bv12) as nat == x as nat % 4096
  {
    LowTwelve(x);
    hide Low12, High12;
    Sum12(x);
    ModOf(x as nat, High12(x) as nat, Low12(x) as nat, 4096);
  }

  lemma LowTwelve(x: bv32)
    ensures ((x & 0xFFF) as bv12) as nat == Low12(x) as nat
  {}

  /** The two halves of a word are its remainder and quotient by 65536. */
  lemma Halfwords(x: bv32)
    ensures ((x & 0xFFFF) as bv16) as nat == x as nat % 65536
    ensures ((x >> 16) as bv16) as nat == x as nat / 65536
  {
    LowSixteen(x);
    HighSixteen(x);
    HalfSums(x);
    hide Low16, High16;
  }

  lemma LowSixteen(x: bv32)
    ensures ((x & 0xFFFF) as bv16) as nat == Low16(x) as nat
  {}

  lemma HighSixteen(x: bv32)
    ensures ((x >> 16) as bv16) as nat == High16(x) as nat
  {}

  lemma HalfSums(x: bv32)
    ensures Low16(x) as nat == x as nat % 65536 && High16(x) as nat == x as nat / 65536
  {
    hide Low16, High16;
    Sum16(x);
    QuotientUnique(High16(x) as nat, Low16(x) as nat, x as nat / 65536, x as nat % 65536, 65536);
  }

  // ---------- Values in memory ----------

  lemma Number2(s: seq<byte>)
    requires |s| == 2
    ensures LittleEndian(s) == s[0] as nat + 256 * s[1] as nat
  {
    LeadingByte(s);
    LeadingByte(s[1..]);
    assert s[1..][1..] == [];
  }

  lemma Number4(s: seq<byte>)
    requires |s| == 4
    ensures LittleEndian(s) == s[0] as nat + 256 * s[1] as nat + 65536 * s[2] as nat + 16777216 * s[3] as nat
  {
    var t := s[2..];
    assert s[1..][1..] == t;
    Number2(t);
  }

  lemma Value16Number(s: seq<byte>)
    requires |s| == 2
    ensures Value16(s) as nat == LittleEndian(s)
  {
    assert Value16(s) == Join8(s[1], s[0]);
    hide Value16, Join8;
    Joined8(s[1], s[0]);
    Number2(s);
  }

  lemma Value32Number(s: seq<byte>)
    requires |s| == 4
    ensures Value32(s) as nat == LittleEndian(s)
  {
    FourBytes(s[0], s[1], s[2], s[3]);
    Number4(s);
  }

  /** The low bits of a word are those of its first byte. */
  lemma LowestByte(s: seq<byte>)
    requires |s| == 4
    ensures Value32(s) as nat % 2 == s[0] as nat % 2 && Value32(s) as nat % 4 == s[0] as nat % 4
  {
    hide Value32, LittleEndian;
    Value32Number(s);
    LeadingByte(s);
    AboveDigits(Value32(s) as nat, s[0] as nat, LittleEndian(s[1..]));
  }

  lemma AboveDigits(n: nat, x: nat, q: nat)
    requires n == x + 256 * q
    ensures n % 2 == x % 2 && n % 4 == x % 4
  {
    ModOf(n, x / 2 + 128 * q, x % 2, 2);
    ModOf(n, x / 4 + 64 * q, x % 4, 4);
  }

  lemma WordNumber(val: bv32)
    ensures LittleEndian(Bytes32(val)) == val as nat
  {
    hide Bytes32, Value32, LittleEndian;
    RoundTrip32(val);
    Value32Number(Bytes32(val));
  }

  lemma {:induction false} LittleEndianJoins(s: seq<byte>, t: seq<byte>)
    requires |s| == 4
    ensures LittleEndian(s + t) == LittleEndian(s) + TWO_TO_THE_32 * LittleEndian(t)
  {
    var u := s + t;
    assert u[1..][1..][1..][1..] == t && s[1..][1..][1..][1..] == [];
    assert u[0] == s[0] && u[1..][0] == s[1] && u[1..][1..][0] == s[2] && u[1..][1..][1..][0] == s[3];
    assert s[1..][0] == s[1] && s[1..][1..][0] == s[2] && s[1..][1..][1..][0] == s[3];
    LeadingByte(u);
    LeadingByte(u[1..]);
    LeadingByte(u[1..][1..]);
    LeadingByte(u[1..][1..][1..]);
    LeadingByte(s);
    LeadingByte(s[1..]);
    LeadingByte(s[1..][1..]);
    LeadingByte(s[1..][1..][1..]);
  }

  lemma LeadingByte(s: seq<byte>)
    requires s != []
    ensures LittleEndian(s) == s[0] as nat + 256 * LittleEndian(s[1..])
  {}

  /** Eight bytes as a low and a high word. */
  lemma TwoWords(s: seq<byte>)
    requires |s| == 8
    ensures Value32(s[4..8]) as nat * TWO_TO_THE_32 + Value32(s[0..4]) as nat == LittleEndian(s)
  {
    hide Value32, LittleEndian;
    Value32Number(s[0..4]);
    Value32Number(s[4..8]);
    LittleEndianJoins(s[0..4], s[4..8]);
    assert s == s[0..4] + s[4..8];
  }

  // ---------- Counting ----------

  function SuccByte(x: byte): byte {
    x + 1
  }

  function SuccHalfword(x: bv16): bv16 {
    x + 1
  }

  /** A 16-bit counter goes up by one and comes round after 65535. */
  lemma NextHalfword(x: bv16)
    ensures SuccHalfword(x) as nat == if x as nat == 65535 then 0 else x as nat + 1
  {
    hide Low8, High8, SuccHalfword;
    if Low8(x) != 0xFF {
      NoCarry(x);
    } else if High8(x) != 0xFF {
      Carry(x);
    } else {
      Wrap(x);
    }
  }

  lemma NoCarry(x: bv16)
    requires Low8(x) != 0xFF
    ensures SuccHalfword(x) as nat == x as nat + 1 < 65536
  {
    hide Join8, High8, Low8, SuccByte, SuccHalfword;
    Sum8(x);
    Carries(x);
    Joined8(High8(x), SuccByte(Low8(x)));
    BelowTop(Low8(x));
  }

  lemma Carry(x: bv16)
    requires Low8(x) == 0xFF && High8(x) != 0xFF
    ensures SuccHalfword(x) as nat == x as nat + 1 < 65536
  {
    hide Join8, High8, Low8, SuccByte, SuccHalfword;
    Sum8(x);
    Carries(x);
    Joined8(SuccByte(High8(x)), 0);
    BelowTop(High8(x));
    Top(Low8(x));
  }

  lemma Wrap(x: bv16)
    requires Low8(x) == 0xFF && High8(x) == 0xFF
    ensures SuccHalfword(x) as nat == 0 && x as nat == 65535
  {
    hide High8, Low8, SuccHalfword;
    Sum8(x);
    Carries(x);
    Top(Low8(x));
    Top(High8(x));
  }

  lemma Top(x: byte)
    requires x == 0xFF
    ensures x as nat == 255
  {}

  lemma Carries(x: bv16)
    ensures SuccHalfword(x) ==
            if Low8(x) != 0xFF then Join8(High8(x), SuccByte(Low8(x)))
            else if High8(x) != 0xFF then Join8(SuccByte(High8(x)), 0)
            else 0
  {}

  lemma BelowTop(x: byte)
    requires x != 0xFF
    ensures x as nat < 255 && SuccByte(x) as nat == x as nat + 1
  {
    assert (x as nat) as byte == x;
    NextByte(x);
  }
}
