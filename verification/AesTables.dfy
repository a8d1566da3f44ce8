/** The engine's byte tables, row by row as the source lists them, and the proof that
    they are the substitution of FIPS 197, section 5.1.1: take the inverse in GF(2^8),
    then apply the affine map. Every row carries its meaning as its contract. */
module AesTables {
  import opened Bytes
  import opened Gf256

  // ---------- The affine map of section 5.1.1 and its inverse ----------

  function Rotate(x: byte, n: nat): byte
    requires n <= 8
  {
    (x << n) | (x >> (8 - n))
  }

  function Affine(x: byte): byte {
    x ^ Rotate(x, 1) ^ Rotate(x, 2) ^ Rotate(x, 3) ^ Rotate(x, 4) ^ 0x63
  }

  function InvAffine(x: byte): byte {
    ((x << 1) | (x >> 7)) ^ ((x << 3) | (x >> 5)) ^ ((x << 6) | (x >> 2)) ^ 0x05
  }

  predicate Bit(x: byte, i: nat)
    requires i < 8
  {
    Coefficient(x as bv16, i)
  }

  /** Equation (5.1) of the standard, bit by bit. */
  lemma AffineBits(x: byte, i: nat)
    requires i < 8
    ensures Bit(Affine(x), i) ==
            (((((Bit(x, i) != Bit(x, (i + 7) % 8)) != Bit(x, (i + 6) % 8))
            != Bit(x, (i + 5) % 8)) != Bit(x, (i + 4) % 8)) != Bit(0x63, i))
  {
    var r1, r2, r3, r4 := Rotate(x, 1), Rotate(x, 2), Rotate(x, 3), Rotate(x, 4);
    var s2 := Add(Add(x, r1), r2);
    assert Affine(x) == Add(Add(Add(s2, r3), r4), 0x63);
    hide Affine, Rotate, Add, Bit;
    RotateBit1(x, i);
    RotateBit2(x, i);
    RotateBit3(x, i);
    RotateBit4(x, i);
    AddBit(x, r1, i);
    AddBit(Add(x, r1), r2, i);
    AddBit(s2, r3, i);
    AddBit(Add(s2, r3), r4, i);
    AddBit(Add(Add(s2, r3), r4), 0x63, i);
  }

  lemma AddBit(x: byte, y: byte, i: nat)
    requires i < 8
    ensures Bit(Add(x, y), i) == (Bit(x, i) != Bit(y, i))
  {
    hide Add, Coefficient;
    Widen(x, y);
    CoefficientPlus(x as bv16, y as bv16, i);
  }

  lemma CoefficientMask(a: byte)
    ensures Coefficient(a as bv16, 0) == (a & 0x01 != 0) && Coefficient(a as bv16, 1) == (a & 0x02 != 0)
    ensures Coefficient(a as bv16, 2) == (a & 0x04 != 0) && Coefficient(a as bv16, 3) == (a & 0x08 != 0)
    ensures Coefficient(a as bv16, 4) == (a & 0x10 != 0) && Coefficient(a as bv16, 5) == (a & 0x20 != 0)
    ensures Coefficient(a as bv16, 6) == (a & 0x40 != 0) && Coefficient(a as bv16, 7) == (a & 0x80 != 0)
  {}

  lemma RotateMask1(x: byte)
    ensures (Rotate(x, 1) & 0x01 != 0) == (x & 0x80 != 0) && (Rotate(x, 1) & 0x02 != 0) == (x & 0x01 != 0)
    ensures (Rotate(x, 1) & 0x04 != 0) == (x & 0x02 != 0) && (Rotate(x, 1) & 0x08 != 0) == (x & 0x04 != 0)
    ensures (Rotate(x, 1) & 0x10 != 0) == (x & 0x08 != 0) && (Rotate(x, 1) & 0x20 != 0) == (x & 0x10 != 0)
    ensures (Rotate(x, 1) & 0x40 != 0) == (x & 0x20 != 0) && (Rotate(x, 1) & 0x80 != 0) == (x & 0x40 != 0)
  {}

  lemma RotateBit1(x: byte, i: nat)
    requires i < 8
    ensures Bit(Rotate(x, 1), i) == Bit(x, (i + 7) % 8)
  {
    hide Rotate, Coefficient;
    RotateMask1(x);
    CoefficientMask(x);
    CoefficientMask(Rotate(x, 1));
    match i { case 0 => case 1 => case 2 => case 3 => case 4 => case 5 => case 6 => case _ => }
  }

  lemma RotateMask2(x: byte)
    ensures (Rotate(x, 2) & 0x01 != 0) == (x & 0x40 != 0) && (Rotate(x, 2) & 0x02 != 0) == (x & 0x80 != 0)
    ensures (Rotate(x, 2) & 0x04 != 0) == (x & 0x01 != 0) && (Rotate(x, 2) & 0x08 != 0) == (x & 0x02 != 0)
    ensures (Rotate(x, 2) & 0x10 != 0) == (x & 0x04 != 0) && (Rotate(x, 2) & 0x20 != 0) == (x & 0x08 != 0)
    ensures (Rotate(x, 2) & 0x40 != 0) == (x & 0x10 != 0) && (Rotate(x, 2) & 0x80 != 0) == (x & 0x20 != 0)
  {}

  lemma RotateBit2(x: byte, i: nat)
    requires i < 8
    ensures Bit(Rotate(x, 2), i) == Bit(x, (i + 6) % 8)
  {
    hide Rotate, Coefficient;
    RotateMask2(x);
    CoefficientMask(x);
    CoefficientMask(Rotate(x, 2));
    match i { case 0 => case 1 => case 2 => case 3 => case 4 => case 5 => case 6 => case _ => }
  }

  lemma RotateMask3(x: byte)
    ensures (Rotate(x, 3) & 0x01 != 0) == (x & 0x20 != 0) && (Rotate(x, 3) & 0x02 != 0) == (x & 0x40 != 0)
    ensures (Rotate(x, 3) & 0x04 != 0) == (x & 0x80 != 0) && (Rotate(x, 3) & 0x08 != 0) == (x & 0x01 != 0)
    ensures (Rotate(x, 3) & 0x10 != 0) == (x & 0x02 != 0) && (Rotate(x, 3) & 0x20 != 0) == (x & 0x04 != 0)
    ensures (Rotate(x, 3) & 0x40 != 0) == (x & 0x08 != 0) && (Rotate(x, 3) & 0x80 != 0) == (x & 0x10 != 0)
  {}

  lemma RotateBit3(x: byte, i: nat)
    requires i < 8
    ensures Bit(Rotate(x, 3), i) == Bit(x, (i + 5) % 8)
  {
    hide Rotate, Coefficient;
    RotateMask3(x);
    CoefficientMask(x);
    CoefficientMask(Rotate(x, 3));
    match i { case 0 => case 1 => case 2 => case 3 => case 4 => case 5 => case 6 => case _ => }
  }

  lemma RotateMask4(x: byte)
    ensures (Rotate(x, 4) & 0x01 != 0) == (x & 0x10 != 0) && (Rotate(x, 4) & 0x02 != 0) == (x & 0x20 != 0)
    ensures (Rotate(x, 4) & 0x04 != 0) == (x & 0x40 != 0) && (Rotate(x, 4) & 0x08 != 0) == (x & 0x80 != 0)
    ensures (Rotate(x, 4) & 0x10 != 0) == (x & 0x01 != 0) && (Rotate(x, 4) & 0x20 != 0) == (x & 0x02 != 0)
    ensures (Rotate(x, 4) & 0x40 != 0) == (x & 0x04 != 0) && (Rotate(x, 4) & 0x80 != 0) == (x & 0x08 != 0)
  {}

  lemma RotateBit4(x: byte, i: nat)
    requires i < 8
    ensures Bit(Rotate(x, 4), i) == Bit(x, (i + 4) % 8)
  {
    hide Rotate, Coefficient;
    RotateMask4(x);
    CoefficientMask(x);
    CoefficientMask(Rotate(x, 4));
    match i { case 0 => case 1 => case 2 => case 3 => case 4 => case 5 => case 6 => case _ => }
  }

  lemma InvAffineInverts(x: byte)
    ensures Affine(InvAffine(x)) == x
  {}

  // ---------- The tables ----------

  /** The sum of those b_i for which bit i of a is set. */
  function Pick(a: byte, b0: byte, b1: byte, b2: byte, b3: byte, b4: byte, b5: byte, b6: byte, b7: byte): byte {
    Add(Add(Add(Add(Add(Add(Add(if a & 0x01 != 0 then b0 else 0,
                                if a & 0x02 != 0 then b1 else 0), if a & 0x04 != 0 then b2 else 0),
                        if a & 0x08 != 0 then b3 else 0), if a & 0x10 != 0 then b4 else 0),
                if a & 0x20 != 0 then b5 else 0), if a & 0x40 != 0 then b6 else 0), if a & 0x80 != 0 then b7 else 0)
  }

  /** Mul written out as eight doublings. */
  function Times(a: byte, b: byte): byte {
    var b1 := Xtime(b);
    var b2 := Xtime(b1);
    var b3 := Xtime(b2);
    var b4 := Xtime(b3);
    var b5 := Xtime(b4);
    var b6 := Xtime(b5);
    Pick(a, b, b1, b2, b3, b4, b5, b6, Xtime(b6))
  }

  /** The same in plain shifts and exclusive ors, cheap enough to check a table row with. */
  function QuickTimes(a: byte, b: byte): byte {
    var b1 := (b << 1) ^ (if b & 0x80 != 0 then 0x1b else 0x00);
    var b2 := (b1 << 1) ^ (if b1 & 0x80 != 0 then 0x1b else 0x00);
    var b3 := (b2 << 1) ^ (if b2 & 0x80 != 0 then 0x1b else 0x00);
    var b4 := (b3 << 1) ^ (if b3 & 0x80 != 0 then 0x1b else 0x00);
    var b5 := (b4 << 1) ^ (if b4 & 0x80 != 0 then 0x1b else 0x00);
    var b6 := (b5 << 1) ^ (if b5 & 0x80 != 0 then 0x1b else 0x00);
    var b7 := (b6 << 1) ^ (if b6 & 0x80 != 0 then 0x1b else 0x00);
    Pick(a, b, b1, b2, b3, b4, b5, b6, b7)
  }

  lemma QuickIsTimes(a: byte, b: byte)
    ensures QuickTimes(a, b) == Times(a, b)
  {
    hide Pick;
  }

  /** v is what the substitution makes of x. */
  predicate Substitutes(x: byte, v: byte) {
    if x == 0 then v == 0x63 else QuickTimes(x, InvAffine(v)) == 1
  }

  function SboxRow0(c: bv4): (v: byte)
    ensures Substitutes(0x00 | c as byte, v)
  {
    match c
    case 0 => 0x63 case 1 => 0x7c case 2 => 0x77 case 3 => 0x7b case 4 => 0xf2 case 5 => 0x6b case 6 => 0x6f case 7 => 0xc5
    case 8 => 0x30 case 9 => 0x01 case 10 => 0x67 case 11 => 0x2b case 12 => 0xfe case 13 => 0xd7 case 14 => 0xab case 15 => 0x76
  }

  function SboxRow1(c: bv4): (v: byte)
    ensures Substitutes(0x10 | c as byte, v)
  {
    match c
    case 0 => 0xca case 1 => 0x82 case 2 => 0xc9 case 3 => 0x7d case 4 => 0xfa case 5 => 0x59 case 6 => 0x47 case 7 => 0xf0
    case 8 => 0xad case 9 => 0xd4 case 10 => 0xa2 case 11 => 0xaf case 12 => 0x9c case 13 => 0xa4 case 14 => 0x72 case 15 => 0xc0
  }

  function SboxRow2(c: bv4): (v: byte)
    ensures Substitutes(0x20 | c as byte, v)
  {
    match c
    case 0 => 0xb7 case 1 => 0xfd case 2 => 0x93 case 3 => 0x26 case 4 => 0x36 case 5 => 0x3f case 6 => 0xf7 case 7 => 0xcc
    case 8 => 0x34 case 9 => 0xa5 case 10 => 0xe5 case 11 => 0xf1 case 12 => 0x71 case 13 => 0xd8 case 14 => 0x31 case 15 => 0x15
  }

  function SboxRow3(c: bv4): (v: byte)
    ensures Substitutes(0x30 | c as byte, v)
  {
    match c
    case 0 => 0x04 case 1 => 0xc7 case 2 => 0x23 case 3 => 0xc3 case 4 => 0x18 case 5 => 0x96 case 6 => 0x05 case 7 => 0x9a
    case 8 => 0x07 case 9 => 0x12 case 10 => 0x80 case 11 => 0xe2 case 12 => 0xeb case 13 => 0x27 case 14 => 0xb2 case 15 => 0x75
  }

  function SboxRow4(c: bv4): (v: byte)
    ensures Substitutes(0x40 | c as byte, v)
  {
    match c
    case 0 => 0x09 case 1 => 0x83 case 2 => 0x2c case 3 => 0x1a case 4 => 0x1b case 5 => 0x6e case 6 => 0x5a case 7 => 0xa0
    case 8 => 0x52 case 9 => 0x3b case 10 => 0xd6 case 11 => 0xb3 case 12 => 0x29 case 13 => 0xe3 case 14 => 0x2f case 15 => 0x84
  }

  function SboxRow5(c: bv4): (v: byte)
    ensures Substitutes(0x50 | c as byte, v)
  {
    match c
    case 0 => 0x53 case 1 => 0xd1 case 2 => 0x00 case 3 => 0xed case 4 => 0x20 case 5 => 0xfc case 6 => 0xb1 case 7 => 0x5b
    case 8 => 0x6a case 9 => 0xcb case 10 => 0xbe case 11 => 0x39 case 12 => 0x4a case 13 => 0x4c case 14 => 0x58 case 15 => 0xcf
  }

  function SboxRow6(c: bv4): (v: byte)
    ensures Substitutes(0x60 | c as byte, v)
  {
    match c
    case 0 => 0xd0 case 1 => 0xef case 2 => 0xaa case 3 => 0xfb case 4 => 0x43 case 5 => 0x4d case 6 => 0x33 case 7 => 0x85
    case 8 => 0x45 case 9 => 0xf9 case 10 => 0x02 case 11 => 0x7f case 12 => 0x50 case 13 => 0x3c case 14 => 0x9f case 15 => 0xa8
  }

  function SboxRow7(c: bv4): (v: byte)
    ensures Substitutes(0x70 | c as byte, v)
  {
    match c
    case 0 => 0x51 case 1 => 0xa3 case 2 => 0x40 case 3 => 0x8f case 4 => 0x92 case 5 => 0x9d case 6 => 0x38 case 7 => 0xf5
    case 8 => 0xbc case 9 => 0xb6 case 10 => 0xda case 11 => 0x21 case 12 => 0x10 case 13 => 0xff case 14 => 0xf3 case 15 => 0xd2
  }

  function SboxRow8(c: bv4): (v: byte)
    ensures Substitutes(0x80 | c as byte, v)
  {
    match c
    case 0 => 0xcd case 1 => 0x0c case 2 => 0x13 case 3 => 0xec case 4 => 0x5f case 5 => 0x97 case 6 => 0x44 case 7 => 0x17
    case 8 => 0xc4 case 9 => 0xa7 case 10 => 0x7e case 11 => 0x3d case 12 => 0x64 case 13 => 0x5d case 14 => 0x19 case 15 => 0x73
  }

  function SboxRow9(c: bv4): (v: byte)
    ensures Substitutes(0x90 | c as byte, v)
  {
    match c
    case 0 => 0x60 case 1 => 0x81 case 2 => 0x4f case 3 => 0xdc case 4 => 0x22 case 5 => 0x2a case 6 => 0x90 case 7 => 0x88
    case 8 => 0x46 case 9 => 0xee case 10 => 0xb8 case 11 => 0x14 case 12 => 0xde case 13 => 0x5e case 14 => 0x0b case 15 => 0xdb
  }

  function SboxRowA(c: bv4): (v: byte)
    ensures Substitutes(0xa0 | c as byte, v)
  {
    match c
    case 0 => 0xe0 case 1 => 0x32 case 2 => 0x3a case 3 => 0x0a case 4 => 0x49 case 5 => 0x06 case 6 => 0x24 case 7 => 0x5c
    case 8 => 0xc2 case 9 => 0xd3 case 10 => 0xac case 11 => 0x62 case 12 => 0x91 case 13 => 0x95 case 14 => 0xe4 case 15 => 0x79
  }

  function SboxRowB(c: bv4): (v: byte)
    ensures Substitutes(0xb0 | c as byte, v)
  {
    match c
    case 0 => 0xe7 case 1 => 0xc8 case 2 => 0x37 case 3 => 0x6d case 4 => 0x8d case 5 => 0xd5 case 6 => 0x4e case 7 => 0xa9
    case 8 => 0x6c case 9 => 0x56 case 10 => 0xf4 case 11 => 0xea case 12 => 0x65 case 13 => 0x7a case 14 => 0xae case 15 => 0x08
  }

  function SboxRowC(c: bv4): (v: byte)
    ensures Substitutes(0xc0 | c as byte, v)
  {
    match c
    case 0 => 0xba case 1 => 0x78 case 2 => 0x25 case 3 => 0x2e case 4 => 0x1c case 5 => 0xa6 case 6 => 0xb4 case 7 => 0xc6
    case 8 => 0xe8 case 9 => 0xdd case 10 => 0x74 case 11 => 0x1f case 12 => 0x4b case 13 => 0xbd case 14 => 0x8b case 15 => 0x8a
  }

  function SboxRowD(c: bv4): (v: byte)
    ensures Substitutes(0xd0 | c as byte, v)
  {
    match c
    case 0 => 0x70 case 1 => 0x3e case 2 => 0xb5 case 3 => 0x66 case 4 => 0x48 case 5 => 0x03 case 6 => 0xf6 case 7 => 0x0e
    case 8 => 0x61 case 9 => 0x35 case 10 => 0x57 case 11 => 0xb9 case 12 => 0x86 case 13 => 0xc1 case 14 => 0x1d case 15 => 0x9e
  }

  function SboxRowE(c: bv4): (v: byte)
    ensures Substitutes(0xe0 | c as byte, v)
  {
    match c
    case 0 => 0xe1 case 1 => 0xf8 case 2 => 0x98 case 3 => 0x11 case 4 => 0x69 case 5 => 0xd9 case 6 => 0x8e case 7 => 0x94
    case 8 => 0x9b case 9 => 0x1e case 10 => 0x87 case 11 => 0xe9 case 12 => 0xce case 13 => 0x55 case 14 => 0x28 case 15 => 0xdf
  }

  function SboxRowF(c: bv4): (v: byte)
    ensures Substitutes(0xf0 | c as byte, v)
  {
    match c
    case 0 => 0x8c case 1 => 0xa1 case 2 => 0x89 case 3 => 0x0d case 4 => 0xbf case 5 => 0xe6 case 6 => 0x42 case 7 => 0x68
    case 8 => 0x41 case 9 => 0x99 case 10 => 0x2d case 11 => 0x0f case 12 => 0xb0 case 13 => 0x54 case 14 => 0xbb case 15 => 0x16
  }

  /** aes_sbox */
  function Sbox(x: byte): (v: byte)
    ensures Substitutes(x, v)
  {
    var c := (x & 0xf) as bv4;
    match x >> 4
    case 0x0 => SboxRow0(c) case 0x1 => SboxRow1(c) case 0x2 => SboxRow2(c) case 0x3 => SboxRow3(c)
    case 0x4 => SboxRow4(c) case 0x5 => SboxRow5(c) case 0x6 => SboxRow6(c) case 0x7 => SboxRow7(c)
    case 0x8 => SboxRow8(c) case 0x9 => SboxRow9(c) case 0xa => SboxRowA(c) case 0xb => SboxRowB(c)
    case 0xc => SboxRowC(c) case 0xd => SboxRowD(c) case 0xe => SboxRowE(c) case 0xf => SboxRowF(c)
  }

  function InvSboxRow0(c: bv4): (v: byte)
    ensures Substitutes(v, 0x00 | c as byte)
  {
    match c
    case 0 => 0x52 case 1 => 0x09 case 2 => 0x6a case 3 => 0xd5 case 4 => 0x30 case 5 => 0x36 case 6 => 0xa5 case 7 => 0x38
    case 8 => 0xbf case 9 => 0x40 case 10 => 0xa3 case 11 => 0x9e case 12 => 0x81 case 13 => 0xf3 case 14 => 0xd7 case 15 => 0xfb
  }

  function InvSboxRow1(c: bv4): (v: byte)
    ensures Substitutes(v, 0x10 | c as byte)
  {
    match c
    case 0 => 0x7c case 1 => 0xe3 case 2 => 0x39 case 3 => 0x82 case 4 => 0x9b case 5 => 0x2f case 6 => 0xff case 7 => 0x87
    case 8 => 0x34 case 9 => 0x8e case 10 => 0x43 case 11 => 0x44 case 12 => 0xc4 case 13 => 0xde case 14 => 0xe9 case 15 => 0xcb
  }

  function InvSboxRow2(c: bv4): (v: byte)
    ensures Substitutes(v, 0x20 | c as byte)
  {
    match c
    case 0 => 0x54 case 1 => 0x7b case 2 => 0x94 case 3 => 0x32 case 4 => 0xa6 case 5 => 0xc2 case 6 => 0x23 case 7 => 0x3d
    case 8 => 0xee case 9 => 0x4c case 10 => 0x95 case 11 => 0x0b case 12 => 0x42 case 13 => 0xfa case 14 => 0xc3 case 15 => 0x4e
  }

  function InvSboxRow3(c: bv4): (v: byte)
    ensures Substitutes(v, 0x30 | c as byte)
  {
    match c
    case 0 => 0x08 case 1 => 0x2e case 2 => 0xa1 case 3 => 0x66 case 4 => 0x28 case 5 => 0xd9 case 6 => 0x24 case 7 => 0xb2
    case 8 => 0x76 case 9 => 0x5b case 10 => 0xa2 case 11 => 0x49 case 12 => 0x6d case 13 => 0x8b case 14 => 0xd1 case 15 => 0x25
  }

  function InvSboxRow4(c: bv4): (v: byte)
    ensures Substitutes(v, 0x40 | c as byte)
  {
    match c
    case 0 => 0x72 case 1 => 0xf8 case 2 => 0xf6 case 3 => 0x64 case 4 => 0x86 case 5 => 0x68 case 6 => 0x98 case 7 => 0x16
    case 8 => 0xd4 case 9 => 0xa4 case 10 => 0x5c case 11 => 0xcc case 12 => 0x5d case 13 => 0x65 case 14 => 0xb6 case 15 => 0x92
  }

  function InvSboxRow5(c: bv4): (v: byte)
    ensures Substitutes(v, 0x50 | c as byte)
  {
    match c
    case 0 => 0x6c case 1 => 0x70 case 2 => 0x48 case 3 => 0x50 case 4 => 0xfd case 5 => 0xed case 6 => 0xb9 case 7 => 0xda
    case 8 => 0x5e case 9 => 0x15 case 10 => 0x46 case 11 => 0x57 case 12 => 0xa7 case 13 => 0x8d case 14 => 0x9d case 15 => 0x84
  }

  function InvSboxRow6(c: bv4): (v: byte)
    ensures Substitutes(v, 0x60 | c as byte)
  {
    match c
    case 0 => 0x90 case 1 => 0xd8 case 2 => 0xab case 3 => 0x00 case 4 => 0x8c case 5 => 0xbc case 6 => 0xd3 case 7 => 0x0a
    case 8 => 0xf7 case 9 => 0xe4 case 10 => 0x58 case 11 => 0x05 case 12 => 0xb8 case 13 => 0xb3 case 14 => 0x45 case 15 => 0x06
  }

  function InvSboxRow7(c: bv4): (v: byte)
    ensures Substitutes(v, 0x70 | c as byte)
  {
    match c
    case 0 => 0xd0 case 1 => 0x2c case 2 => 0x1e case 3 => 0x8f case 4 => 0xca case 5 => 0x3f case 6 => 0x0f case 7 => 0x02
    case 8 => 0xc1 case 9 => 0xaf case 10 => 0xbd case 11 => 0x03 case 12 => 0x01 case 13 => 0x13 case 14 => 0x8a case 15 => 0x6b
  }

  function InvSboxRow8(c: bv4): (v: byte)
    ensures Substitutes(v, 0x80 | c as byte)
  {
    match c
    case 0 => 0x3a case 1 => 0x91 case 2 => 0x11 case 3 => 0x41 case 4 => 0x4f case 5 => 0x67 case 6 => 0xdc case 7 => 0xea
    case 8 => 0x97 case 9 => 0xf2 case 10 => 0xcf case 11 => 0xce case 12 => 0xf0 case 13 => 0xb4 case 14 => 0xe6 case 15 => 0x73
  }

  function InvSboxRow9(c: bv4): (v: byte)
    ensures Substitutes(v, 0x90 | c as byte)
  {
    match c
    case 0 => 0x96 case 1 => 0xac case 2 => 0x74 case 3 => 0x22 case 4 => 0xe7 case 5 => 0xad case 6 => 0x35 case 7 => 0x85
    case 8 => 0xe2 case 9 => 0xf9 case 10 => 0x37 case 11 => 0xe8 case 12 => 0x1c case 13 => 0x75 case 14 => 0xdf case 15 => 0x6e
  }

  function InvSboxRowA(c: bv4): (v: byte)
    ensures Substitutes(v, 0xa0 | c as byte)
  {
    match c
    case 0 => 0x47 case 1 => 0xf1 case 2 => 0x1a case 3 => 0x71 case 4 => 0x1d case 5 => 0x29 case 6 => 0xc5 case 7 => 0x89
    case 8 => 0x6f case 9 => 0xb7 case 10 => 0x62 case 11 => 0x0e case 12 => 0xaa case 13 => 0x18 case 14 => 0xbe case 15 => 0x1b
  }

  function InvSboxRowB(c: bv4): (v: byte)
    ensures Substitutes(v, 0xb0 | c as byte)
  {
    match c
    case 0 => 0xfc case 1 => 0x56 case 2 => 0x3e case 3 => 0x4b case 4 => 0xc6 case 5 => 0xd2 case 6 => 0x79 case 7 => 0x20
    case 8 => 0x9a case 9 => 0xdb case 10 => 0xc0 case 11 => 0xfe case 12 => 0x78 case 13 => 0xcd case 14 => 0x5a case 15 => 0xf4
  }

  function InvSboxRowC(c: bv4): (v: byte)
    ensures Substitutes(v, 0xc0 | c as byte)
  {
    match c
    case 0 => 0x1f case 1 => 0xdd case 2 => 0xa8 case 3 => 0x33 case 4 => 0x88 case 5 => 0x07 case 6 => 0xc7 case 7 => 0x31
    case 8 => 0xb1 case 9 => 0x12 case 10 => 0x10 case 11 => 0x59 case 12 => 0x27 case 13 => 0x80 case 14 => 0xec case 15 => 0x5f
  }

  function InvSboxRowD(c: bv4): (v: byte)
    ensures Substitutes(v, 0xd0 | c as byte)
  {
    match c
    case 0 => 0x60 case 1 => 0x51 case 2 => 0x7f case 3 => 0xa9 case 4 => 0x19 case 5 => 0xb5 case 6 => 0x4a case 7 => 0x0d
    case 8 => 0x2d case 9 => 0xe5 case 10 => 0x7a case 11 => 0x9f case 12 => 0x93 case 13 => 0xc9 case 14 => 0x9c case 15 => 0xef
  }

  function InvSboxRowE(c: bv4): (v: byte)
    ensures Substitutes(v, 0xe0 | c as byte)
  {
    match c
    case 0 => 0xa0 case 1 => 0xe0 case 2 => 0x3b case 3 => 0x4d case 4 => 0xae case 5 => 0x2a case 6 => 0xf5 case 7 => 0xb0
    case 8 => 0xc8 case 9 => 0xeb case 10 => 0xbb case 11 => 0x3c case 12 => 0x83 case 13 => 0x53 case 14 => 0x99 case 15 => 0x61
  }

  function InvSboxRowF(c: bv4): (v: byte)
    ensures Substitutes(v, 0xf0 | c as byte)
  {
    match c
    case 0 => 0x17 case 1 => 0x2b case 2 => 0x04 case 3 => 0x7e case 4 => 0xba case 5 => 0x77 case 6 => 0xd6 case 7 => 0x26
    case 8 => 0xe1 case 9 => 0x69 case 10 => 0x14 case 11 => 0x63 case 12 => 0x55 case 13 => 0x21 case 14 => 0x0c case 15 => 0x7d
  }

  /** aes_inv_sbox */
  function InvSbox(x: byte): (v: byte)
    ensures Substitutes(v, x)
  {
    var c := (x & 0xf) as bv4;
    match x >> 4
    case 0x0 => InvSboxRow0(c) case 0x1 => InvSboxRow1(c) case 0x2 => InvSboxRow2(c) case 0x3 => InvSboxRow3(c)
    case 0x4 => InvSboxRow4(c) case 0x5 => InvSboxRow5(c) case 0x6 => InvSboxRow6(c) case 0x7 => InvSboxRow7(c)
    case 0x8 => InvSboxRow8(c) case 0x9 => InvSboxRow9(c) case 0xa => InvSboxRowA(c) case 0xb => InvSboxRowB(c)
    case 0xc => InvSboxRowC(c) case 0xd => InvSboxRowD(c) case 0xe => InvSboxRowE(c) case 0xf => InvSboxRowF(c)
  }

  /** Round constants; Rcon(i) is the table entry i - 1. */
  function Rcon(i: nat): byte
    requires 1 <= i <= 10
  {
    match i
    case 1 => 0x01 case 2 => 0x02 case 3 => 0x04 case 4 => 0x08 case 5 => 0x10
    case 6 => 0x20 case 7 => 0x40 case 8 => 0x80 case 9 => 0x1b case _ => 0x36
  }

  // ---------- The tables are the standard's substitution ----------

  lemma TimesIsMul(a: byte, b: byte)
    ensures Times(a, b) == Mul(a, b)
  {
    hide Mul, Xtime, Add, Coefficient, Doublings, Xtimes;
    MulIsDoublings(a, b);
    CoefficientMask(a);
    AddZero(if Coefficient(a as bv16, 0) then b else 0);
    NextTerm(a, b, 0);
    NextTerm(a, b, 1);
    NextTerm(a, b, 2);
    NextTerm(a, b, 3);
    NextTerm(a, b, 4);
    NextTerm(a, b, 5);
    NextTerm(a, b, 6);
    NextTerm(a, b, 7);
  }

  lemma NextTerm(a: byte, b: byte, k: nat)
    requires k < 8
    ensures Doublings(a, b, 0) == 0 && Xtimes(b, 0) == b
    ensures Xtimes(b, k + 1) == Xtime(Xtimes(b, k))
    ensures Doublings(a, b, k + 1) == Add(Doublings(a, b, k), if Coefficient(a as bv16, k) then Xtimes(b, k) else 0)
  {
    hide Add, Xtime, Coefficient;
  }

  /** The values the substitution can take at x: the affine image of x's inverse. */
  lemma SubstitutesIsInverse(x: byte, v: byte)
    requires Substitutes(x, v)
    ensures IsInverse(x, InvAffine(v))
  {
    assert InvAffine(0x63) == 0;
    QuickIsTimes(x, InvAffine(v));
    TimesIsMul(x, InvAffine(v));
  }

  /** The multiplicative inverse; the S-box is the proof that every byte has one. */
  ghost function GfInverse(x: byte): (y: byte)
    ensures IsInverse(x, y)
  {
    SubstitutesIsInverse(x, Sbox(x));
    var y :| IsInverse(x, y);
    y
  }

  ghost function SubByte(x: byte): byte {
    Affine(GfInverse(x))
  }

  ghost function InvSubByte(v: byte): byte {
    GfInverse(InvAffine(v))
  }

  lemma SubByteUnique(x: byte, v: byte)
    requires Substitutes(x, v)
    ensures v == SubByte(x) && x == InvSubByte(v)
  {
    hide Affine, InvAffine, Substitutes, Sbox, InvSbox;
    SubstitutesIsInverse(x, v);
    InverseUnique(x, InvAffine(v), GfInverse(x));
    InvAffineInverts(v);
    InverseSymmetric(x, InvAffine(v));
    InverseUnique(InvAffine(v), x, InvSubByte(v));
  }

  /** aes_sbox is inverse-then-affine. */
  lemma SboxIsSubByte(x: byte)
    ensures Sbox(x) == SubByte(x)
  {
    hide *;
    SubByteUnique(x, Sbox(x));
  }

  /** aes_inv_sbox is the inverse substitution of section 5.3.2. */
  lemma InvSboxIsInvSubByte(v: byte)
    ensures InvSbox(v) == InvSubByte(v)
  {
    hide *;
    SubByteUnique(InvSbox(v), v);
  }

  lemma SubByteInverts(x: byte)
    ensures InvSubByte(SubByte(x)) == x
  {
    hide *;
    SboxIsSubByte(x);
    SubByteUnique(x, Sbox(x));
  }

  lemma InvSubByteInverts(v: byte)
    ensures SubByte(InvSubByte(v)) == v
  {
    hide *;
    InvSboxIsInvSubByte(v);
    SubByteUnique(InvSbox(v), v);
  }

  // ---------- Round constants ----------

  function Power(a: byte, n: nat): byte {
    if n == 0 then 1 else Mul(a, Power(a, n - 1))
  }

  /** Rcon(i), table entry i - 1, is {02} to the power i - 1 in the field (section 5.2). */
  lemma {:induction false} RconIsPower(i: nat)
    requires 1 <= i <= 10
    ensures Rcon(i) == Power(2, i - 1)
  {
    hide Mul;
    if i > 1 {
      RconIsPower(i - 1);
      RconDoubles(i - 1);
      XtimeIsMul(Rcon(i - 1));
    }
  }

  lemma RconDoubles(i: nat)
    requires 1 <= i < 10
    ensures Rcon(i + 1) == Xtime(Rcon(i))
  {
    if i == 1 {} else if i == 2 {} else if i == 3 {} else if i == 4 {} else if i == 5 {}
    else if i == 6 {} else if i == 7 {} else if i == 8 {} else {}
  }

  /** xtime is multiplication by x, that is by {02} (section 4.2.1). */
  lemma XtimeIsMul(x: byte)
    ensures Mul(2, x) == Xtime(x)
  {
    TimesIsMul(2, x);
    hide Mul, Xtime;
    AddZero(0);
    AddZero(Xtime(x));
  }
}
