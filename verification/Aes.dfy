/** AES-128 as FIPS 197 defines it, over a 16-byte state held column by column, together
    with the laws that make the inverse cipher undo the cipher. */
module Aes {
  import opened Bytes
  import opened Gf256
  import opened AesTables

  type Block = s: seq<byte> | |s| == 16 witness [0, 0, 0, 0, 0, 0, 0, 0, 0, 0, 0, 0, 0, 0, 0, 0]

  // ---------- Words as polynomials modulo x^4 + 1 (section 4.3) ----------

  datatype Word = Word(b0: byte, b1: byte, b2: byte, b3: byte)

  function Sum(w: Word): byte {
    Add(Add(Add(w.b0, w.b1), w.b2), w.b3)
  }

  function Inner(v: Word, w: Word): byte {
    Sum(Word(Mul(v.b0, w.b0), Mul(v.b1, w.b1), Mul(v.b2, w.b2), Mul(v.b3, w.b3)))
  }

  /** The product of two words in the matrix form of equation (4.11). */
  function WordProduct(a: Word, b: Word): Word {
    Word(Inner(Word(a.b0, a.b3, a.b2, a.b1), b),
         Inner(Word(a.b1, a.b0, a.b3, a.b2), b),
         Inner(Word(a.b2, a.b1, a.b0, a.b3), b),
         Inner(Word(a.b3, a.b2, a.b1, a.b0), b))
  }

  const MIX := Word(0x02, 0x01, 0x01, 0x03)
  const INV_MIX := Word(0x0e, 0x09, 0x0d, 0x0b)
  const ONE := Word(0x01, 0x00, 0x00, 0x00)

  /** Multiplies every byte of w by a. */
  function Scale(a: byte, w: Word): Word {
    Word(Mul(a, w.b0), Mul(a, w.b1), Mul(a, w.b2), Mul(a, w.b3))
  }

  lemma SumScale(a: byte, w: Word)
    ensures Mul(a, Sum(w)) == Sum(Scale(a, w))
  {
    hide Mul, Add;
    MulLinear(a, Add(Add(w.b0, w.b1), w.b2), w.b3);
    MulLinear(a, Add(w.b0, w.b1), w.b2);
    MulLinear(a, w.b0, w.b1);
  }

  lemma SumRotates(p: byte, q: byte, r: byte, s: byte)
    ensures Sum(Word(p, q, r, s)) == Sum(Word(s, p, q, r))
  {
    hide Add;
    AddCommutes(Add(Add(p, q), r), s);
    AddAssociates(s, Add(p, q), r);
    AddAssociates(s, p, q);
  }

  function AddWord(v: Word, w: Word): Word {
    Word(Add(v.b0, w.b0), Add(v.b1, w.b1), Add(v.b2, w.b2), Add(v.b3, w.b3))
  }

  lemma SumAdds(v: Word, w: Word)
    ensures Add(Sum(v), Sum(w)) == Sum(AddWord(v, w))
  {
    hide Add;
    Interchange(Add(Add(v.b0, v.b1), v.b2), v.b3, Add(Add(w.b0, w.b1), w.b2), w.b3);
    Interchange(Add(v.b0, v.b1), v.b2, Add(w.b0, w.b1), w.b2);
    Interchange(v.b0, v.b1, w.b0, w.b1);
  }

  /** Adding up a square row by row or column by column. */
  lemma SumTransposes(p: Word, q: Word, r: Word, s: Word)
    ensures Sum(Word(Sum(p), Sum(q), Sum(r), Sum(s))) ==
            Sum(Word(Sum(Word(p.b0, q.b0, r.b0, s.b0)), Sum(Word(p.b1, q.b1, r.b1, s.b1)),
                     Sum(Word(p.b2, q.b2, r.b2, s.b2)), Sum(Word(p.b3, q.b3, r.b3, s.b3))))
  {
    hide Add;
    SumAdds(p, q);
    SumAdds(AddWord(p, q), r);
    SumAdds(AddWord(AddWord(p, q), r), s);
  }

  lemma InnerScales(v: Word, w: Word, c: byte)
    ensures Inner(v, Scale(c, w)) == Mul(Inner(v, w), c)
  {
    hide Mul, Sum;
    MulLeftCommutes(v.b0, c, w.b0);
    MulLeftCommutes(v.b1, c, w.b1);
    MulLeftCommutes(v.b2, c, w.b2);
    MulLeftCommutes(v.b3, c, w.b3);
    SumScale(c, Word(Mul(v.b0, w.b0), Mul(v.b1, w.b1), Mul(v.b2, w.b2), Mul(v.b3, w.b3)));
    MulCommutes(c, Inner(v, w));
  }

  /** (v M) c = v (M c) for a square M with rows p, q, r, s. */
  lemma InnerAssociates(v: Word, p: Word, q: Word, r: Word, s: Word, c: Word)
    ensures Inner(v, Word(Inner(p, c), Inner(q, c), Inner(r, c), Inner(s, c))) ==
            Inner(Word(Inner(v, Word(p.b0, q.b0, r.b0, s.b0)), Inner(v, Word(p.b1, q.b1, r.b1, s.b1)),
                       Inner(v, Word(p.b2, q.b2, r.b2, s.b2)), Inner(v, Word(p.b3, q.b3, r.b3, s.b3))), c)
  {
    var m0, m1, m2, m3 := Times4(p, c), Times4(q, c), Times4(r, c), Times4(s, c);
    hide Mul, Sum;
    SumScale(v.b0, m0);
    SumScale(v.b1, m1);
    SumScale(v.b2, m2);
    SumScale(v.b3, m3);
    SumTransposes(Scale(v.b0, m0), Scale(v.b1, m1), Scale(v.b2, m2), Scale(v.b3, m3));
    InnerColumn(v, Word(p.b0, q.b0, r.b0, s.b0), c.b0);
    InnerColumn(v, Word(p.b1, q.b1, r.b1, s.b1), c.b1);
    InnerColumn(v, Word(p.b2, q.b2, r.b2, s.b2), c.b2);
    InnerColumn(v, Word(p.b3, q.b3, r.b3, s.b3), c.b3);
  }

  function Times4(v: Word, w: Word): Word {
    Word(Mul(v.b0, w.b0), Mul(v.b1, w.b1), Mul(v.b2, w.b2), Mul(v.b3, w.b3))
  }

  lemma InnerColumn(v: Word, w: Word, c: byte)
    ensures Sum(Word(Mul(v.b0, Mul(w.b0, c)), Mul(v.b1, Mul(w.b1, c)), Mul(v.b2, Mul(w.b2, c)), Mul(v.b3, Mul(w.b3, c))))
            == Mul(Inner(v, w), c)
  {
    hide Mul, Sum;
    MulCommutes(w.b0, c);
    MulCommutes(w.b1, c);
    MulCommutes(w.b2, c);
    MulCommutes(w.b3, c);
    InnerScales(v, w, c);
  }

  lemma InnerRotates(v: Word, w: Word)
    ensures Inner(v, w) == Inner(Word(v.b3, v.b0, v.b1, v.b2), Word(w.b3, w.b0, w.b1, w.b2))
  {
    hide Mul, Sum;
    SumRotates(Mul(v.b0, w.b0), Mul(v.b1, w.b1), Mul(v.b2, w.b2), Mul(v.b3, w.b3));
  }

  /** One coefficient of WordProductAssociates, for the row v of a. */
  lemma RowAssociates(v: Word, b: Word, c: Word)
    ensures Inner(v, WordProduct(b, c)) ==
            Inner(Word(Inner(v, b), Inner(Word(v.b1, v.b2, v.b3, v.b0), b),
                       Inner(Word(v.b2, v.b3, v.b0, v.b1), b), Inner(Word(v.b3, v.b0, v.b1, v.b2), b)), c)
  {
    var u1, u2, u3 := Word(v.b1, v.b2, v.b3, v.b0), Word(v.b2, v.b3, v.b0, v.b1), Word(v.b3, v.b0, v.b1, v.b2);
    hide Inner;
    InnerAssociates(v, Word(b.b0, b.b3, b.b2, b.b1), Word(b.b1, b.b0, b.b3, b.b2),
                    Word(b.b2, b.b1, b.b0, b.b3), Word(b.b3, b.b2, b.b1, b.b0), c);
    InnerRotates(u1, b);
    InnerRotates(u2, b);
    InnerRotates(Word(u2.b3, u2.b0, u2.b1, u2.b2), Word(b.b3, b.b0, b.b1, b.b2));
    InnerRotates(v, Word(b.b1, b.b2, b.b3, b.b0));
  }

  lemma WordProductAssociates(a: Word, b: Word, c: Word)
    ensures WordProduct(a, WordProduct(b, c)) == WordProduct(WordProduct(a, b), c)
  {
    hide Inner;
    RowAssociates(Word(a.b0, a.b3, a.b2, a.b1), b, c);
    RowAssociates(Word(a.b1, a.b0, a.b3, a.b2), b, c);
    RowAssociates(Word(a.b2, a.b1, a.b0, a.b3), b, c);
    RowAssociates(Word(a.b3, a.b2, a.b1, a.b0), b, c);
  }

  // ---------- The constants of MixColumns, as doublings ----------

  lemma MulZeroOne(x: byte)
    ensures Mul(0, x) == 0 && Mul(1, x) == x
  {
    hide *;
    MulCommutes(1, x);
    MulOne(x);
    MulCommutes(0, x);
    MulIsDoublings(x, 0);
    DoublingsZero(x, 8);
  }

  lemma MulAdds(a: byte, b: byte, x: byte)
    ensures Mul(Add(a, b), x) == Add(Mul(a, x), Mul(b, x))
  {
    hide *;
    MulCommutes(Add(a, b), x);
    MulCommutes(a, x);
    MulCommutes(b, x);
    MulLinear(x, a, b);
  }

  lemma TripleIsMul(x: byte)
    ensures Mul(0x03, x) == Add(Xtime(x), x)
  {
    assert Add(0x02, 0x01) == 0x03;
    hide Mul, Xtime, Add;
    XtimeIsMul(x);
    MulZeroOne(x);
    MulAdds(0x02, 0x01, x);
  }

  lemma PowersAreMul(x: byte)
    ensures Mul(0x04, x) == Xtime(Xtime(x)) && Mul(0x08, x) == Xtime(Xtime(Xtime(x)))
  {
    assert Xtime(0x02) == 0x04 && Xtime(0x04) == 0x08;
    hide Mul, Xtime;
    XtimeIsMul(x);
    XtimeIsMul(Xtime(x));
    XtimeIsMul(Xtime(Xtime(x)));
    XtimeIsMul(0x02);
    XtimeIsMul(0x04);
    MulAssociates(0x02, 0x02, x);
    MulAssociates(0x02, 0x04, x);
  }

  lemma InvMixMultiples(x: byte)
    ensures var x2 := Xtime(x);
            var x4 := Xtime(x2);
            var x8 := Xtime(x4);
            && Mul(0x0e, x) == Add(Add(x8, x4), x2)
            && Mul(0x0b, x) == Add(Add(x8, x2), x)
            && Mul(0x0d, x) == Add(Add(x8, x4), x)
            && Mul(0x09, x) == Add(x8, x)
  {
    assert Add(Add(0x08, 0x04), 0x02) == 0x0e && Add(Add(0x08, 0x02), 0x01) == 0x0b;
    assert Add(Add(0x08, 0x04), 0x01) == 0x0d && Add(0x08, 0x01) == 0x09;
    hide Mul, Xtime, Add;
    XtimeIsMul(x);
    MulZeroOne(x);
    PowersAreMul(x);
    MulAdds(0x08, 0x04, x);
    MulAdds(0x08, 0x02, x);
    MulAdds(0x08, 0x01, x);
    MulAdds(Add(0x08, 0x04), 0x02, x);
    MulAdds(Add(0x08, 0x02), 0x01, x);
    MulAdds(Add(0x08, 0x04), 0x01, x);
  }

  lemma MixConstants(x: byte)
    ensures Mul(0x02, x) == Xtime(x) && Mul(0x03, x) == Add(Xtime(x), x) && Mul(0x01, x) == x
  {
    hide *;
    XtimeIsMul(x);
    TripleIsMul(x);
    MulZeroOne(x);
  }

  lemma MixProducts()
    ensures WordProduct(MIX, INV_MIX) == ONE && WordProduct(INV_MIX, MIX) == ONE
  {
    hide Mul;
    MixConstants(0x0e);
    MixConstants(0x0b);
    MixConstants(0x0d);
    MixConstants(0x09);
    InvMixMultiples(0x01);
    InvMixMultiples(0x02);
    InvMixMultiples(0x03);
  }

  lemma OneProduct(w: Word)
    ensures WordProduct(ONE, w) == w
  {
    hide Mul, Add;
    MulZeroOne(w.b0);
    MulZeroOne(w.b1);
    MulZeroOne(w.b2);
    MulZeroOne(w.b3);
    AddZero(0);
    AddZero(w.b0);
    AddZero(w.b1);
    AddZero(w.b2);
    AddZero(w.b3);
  }

  lemma MixInverts(w: Word)
    ensures WordProduct(INV_MIX, WordProduct(MIX, w)) == w
    ensures WordProduct(MIX, WordProduct(INV_MIX, w)) == w
  {
    MixProducts();
    hide WordProduct;
    WordProductAssociates(INV_MIX, MIX, w);
    WordProductAssociates(MIX, INV_MIX, w);
    OneProduct(w);
  }

  // ---------- The transformations of sections 5.1 and 5.3 ----------

  ghost function SubBytes(s: Block): Block {
    seq(16, i requires 0 <= i < 16 => SubByte(s[i]))
  }

  ghost function InvSubBytes(s: Block): Block {
    seq(16, i requires 0 <= i < 16 => InvSubByte(s[i]))
  }

  /** Row r of column c of the shifted state comes from column c + r. */
  function ShiftSource(i: nat): (j: nat)
    requires i < 16
    ensures j < 16
  {
    i % 4 + 4 * ((i / 4 + i % 4) % 4)
  }

  function InvShiftSource(i: nat): (j: nat)
    requires i < 16
    ensures j < 16
  {
    i % 4 + 4 * ((i / 4 + 4 - i % 4) % 4)
  }

  function ShiftRows(s: Block): Block {
    seq(16, i requires 0 <= i < 16 => s[ShiftSource(i)])
  }

  function InvShiftRows(s: Block): Block {
    seq(16, i requires 0 <= i < 16 => s[InvShiftSource(i)])
  }

  function Column(s: Block, c: nat): Word
    requires c < 4
  {
    Word(s[4 * c], s[4 * c + 1], s[4 * c + 2], s[4 * c + 3])
  }

  function Entry(w: Word, r: nat): byte
    requires r < 4
  {
    if r == 0 then w.b0 else if r == 1 then w.b1 else if r == 2 then w.b2 else w.b3
  }

  function MultiplyColumns(a: Word, s: Block): Block {
    seq(16, i requires 0 <= i < 16 => Entry(WordProduct(a, Column(s, i / 4)), i % 4))
  }

  function MixColumns(s: Block): Block {
    MultiplyColumns(MIX, s)
  }

  function InvMixColumns(s: Block): Block {
    MultiplyColumns(INV_MIX, s)
  }

  function Xor(s: Block, k: Block): Block {
    seq(16, i requires 0 <= i < 16 => Add(s[i], k[i]))
  }

  lemma SubBytesInverts(s: Block)
    ensures InvSubBytes(SubBytes(s)) == s && SubBytes(InvSubBytes(s)) == s
  {
    hide SubByte, InvSubByte;
    forall i | 0 <= i < 16
      ensures InvSubBytes(SubBytes(s))[i] == s[i] && SubBytes(InvSubBytes(s))[i] == s[i]
    {
      SubByteInverts(s[i]);
      InvSubByteInverts(s[i]);
    }
  }

  lemma ShiftSourcesAt(r: nat, c: nat)
    requires r < 4 && c < 4
    ensures ShiftSource(r + 4 * c) == r + 4 * ((c + r) % 4)
    ensures InvShiftSource(r + 4 * c) == r + 4 * ((c + 4 - r) % 4)
  {
    assert (r + 4 * c) % 4 == r && (r + 4 * c) / 4 == c;
  }

  lemma TurnBack(r: nat, c: nat)
    requires r < 4 && c < 4
    ensures ((c + r) % 4 + 4 - r) % 4 == c == ((c + 4 - r) % 4 + r) % 4
  {
    if r == 0 {} else if r == 1 {} else if r == 2 {} else {}
  }

  lemma ShiftSourcesInvert(i: nat)
    requires i < 16
    ensures ShiftSource(InvShiftSource(i)) == i == InvShiftSource(ShiftSource(i))
  {
    hide ShiftSource, InvShiftSource;
    var r, c := i % 4, i / 4;
    ShiftSourcesAt(r, c);
    ShiftSourcesAt(r, (c + r) % 4);
    ShiftSourcesAt(r, (c + 4 - r) % 4);
    TurnBack(r, c);
  }

  lemma ShiftRowsInverts(s: Block)
    ensures InvShiftRows(ShiftRows(s)) == s && ShiftRows(InvShiftRows(s)) == s
  {
    hide ShiftSource, InvShiftSource;
    forall i | 0 <= i < 16
      ensures InvShiftRows(ShiftRows(s))[i] == s[i] && ShiftRows(InvShiftRows(s))[i] == s[i]
    {
      ShiftSourcesInvert(i);
    }
  }

  lemma MultiplyColumn(a: Word, s: Block, c: nat)
    requires c < 4
    ensures Column(MultiplyColumns(a, s), c) == WordProduct(a, Column(s, c))
  {
    hide WordProduct, MultiplyColumns;
    MultipliedEntry(a, s, c, 0);
    MultipliedEntry(a, s, c, 1);
    MultipliedEntry(a, s, c, 2);
    MultipliedEntry(a, s, c, 3);
  }

  lemma MultipliedEntry(a: Word, s: Block, c: nat, r: nat)
    requires c < 4 && r < 4
    ensures MultiplyColumns(a, s)[4 * c + r] == Entry(WordProduct(a, Column(s, c)), r)
  {
    hide WordProduct, Entry, Column;
    assert (4 * c + r) / 4 == c && (4 * c + r) % 4 == r;
  }

  lemma MultiplyTwice(a: Word, b: Word, s: Block, i: nat)
    requires i < 16
    ensures MultiplyColumns(a, MultiplyColumns(b, s))[i] == Entry(WordProduct(a, WordProduct(b, Column(s, i / 4))), i % 4)
  {
    hide WordProduct, Column, Entry;
    MultiplyColumn(b, s, i / 4);
  }

  lemma EntryOfColumn(s: Block, i: nat)
    requires i < 16
    ensures Entry(Column(s, i / 4), i % 4) == s[i]
  {}

  lemma MixColumnsInverts(s: Block)
    ensures InvMixColumns(MixColumns(s)) == s && MixColumns(InvMixColumns(s)) == s
  {
    hide WordProduct, MultiplyColumns, Column, Entry;
    forall i | 0 <= i < 16
      ensures InvMixColumns(MixColumns(s))[i] == s[i] && MixColumns(InvMixColumns(s))[i] == s[i]
    {
      MultiplyTwice(INV_MIX, MIX, s, i);
      MultiplyTwice(MIX, INV_MIX, s, i);
      MixInverts(Column(s, i / 4));
      EntryOfColumn(s, i);
    }
  }

  lemma XorInverts(s: Block, k: Block)
    ensures Xor(Xor(s, k), k) == s
  {
    hide Add;
    forall i | 0 <= i < 16
      ensures Xor(Xor(s, k), k)[i] == s[i]
    {
      AddSelf(s[i], k[i]);
    }
  }

  // ---------- Cipher and InvCipher ----------

  /** The eleven round keys, 16 bytes each. */
  type Schedule = rk: seq<byte> | |rk| == 176 witness seq(176, _ => 0)

  function RoundKey(rk: Schedule, r: nat): Block
    requires r <= 10
  {
    rk[16 * r..16 * r + 16]
  }

  ghost function Round(rk: Schedule, r: nat, s: Block): Block
    requires r <= 10
  {
    Xor(MixColumns(ShiftRows(SubBytes(s))), RoundKey(rk, r))
  }

  /** Rounds 1 to n. */
  ghost function Rounds(rk: Schedule, n: nat, s: Block): Block
    requires n <= 10
  {
    if n == 0 then s else Round(rk, n, Rounds(rk, n - 1, s))
  }

  ghost function Cipher(rk: Schedule, input: Block): Block {
    Xor(ShiftRows(SubBytes(Rounds(rk, 9, Xor(input, RoundKey(rk, 0))))), RoundKey(rk, 10))
  }

  ghost function InvRound(rk: Schedule, r: nat, s: Block): Block
    requires r <= 10
  {
    InvMixColumns(Xor(InvSubBytes(InvShiftRows(s)), RoundKey(rk, r)))
  }

  /** Inverse rounds n down to 1. */
  ghost function InvRounds(rk: Schedule, n: nat, s: Block): Block
    requires n <= 10
    decreases n
  {
    if n == 0 then s else InvRounds(rk, n - 1, InvRound(rk, n, s))
  }

  ghost function InvCipher(rk: Schedule, input: Block): Block {
    Xor(InvSubBytes(InvShiftRows(InvRounds(rk, 9, Xor(input, RoundKey(rk, 10))))), RoundKey(rk, 0))
  }

  /** One inverse round takes the middle of round r to the middle of the round before it. */
  lemma RoundInverts(rk: Schedule, r: nat, s: Block)
    requires r <= 10
    ensures InvRound(rk, r, ShiftRows(SubBytes(Round(rk, r, s)))) == ShiftRows(SubBytes(s))
    ensures Round(rk, r, InvSubBytes(InvShiftRows(InvRound(rk, r, s)))) == InvSubBytes(InvShiftRows(s))
  {
    var k := RoundKey(rk, r);
    hide SubBytes, InvSubBytes, ShiftRows, InvShiftRows, MixColumns, InvMixColumns, Xor, RoundKey;
    ShiftRowsInverts(SubBytes(Round(rk, r, s)));
    SubBytesInverts(Round(rk, r, s));
    MixColumnsInverts(ShiftRows(SubBytes(s)));
    XorInverts(MixColumns(ShiftRows(SubBytes(s))), k);
    var t := Xor(InvSubBytes(InvShiftRows(s)), k);
    SubBytesInverts(InvShiftRows(InvRound(rk, r, s)));
    ShiftRowsInverts(InvRound(rk, r, s));
    MixColumnsInverts(t);
    XorInverts(InvSubBytes(InvShiftRows(s)), k);
  }

  /** The descending inverse rounds undo the ascending rounds, pair by pair from the inside. */
  lemma {:induction false} RoundsInvert(rk: Schedule, n: nat, s: Block)
    requires n <= 10
    ensures InvRounds(rk, n, ShiftRows(SubBytes(Rounds(rk, n, s)))) == ShiftRows(SubBytes(s))
    decreases n
  {
    hide SubBytes, ShiftRows, Round, InvRound;
    if n > 0 {
      RoundInverts(rk, n, Rounds(rk, n - 1, s));
      RoundsInvert(rk, n - 1, s);
    }
  }

  lemma {:induction false} InvRoundsInvert(rk: Schedule, n: nat, s: Block)
    requires n <= 10
    ensures Rounds(rk, n, InvSubBytes(InvShiftRows(InvRounds(rk, n, s)))) == InvSubBytes(InvShiftRows(s))
    decreases n
  {
    hide InvSubBytes, InvShiftRows, Round, InvRound;
    if n > 0 {
      InvRoundsInvert(rk, n - 1, InvRound(rk, n, s));
      RoundInverts(rk, n, s);
    }
  }

  /** Deciphering undoes enciphering, for every schedule whether or not a key expands to it. */
  lemma DecipherEncipher(rk: Schedule, s: Block)
    ensures InvCipher(rk, Cipher(rk, s)) == s
  {
    var k0, k10 := RoundKey(rk, 0), RoundKey(rk, 10);
    var start := Xor(s, k0);
    var end := ShiftRows(SubBytes(Rounds(rk, 9, start)));
    hide SubBytes, InvSubBytes, ShiftRows, InvShiftRows, Rounds, InvRounds, Xor, RoundKey;
    XorInverts(end, k10);
    RoundsInvert(rk, 9, start);
    ShiftRowsInverts(SubBytes(start));
    SubBytesInverts(start);
    XorInverts(s, k0);
  }

  lemma EncipherDecipher(rk: Schedule, c: Block)
    ensures Cipher(rk, InvCipher(rk, c)) == c
  {
    var k0, k10 := RoundKey(rk, 0), RoundKey(rk, 10);
    var start := Xor(c, k10);
    var end := InvSubBytes(InvShiftRows(InvRounds(rk, 9, start)));
    hide SubBytes, InvSubBytes, ShiftRows, InvShiftRows, Rounds, InvRounds, Xor, RoundKey;
    XorInverts(end, k0);
    InvRoundsInvert(rk, 9, start);
    SubBytesInverts(InvShiftRows(start));
    ShiftRowsInverts(start);
    XorInverts(c, k10);
  }
}
