/** The engine's AES code, in place on a 16-byte array as the source runs it, proved to
    compute the cipher, the inverse cipher and the key expansion of FIPS 197. */
module AesEngine {
  import opened Bytes
  import opened Gf256
  import opened AesTables
  import opened Aes
  import opened KeySchedule

  // ---------- The steps of a round ----------

  method AddRoundKey(s: array<byte>, rk: array<byte>, r: nat)
    requires s.Length == 16 && rk.Length == 176 && s != rk && r <= 10
    modifies s
    ensures s[..] == Xor(old(s[..]), RoundKey(rk[..], r))
  {
    for i := 0 to 16
      invariant forall j | 0 <= j < i :: s[j] == Add(old(s[j]), rk[16 * r + j])
      invariant forall j | i <= j < 16 :: s[j] == old(s[j])
    {
      s[i] := Add(s[i], rk[16 * r + i]);
      hide Add;
    }
  }

  method SubstituteBytes(s: array<byte>)
    requires s.Length == 16
    modifies s
    ensures s[..] == SubBytes(old(s[..]))
  {
    hide Sbox, SubByte;
    for i := 0 to 16
      invariant forall j | 0 <= j < i :: s[j] == SubByte(old(s[j]))
      invariant forall j | i <= j < 16 :: s[j] == old(s[j])
    {
      SboxIsSubByte(s[i]);
      s[i] := Sbox(s[i]);
    }
  }

  method InvSubstituteBytes(s: array<byte>)
    requires s.Length == 16
    modifies s
    ensures s[..] == InvSubBytes(old(s[..]))
  {
    hide InvSbox, InvSubByte;
    for i := 0 to 16
      invariant forall j | 0 <= j < i :: s[j] == InvSubByte(old(s[j]))
      invariant forall j | i <= j < 16 :: s[j] == old(s[j])
    {
      InvSboxIsInvSubByte(s[i]);
      s[i] := InvSbox(s[i]);
    }
  }

  lemma RowsShifted(s: Block, t: Block)
    requires t[0] == s[0] && t[4] == s[4] && t[8] == s[8] && t[12] == s[12]
    requires t[1] == s[5] && t[5] == s[9] && t[9] == s[13] && t[13] == s[1]
    requires t[2] == s[10] && t[6] == s[14] && t[10] == s[2] && t[14] == s[6]
    requires t[3] == s[15] && t[7] == s[3] && t[11] == s[7] && t[15] == s[11]
    ensures t == ShiftRows(s)
  {
    forall i | 0 <= i < 16
      ensures t[i] == s[ShiftSource(i)]
    {
      match i { case 0 => case 1 => case 2 => case 3 => case 4 => case 5 => case 6 => case 7 =>
                case 8 => case 9 => case 10 => case 11 => case 12 => case 13 => case 14 => case _ => }
    }
    hide ShiftSource;
  }

  method RotateRows(s: array<byte>)
    requires s.Length == 16
    modifies s
    ensures s[..] == ShiftRows(old(s[..]))
  {
    hide ShiftRows;
    var t := s[1]; s[1] := s[5]; s[5] := s[9]; s[9] := s[13]; s[13] := t;
    t := s[2]; s[2] := s[10]; s[10] := t; t := s[6]; s[6] := s[14]; s[14] := t;
    t := s[15]; s[15] := s[11]; s[11] := s[7]; s[7] := s[3]; s[3] := t;
    RowsShifted(old(s[..]), s[..]);
  }

  method UnrotateRows(s: array<byte>)
    requires s.Length == 16
    modifies s
    ensures s[..] == InvShiftRows(old(s[..]))
  {
    hide ShiftRows, InvShiftRows;
    var t := s[13]; s[13] := s[9]; s[9] := s[5]; s[5] := s[1]; s[1] := t;
    t := s[2]; s[2] := s[10]; s[10] := t; t := s[6]; s[6] := s[14]; s[14] := t;
    t := s[3]; s[3] := s[7]; s[7] := s[11]; s[11] := s[15]; s[15] := t;
    RowsShifted(s[..], old(s[..]));
    ShiftRowsInverts(s[..]);
  }

  // The exclusive ors of the source's expressions, three, four and five operands long.

  function Xor3(p: byte, q: byte, r: byte): byte {
    Add(Add(p, q), r)
  }

  function Xor4(p: byte, q: byte, r: byte, s: byte): byte {
    Add(Xor3(p, q, r), s)
  }

  function Xor5(p: byte, q: byte, r: byte, s: byte, t: byte): byte {
    Add(Xor4(p, q, r, s), t)
  }

  /** The hand-expanded column formulas of the encryptor. */
  function MixedColumn(w: Word): Word {
    var Word(a, b, c, d) := w;
    Word(Xor5(Xtime(a), Xtime(b), b, c, d),
         Xor5(a, Xtime(b), Xtime(c), c, d),
         Xor5(a, b, Xtime(c), Xtime(d), d),
         Xor5(Xtime(a), a, b, c, Xtime(d)))
  }

  // The products by {0e}, {0b}, {0d} and {09} the decryptor puts together from doublings.

  function By0e(x: byte): byte {
    var x2 := Xtime(x); var x4 := Xtime(x2); var x8 := Xtime(x4);
    Xor3(x8, x4, x2)
  }

  function By0b(x: byte): byte {
    var x2 := Xtime(x); var x4 := Xtime(x2); var x8 := Xtime(x4);
    Xor3(x8, x2, x)
  }

  function By0d(x: byte): byte {
    var x2 := Xtime(x); var x4 := Xtime(x2); var x8 := Xtime(x4);
    Xor3(x8, x4, x)
  }

  function By09(x: byte): byte {
    var x2 := Xtime(x); var x4 := Xtime(x2); var x8 := Xtime(x4);
    Add(x8, x)
  }

  /** The hand-expanded column formulas of the decryptor. */
  function UnmixedColumn(w: Word): Word {
    var Word(a, b, c, d) := w;
    Word(Xor4(By0e(a), By0b(b), By0d(c), By09(d)),
         Xor4(By09(a), By0e(b), By0b(c), By0d(d)),
         Xor4(By0d(a), By09(b), By0e(c), By0b(d)),
         Xor4(By0b(a), By0d(b), By09(c), By0e(d)))
  }

  lemma JoinFirst(p: byte, q: byte, r: byte, s: byte, t: byte)
    ensures Xor5(p, q, r, s, t) == Sum(Word(Add(p, q), r, s, t))
  {
    hide Add;
  }

  lemma JoinSecond(p: byte, q: byte, r: byte, s: byte, t: byte)
    ensures Xor5(p, q, r, s, t) == Sum(Word(p, Add(q, r), s, t))
  {
    hide Add;
    AddAssociates(p, q, r);
  }

  lemma JoinThird(p: byte, q: byte, r: byte, s: byte, t: byte)
    ensures Xor5(p, q, r, s, t) == Sum(Word(p, q, Add(r, s), t))
  {
    hide Add;
    AddAssociates(Add(p, q), r, s);
  }

  lemma JoinLast(p: byte, q: byte, r: byte, s: byte, t: byte)
    ensures Xor5(p, q, r, s, t) == Sum(Word(p, q, r, Add(s, t)))
  {
    hide Add;
    AddAssociates(Add(Add(p, q), r), s, t);
  }

  /** The encryptor's formulas multiply the column by {03}x^3 + {01}x^2 + {01}x + {02}. */
  lemma MixedColumnIsProduct(w: Word)
    ensures MixedColumn(w) == WordProduct(MIX, w)
  {
    hide Mul, Xtime, Sum, Add, Xor5;
    var Word(a, b, c, d) := w;
    MixConstants(a);
    MixConstants(b);
    MixConstants(c);
    MixConstants(d);
    JoinSecond(Xtime(a), Xtime(b), b, c, d);
    JoinThird(a, Xtime(b), Xtime(c), c, d);
    JoinLast(a, b, Xtime(c), Xtime(d), d);
    JoinFirst(Xtime(a), a, b, c, Xtime(d));
  }

  lemma ByIsMul(x: byte)
    ensures By0e(x) == Mul(0x0e, x) && By0b(x) == Mul(0x0b, x) && By0d(x) == Mul(0x0d, x) && By09(x) == Mul(0x09, x)
  {
    hide Mul, Xtime, Add;
    var x2 := Xtime(x);
    var x4 := Xtime(x2);
    var x8 := Xtime(x4);
    InvMixMultiples(x);
  }

  /** The decryptor's formulas multiply it by {0b}x^3 + {0d}x^2 + {09}x + {0e}. */
  lemma UnmixedColumnIsProduct(w: Word)
    ensures UnmixedColumn(w) == WordProduct(INV_MIX, w)
  {
    hide Mul, Add, By0e, By0b, By0d, By09;
    var Word(a, b, c, d) := w;
    ByIsMul(a);
    ByIsMul(b);
    ByIsMul(c);
    ByIsMul(d);
  }

  /** Stores a new column i. */
  method SetColumn(s: array<byte>, i: nat, w: Word)
    requires s.Length == 16 && i < 4
    modifies s
    ensures Column(s[..], i) == w
    ensures forall c: nat | c < 4 && c != i :: Column(s[..], c) == Column(old(s[..]), c)
  {
    s[4 * i], s[4 * i + 1], s[4 * i + 2], s[4 * i + 3] := w.b0, w.b1, w.b2, w.b3;
  }

  method MixBlock(s: array<byte>)
    requires s.Length == 16
    modifies s
    ensures s[..] == MixColumns(old(s[..]))
  {
    hide MixedColumn, WordProduct, MIX;
    ghost var start := s[..];
    for i := 0 to 4
      invariant forall c: nat | c < i :: Column(s[..], c) == WordProduct(MIX, Column(start, c))
      invariant forall c: nat | i <= c < 4 :: Column(s[..], c) == Column(start, c)
    {
      var w := Word(s[4 * i], s[4 * i + 1], s[4 * i + 2], s[4 * i + 3]);
      assert w == Column(s[..], i);
      hide Column;
      MixedColumnIsProduct(w);
      SetColumn(s, i, MixedColumn(w));
    }
    ColumnsMultiplied(MIX, start, s[..]);
  }

  method UnmixBlock(s: array<byte>)
    requires s.Length == 16
    modifies s
    ensures s[..] == InvMixColumns(old(s[..]))
  {
    hide UnmixedColumn, WordProduct, INV_MIX;
    ghost var start := s[..];
    for i := 0 to 4
      invariant forall c: nat | c < i :: Column(s[..], c) == WordProduct(INV_MIX, Column(start, c))
      invariant forall c: nat | i <= c < 4 :: Column(s[..], c) == Column(start, c)
    {
      var w := Word(s[4 * i], s[4 * i + 1], s[4 * i + 2], s[4 * i + 3]);
      assert w == Column(s[..], i);
      hide Column;
      UnmixedColumnIsProduct(w);
      SetColumn(s, i, UnmixedColumn(w));
    }
    ColumnsMultiplied(INV_MIX, start, s[..]);
  }

  lemma ColumnsMultiplied(a: Word, s: Block, t: Block)
    requires forall c: nat | c < 4 :: Column(t, c) == WordProduct(a, Column(s, c))
    ensures t == MultiplyColumns(a, s)
  {
    hide WordProduct;
    forall i | 0 <= i < 16
      ensures t[i] == MultiplyColumns(a, s)[i]
    {
      EntryOfColumn(t, i);
      hide Entry, Column;
    }
  }

  // ---------- Whole blocks ----------

  method CopyBlock(input: array<byte>, inAt: nat, output: array<byte>, outAt: nat)
    requires inAt + 16 <= input.Length && outAt + 16 <= output.Length && input != output
    modifies output
    ensures output[..] == old(output[..outAt]) + input[inAt..inAt + 16] + old(output[outAt + 16..])
  {
    for i := 0 to 16
      invariant output[..outAt] == old(output[..outAt])
      invariant output[outAt..outAt + i] == input[inAt..inAt + i]
      invariant output[outAt + 16..] == old(output[outAt + 16..])
    {
      output[outAt + i] := input[inAt + i];
    }
  }

  /** The rounds 1 to 9 and the final one, on a state already whitened with round key 0. */
  method EncryptRounds(rk: array<byte>, s: array<byte>)
    requires rk.Length == 176 && s.Length == 16 && s != rk
    modifies s
    ensures s[..] == Xor(ShiftRows(SubBytes(Rounds(rk[..], 9, old(s[..])))), RoundKey(rk[..], 10))
  {
    hide SubBytes, ShiftRows, MixColumns, Xor, RoundKey;
    ghost var start := s[..];
    for r := 1 to 10
      invariant s[..] == Rounds(rk[..], r - 1, start)
    {
      SubstituteBytes(s);
      RotateRows(s);
      MixBlock(s);
      AddRoundKey(s, rk, r);
    }
    SubstituteBytes(s);
    RotateRows(s);
    AddRoundKey(s, rk, 10);
  }

  /** The block is copied out before anything is written, so input and output may be the same. */
  method EncryptBlock(rk: array<byte>, input: array<byte>, inAt: nat, output: array<byte>, outAt: nat)
    requires rk.Length == 176 && rk != output
    requires inAt + 16 <= input.Length && outAt + 16 <= output.Length
    modifies output
    ensures output[..] == old(output[..outAt]) + Cipher(rk[..], old(input[inAt..inAt + 16])) + old(output[outAt + 16..])
  {
    hide SubBytes, ShiftRows, Rounds, Xor, RoundKey;
    var s := new byte[16](_ => 0);
    CopyBlock(input, inAt, s, 0);
    assert s[..] == input[inAt..inAt + 16];
    AddRoundKey(s, rk, 0);
    EncryptRounds(rk, s);
    assert s[0..16] == s[..];
    CopyBlock(s, 0, output, outAt);
  }

  /** The inverse rounds 9 to 1 and the final one, on a state already whitened with round key 10. */
  method DecryptRounds(rk: array<byte>, s: array<byte>)
    requires rk.Length == 176 && s.Length == 16 && s != rk
    modifies s
    ensures s[..] == Xor(InvSubBytes(InvShiftRows(InvRounds(rk[..], 9, old(s[..])))), RoundKey(rk[..], 0))
  {
    hide InvSubBytes, InvShiftRows, InvMixColumns, Xor, RoundKey;
    ghost var start := s[..];
    var r := 9;
    while r >= 1
      invariant 0 <= r <= 9
      invariant InvRounds(rk[..], r, s[..]) == InvRounds(rk[..], 9, start)
    {
      UnrotateRows(s);
      InvSubstituteBytes(s);
      AddRoundKey(s, rk, r);
      UnmixBlock(s);
      r := r - 1;
    }
    UnrotateRows(s);
    InvSubstituteBytes(s);
    AddRoundKey(s, rk, 0);
  }

  method DecryptBlock(rk: array<byte>, input: array<byte>, inAt: nat, output: array<byte>, outAt: nat)
    requires rk.Length == 176 && rk != output
    requires inAt + 16 <= input.Length && outAt + 16 <= output.Length
    modifies output
    ensures output[..] == old(output[..outAt]) + InvCipher(rk[..], old(input[inAt..inAt + 16])) + old(output[outAt + 16..])
  {
    hide InvSubBytes, InvShiftRows, InvRounds, Xor, RoundKey;
    var s := new byte[16](_ => 0);
    CopyBlock(input, inAt, s, 0);
    assert s[..] == input[inAt..inAt + 16];
    AddRoundKey(s, rk, 10);
    DecryptRounds(rk, s);
    assert s[0..16] == s[..];
    CopyBlock(s, 0, output, outAt);
  }

  // ---------- Key expansion ----------

  /** The word t that is added to word i - 4, computed from word i - 1. */
  method NextStep(t: Word, i: nat) returns (u: Word)
    requires 4 <= i < 44
    ensures u == Step(i, t)
  {
    hide Sbox, SubByte, Add, Rcon;
    if i % 4 == 0 {
      SboxIsSubByte(t.b0);
      SboxIsSubByte(t.b1);
      SboxIsSubByte(t.b2);
      SboxIsSubByte(t.b3);
      AddZero(SubByte(t.b2));
      AddZero(SubByte(t.b3));
      AddZero(SubByte(t.b0));
      u := Word(Add(Sbox(t.b1), Rcon(i / 4)), Sbox(t.b2), Sbox(t.b3), Sbox(t.b0));
    } else {
      u := t;
    }
  }

  /** One turn of the expansion loop: appends word i to the words before it. */
  method ExpandWord(rk: array<byte>, i: nat)
    requires rk.Length == 176 && 4 <= i < 44
    modifies rk
    ensures forall m: nat | m < i :: WordAt(rk[..], m) == WordAt(old(rk[..]), m)
    ensures WordAt(rk[..], i) == AddWord(WordAt(old(rk[..]), i - 4), Step(i, WordAt(old(rk[..]), i - 1)))
  {
    hide Step, Add;
    var t := Word(rk[4 * (i - 1)], rk[4 * (i - 1) + 1], rk[4 * (i - 1) + 2], rk[4 * (i - 1) + 3]);
    t := NextStep(t, i);
    for j := 0 to 4
      invariant forall k | 0 <= k < 4 * i :: rk[k] == old(rk[k])
      invariant forall k | 0 <= k < j :: rk[4 * i + k] == Add(old(rk[4 * (i - 4) + k]), Entry(t, k))
    {
      rk[4 * i + j] := Add(rk[4 * (i - 4) + j], Entry(t, j));
    }
    assert AddWord(WordAt(old(rk[..]), i - 4), t) == WordAt(rk[..], i) by {
      assert t == Word(Entry(t, 0), Entry(t, 1), Entry(t, 2), Entry(t, 3));
    }
  }

  lemma FirstWords(rk: Schedule, key: Block)
    requires rk[..16] == key
    ensures forall m: nat | m < 4 :: WordAt(rk, m) == ScheduleWord(key, m)
  {}

  lemma NextWord(key: Block, i: nat)
    requires 4 <= i < 44
    ensures ScheduleWord(key, i) == AddWord(ScheduleWord(key, i - 4), Step(i, ScheduleWord(key, i - 1)))
  {}

  method ExpandKey(key: array<byte>, rk: array<byte>)
    requires key.Length == 16 && rk.Length == 176 && key != rk
    modifies rk
    ensures rk[..] == KeyExpansion(key[..])
  {
    hide Step, KeyExpansion, AddWord, ScheduleWord, WordAt, Column;
    ghost var k := key[..];
    CopyBlock(key, 0, rk, 0);
    assert key[0..16] == k && rk[..16] == k;
    FirstWords(rk[..], k);
    for i := 4 to 44
      invariant forall m: nat | m < i :: WordAt(rk[..], m) == ScheduleWord(k, m)
    {
      NextWord(k, i);
      ExpandWord(rk, i);
    }
    WordsDetermineSchedule(rk[..], k);
    assert key[..] == k;
  }
}
