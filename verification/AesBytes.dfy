/** The cipher, the inverse cipher and the key schedule byte by byte: what every byte of every step
    is in terms of the tables, doubling, exclusive or and explicit positions, and that these
    equations leave no other result. */
module AesBytes {
  import opened Bytes
  import opened Modular
  import opened Gf256
  import opened AesTables
  import opened Aes
  import opened KeySchedule
  import opened AesEngine

  // ---------- Key schedule ----------

  /** Word i of the schedule from the words before it, in bytes. */
  ghost predicate WordFollows(rk: Schedule, i: nat)
    requires 4 <= i < 44
  {
    if i % 4 == 0 then
      && rk[4 * i] == Add(rk[4 * i - 16], Add(Sbox(rk[4 * i - 3]), Rcon(i / 4)))
      && rk[4 * i + 1] == Add(rk[4 * i - 15], Sbox(rk[4 * i - 2]))
      && rk[4 * i + 2] == Add(rk[4 * i - 14], Sbox(rk[4 * i - 1]))
      && rk[4 * i + 3] == Add(rk[4 * i - 13], Sbox(rk[4 * i - 4]))
    else
      && rk[4 * i] == Add(rk[4 * i - 16], rk[4 * i - 4])
      && rk[4 * i + 1] == Add(rk[4 * i - 15], rk[4 * i - 3])
      && rk[4 * i + 2] == Add(rk[4 * i - 14], rk[4 * i - 2])
      && rk[4 * i + 3] == Add(rk[4 * i - 13], rk[4 * i - 1])
  }

  /** The byte equations are the recurrence of words. */
  lemma WordFollowsExactly(rk: Schedule, i: nat)
    requires 4 <= i < 44
    ensures WordFollows(rk, i) <==> WordAt(rk, i) == AddWord(WordAt(rk, i - 4), Step(i, WordAt(rk, i - 1)))
  {
    hide Sbox, SubByte, Add, Rcon;
    if i % 4 == 0 {
      SboxIsSubByte(rk[4 * i - 4]);
      SboxIsSubByte(rk[4 * i - 3]);
      SboxIsSubByte(rk[4 * i - 2]);
      SboxIsSubByte(rk[4 * i - 1]);
      AddZero(SubByte(rk[4 * i - 4]));
      AddZero(SubByte(rk[4 * i - 2]));
      AddZero(SubByte(rk[4 * i - 1]));
    }
  }

  /** A schedule is the expansion of a key if and only if it starts with the key and every later
      word follows from those before it. */
  lemma ExpansionExactly(key: Block, rk: Schedule)
    ensures rk == KeyExpansion(key) <==> rk[..16] == key && forall i: nat | 4 <= i < 44 :: WordFollows(rk, i)
  {
    hide WordFollows, KeyExpansion, Step;
    if rk == KeyExpansion(key) {
      ExpansionStarts(key);
      forall i: nat | 4 <= i < 44
        ensures WordFollows(rk, i)
      {
        WordFollowsExactly(rk, i);
        ExpansionRecurrence(key, i);
      }
    } else if rk[..16] == key && forall i: nat | 4 <= i < 44 :: WordFollows(rk, i) {
      forall i: nat | i < 44
        ensures WordAt(rk, i) == ScheduleWord(key, i)
      {
        FollowsIsWord(key, rk, i);
      }
      WordsDetermineSchedule(rk, key);
    }
  }

  lemma ExpansionStarts(key: Block)
    ensures KeyExpansion(key)[..16] == key
  {
    hide KeyExpansion;
    ExpansionWord(key, 0);
    ExpansionWord(key, 1);
    ExpansionWord(key, 2);
    ExpansionWord(key, 3);
  }

  lemma {:induction false} FollowsIsWord(key: Block, rk: Schedule, i: nat)
    requires rk[..16] == key && i < 44 && forall m: nat | 4 <= m < 44 :: WordFollows(rk, m)
    ensures WordAt(rk, i) == ScheduleWord(key, i)
    decreases i
  {
    hide WordFollows, Step, AddWord;
    if i < 4 {
      assert rk[4 * i] == key[4 * i] && rk[4 * i + 1] == key[4 * i + 1];
      assert rk[4 * i + 2] == key[4 * i + 2] && rk[4 * i + 3] == key[4 * i + 3];
    } else {
      assert WordFollows(rk, i);
      WordFollowsExactly(rk, i);
      FollowsIsWord(key, rk, i - 4);
      FollowsIsWord(key, rk, i - 1);
    }
  }

  // ---------- Rounds ----------

  /** Column c of t from the state s and the round key at byte k of the schedule: substituted bytes
      taken along the diagonal, mixed by {02}, {03}, {01}, {01}, and the key added. */
  ghost predicate ColumnEncrypted(rk: Schedule, k: nat, s: Block, t: Block, c: nat)
    requires k + 16 <= 176 && c < 4
  {
    var a, b, d, e := Sbox(s[4 * c]), Sbox(s[(4 * c + 5) % 16]), Sbox(s[(4 * c + 10) % 16]), Sbox(s[(4 * c + 15) % 16]);
    && t[4 * c] == Add(Xor5(Xtime(a), Xtime(b), b, d, e), rk[k + 4 * c])
    && t[4 * c + 1] == Add(Xor5(a, Xtime(b), Xtime(d), d, e), rk[k + 4 * c + 1])
    && t[4 * c + 2] == Add(Xor5(a, b, Xtime(d), Xtime(e), e), rk[k + 4 * c + 2])
    && t[4 * c + 3] == Add(Xor5(Xtime(a), a, b, d, Xtime(e)), rk[k + 4 * c + 3])
  }

  /** Column c of t from s and the round key: bytes taken back along the diagonal, substituted back,
      the key added, and mixed by {0e}, {0b}, {0d}, {09}. */
  ghost predicate ColumnDecrypted(rk: Schedule, k: nat, s: Block, t: Block, c: nat)
    requires k + 16 <= 176 && c < 4
  {
    var a, b := Add(InvSbox(s[4 * c]), rk[k + 4 * c]), Add(InvSbox(s[(4 * c + 13) % 16]), rk[k + 4 * c + 1]);
    var d, e := Add(InvSbox(s[(4 * c + 10) % 16]), rk[k + 4 * c + 2]), Add(InvSbox(s[(4 * c + 7) % 16]), rk[k + 4 * c + 3]);
    && t[4 * c] == Xor4(By0e(a), By0b(b), By0d(d), By09(e))
    && t[4 * c + 1] == Xor4(By09(a), By0e(b), By0b(d), By0d(e))
    && t[4 * c + 2] == Xor4(By0d(a), By09(b), By0e(d), By0b(e))
    && t[4 * c + 3] == Xor4(By0b(a), By0d(b), By09(d), By0e(e))
  }

  lemma Diagonal(c: nat)
    requires c < 4
    ensures ShiftSource(4 * c) == 4 * c && ShiftSource(4 * c + 1) == (4 * c + 5) % 16
    ensures ShiftSource(4 * c + 2) == (4 * c + 10) % 16 && ShiftSource(4 * c + 3) == (4 * c + 15) % 16
    ensures InvShiftSource(4 * c) == 4 * c && InvShiftSource(4 * c + 1) == (4 * c + 13) % 16
    ensures InvShiftSource(4 * c + 2) == (4 * c + 10) % 16 && InvShiftSource(4 * c + 3) == (4 * c + 7) % 16
  {
    hide ShiftSource, InvShiftSource;
    Wrapped(0, c);
    Wrapped(1, c);
    Wrapped(2, c);
    Wrapped(3, c);
    SmallMod(4 * c, 16);
    ModOf(4 * c + 16, 1, 4 * c, 16);
  }

  /** Row r of column c, and where it comes from, as positions of the block. */
  lemma Wrapped(r: nat, c: nat)
    requires r < 4 && c < 4
    ensures ShiftSource(4 * c + r) == (4 * c + 5 * r) % 16
    ensures InvShiftSource(4 * c + r) == (4 * c + 16 - 3 * r) % 16
  {
    hide ShiftSource, InvShiftSource;
    ShiftSourcesAt(r, c);
    ModOf(4 * c + 5 * r, (c + r) / 4, 4 * ((c + r) % 4) + r, 16);
    ModOf(4 * c + 16 - 3 * r, (c + 4 - r) / 4, 4 * ((c + 4 - r) % 4) + r, 16);
  }

  lemma ShiftedColumn(s: Block, c: nat)
    requires c < 4
    ensures Column(ShiftRows(SubBytes(s)), c) ==
            Word(Sbox(s[4 * c]), Sbox(s[(4 * c + 5) % 16]), Sbox(s[(4 * c + 10) % 16]), Sbox(s[(4 * c + 15) % 16]))
    ensures Column(InvSubBytes(InvShiftRows(s)), c) ==
            Word(InvSbox(s[4 * c]), InvSbox(s[(4 * c + 13) % 16]), InvSbox(s[(4 * c + 10) % 16]), InvSbox(s[(4 * c + 7) % 16]))
  {
    hide Sbox, InvSbox, SubByte, InvSubByte, ShiftSource, InvShiftSource;
    Diagonal(c);
    SboxIsSubByte(s[4 * c]);
    SboxIsSubByte(s[(4 * c + 5) % 16]);
    SboxIsSubByte(s[(4 * c + 10) % 16]);
    SboxIsSubByte(s[(4 * c + 15) % 16]);
    InvSboxIsInvSubByte(s[4 * c]);
    InvSboxIsInvSubByte(s[(4 * c + 13) % 16]);
    InvSboxIsInvSubByte(s[(4 * c + 10) % 16]);
    InvSboxIsInvSubByte(s[(4 * c + 7) % 16]);
  }

  lemma KeyedColumn(s: Block, rk: Schedule, r: nat, c: nat)
    requires r <= 10 && c < 4
    ensures Column(Xor(s, RoundKey(rk, r)), c) ==
            AddWord(Column(s, c), Word(rk[16 * r + 4 * c], rk[16 * r + 4 * c + 1], rk[16 * r + 4 * c + 2], rk[16 * r + 4 * c + 3]))
  {
    hide Add;
  }

  /** Every byte of every round of the cipher. */
  lemma RoundBytes(rk: Schedule, r: nat, s: Block, c: nat)
    requires r <= 10 && c < 4
    ensures ColumnEncrypted(rk, 16 * r, s, Round(rk, r, s), c)
  {
    hide Sbox, SubBytes, ShiftRows, Add, Xtime, Xor5, WordProduct, MultiplyColumns, Xor, RoundKey;
    var u := ShiftRows(SubBytes(s));
    ShiftedColumn(s, c);
    MultiplyColumn(MIX, u, c);
    MixedColumnIsProduct(Column(u, c));
    KeyedColumn(MixColumns(u), rk, r, c);
  }

  /** Every byte of every round of the inverse cipher. */
  lemma InvRoundBytes(rk: Schedule, r: nat, s: Block, c: nat)
    requires r <= 10 && c < 4
    ensures ColumnDecrypted(rk, 16 * r, s, InvRound(rk, r, s), c)
  {
    hide InvSbox, InvSubBytes, InvShiftRows, Add, By0e, By0b, By0d, By09, Xor4, WordProduct, MultiplyColumns, Xor, RoundKey;
    var u := Xor(InvSubBytes(InvShiftRows(s)), RoundKey(rk, r));
    ShiftedColumn(s, c);
    KeyedColumn(InvSubBytes(InvShiftRows(s)), rk, r, c);
    MultiplyColumn(INV_MIX, u, c);
    UnmixedColumnIsProduct(Column(u, c));
  }

  // ---------- Whole blocks ----------

  ghost predicate RoundDone(rk: Schedule, r: nat, s: Block, t: Block)
    requires r <= 10
  {
    forall c: nat | c < 4 :: ColumnEncrypted(rk, 16 * r, s, t, c)
  }

  ghost predicate InvRoundDone(rk: Schedule, r: nat, s: Block, t: Block)
    requires r <= 10
  {
    forall c: nat | c < 4 :: ColumnDecrypted(rk, 16 * r, s, t, c)
  }

  ghost predicate KeyAdded(rk: Schedule, k: nat, s: Block, t: Block)
    requires k + 16 <= 176
  {
    forall i: nat | i < 16 :: t[i] == Add(s[i], rk[k + i])
  }

  /** The last step of the cipher: no mixing. */
  ghost predicate FinalDone(rk: Schedule, s: Block, t: Block) {
    forall i: nat | i < 16 :: t[i] == Add(Sbox(s[(i + 4 * (i % 4)) % 16]), rk[160 + i])
  }

  ghost predicate InvFinalDone(rk: Schedule, s: Block, t: Block) {
    forall i: nat | i < 16 :: t[i] == Add(InvSbox(s[(i + 16 - 4 * (i % 4)) % 16]), rk[i])
  }

  /** The eleven states of an encryption: round key 0, nine mixed rounds, the last one unmixed. */
  ghost predicate Encryption(rk: Schedule, s: Block, st: seq<Block>) {
    && |st| == 11 && KeyAdded(rk, 0, s, st[0])
    && (forall r: nat | 1 <= r < 10 :: RoundDone(rk, r, st[r - 1], st[r]))
    && FinalDone(rk, st[9], st[10])
  }

  /** The eleven states of a decryption: round key 10, rounds 9 down to 1, the last one unmixed. */
  ghost predicate Decryption(rk: Schedule, s: Block, st: seq<Block>) {
    && |st| == 11 && KeyAdded(rk, 160, s, st[0])
    && (forall n: nat | 1 <= n < 10 :: InvRoundDone(rk, 10 - n, st[n - 1], st[n]))
    && InvFinalDone(rk, st[9], st[10])
  }

  lemma SameColumns(t: Block, u: Block)
    requires forall c: nat | c < 4 :: Column(t, c) == Column(u, c)
    ensures t == u
  {
    forall i: nat | i < 16
      ensures t[i] == u[i]
    {
      EntryOfColumn(t, i);
      EntryOfColumn(u, i);
      hide Entry, Column;
    }
  }

  /** The byte equations of a round have one solution, the round. */
  lemma RoundDoneExactly(rk: Schedule, r: nat, s: Block, t: Block)
    requires r <= 10
    ensures RoundDone(rk, r, s, t) <==> t == Round(rk, r, s)
    ensures InvRoundDone(rk, r, s, t) <==> t == InvRound(rk, r, s)
  {
    hide Round, InvRound, Sbox, InvSbox, Xtime, Add, Xor5, Xor4, By0e, By0b, By0d, By09;
    var u, v := Round(rk, r, s), InvRound(rk, r, s);
    forall c: nat | c < 4
      ensures ColumnEncrypted(rk, 16 * r, s, u, c) && ColumnDecrypted(rk, 16 * r, s, v, c)
    {
      RoundBytes(rk, r, s, c);
      InvRoundBytes(rk, r, s, c);
    }
    if RoundDone(rk, r, s, t) {
      forall c: nat | c < 4
        ensures Column(t, c) == Column(u, c)
      {
        assert ColumnEncrypted(rk, 16 * r, s, t, c) && ColumnEncrypted(rk, 16 * r, s, u, c);
      }
      SameColumns(t, u);
    }
    if InvRoundDone(rk, r, s, t) {
      forall c: nat | c < 4
        ensures Column(t, c) == Column(v, c)
      {
        assert ColumnDecrypted(rk, 16 * r, s, t, c) && ColumnDecrypted(rk, 16 * r, s, v, c);
      }
      SameColumns(t, v);
    }
  }

  lemma KeyAddedExactly(rk: Schedule, r: nat, s: Block, t: Block)
    requires r <= 10
    ensures KeyAdded(rk, 16 * r, s, t) <==> t == Xor(s, RoundKey(rk, r))
  {
    hide Add;
    var u := Xor(s, RoundKey(rk, r));
    assert forall i: nat | i < 16 :: u[i] == Add(s[i], rk[16 * r + i]);
  }

  lemma RowSource(i: nat)
    requires i < 16
    ensures ShiftSource(i) == (i + 4 * (i % 4)) % 16 && InvShiftSource(i) == (i + 16 - 4 * (i % 4)) % 16
  {
    hide ShiftSource, InvShiftSource;
    Wrapped(i % 4, i / 4);
  }

  lemma FinalExactly(rk: Schedule, s: Block, t: Block)
    ensures FinalDone(rk, s, t) <==> t == Xor(ShiftRows(SubBytes(s)), RoundKey(rk, 10))
    ensures InvFinalDone(rk, s, t) <==> t == Xor(InvSubBytes(InvShiftRows(s)), RoundKey(rk, 0))
  {
    hide Add, Sbox, InvSbox, SubByte, InvSubByte, ShiftSource, InvShiftSource;
    var u, v := Xor(ShiftRows(SubBytes(s)), RoundKey(rk, 10)), Xor(InvSubBytes(InvShiftRows(s)), RoundKey(rk, 0));
    forall i: nat | i < 16
      ensures u[i] == Add(Sbox(s[(i + 4 * (i % 4)) % 16]), rk[160 + i])
      ensures v[i] == Add(InvSbox(s[(i + 16 - 4 * (i % 4)) % 16]), rk[i])
    {
      RowSource(i);
      SboxIsSubByte(s[ShiftSource(i)]);
      InvSboxIsInvSubByte(s[InvShiftSource(i)]);
    }
  }

  /** The states of a run of rounds are the values of Rounds. */
  lemma {:induction false} RoundsByStates(rk: Schedule, s: Block, st: seq<Block>, n: nat)
    requires Encryption(rk, s, st) && n < 10
    ensures st[n] == Rounds(rk, n, Xor(s, RoundKey(rk, 0)))
    decreases n
  {
    hide KeyAdded, RoundDone, FinalDone, Round, Xor, RoundKey;
    if n == 0 {
      KeyAddedExactly(rk, 0, s, st[0]);
    } else {
      RoundsByStates(rk, s, st, n - 1);
      assert RoundDone(rk, n, st[n - 1], st[n]);
      RoundDoneExactly(rk, n, st[n - 1], st[n]);
    }
  }

  lemma {:induction false} InvRoundsByStates(rk: Schedule, s: Block, st: seq<Block>, n: nat)
    requires Decryption(rk, s, st) && n < 10
    ensures InvRounds(rk, 9 - n, st[n]) == InvRounds(rk, 9, Xor(s, RoundKey(rk, 10)))
    decreases n
  {
    hide KeyAdded, InvRoundDone, InvFinalDone, InvRound, Xor, RoundKey;
    if n == 0 {
      KeyAddedExactly(rk, 10, s, st[0]);
    } else {
      InvRoundsByStates(rk, s, st, n - 1);
      assert InvRoundDone(rk, 10 - n, st[n - 1], st[n]);
      RoundDoneExactly(rk, 10 - n, st[n - 1], st[n]);
    }
  }

  lemma CipherByStates(rk: Schedule, s: Block, st: seq<Block>)
    requires Encryption(rk, s, st)
    ensures |st| == 11 && Cipher(rk, s) == st[10]
  {
    hide Rounds, KeyAdded, RoundDone, FinalDone, Xor, SubBytes, ShiftRows, RoundKey;
    RoundsByStates(rk, s, st, 9);
    FinalExactly(rk, st[9], st[10]);
  }

  lemma InvCipherByStates(rk: Schedule, s: Block, st: seq<Block>)
    requires Decryption(rk, s, st)
    ensures |st| == 11 && InvCipher(rk, s) == st[10]
  {
    hide KeyAdded, InvRoundDone, InvFinalDone, Xor, InvSubBytes, InvShiftRows, InvRound, RoundKey;
    InvRoundsByStates(rk, s, st, 9);
    FinalExactly(rk, st[9], st[10]);
  }

  ghost function EncryptionState(rk: Schedule, s: Block, n: nat): Block
    requires n <= 10
  {
    if n == 0 then Xor(s, RoundKey(rk, 0))
    else if n < 10 then Round(rk, n, EncryptionState(rk, s, n - 1))
    else Xor(ShiftRows(SubBytes(EncryptionState(rk, s, 9))), RoundKey(rk, 10))
  }

  ghost function DecryptionState(rk: Schedule, s: Block, n: nat): Block
    requires n <= 10
  {
    if n == 0 then Xor(s, RoundKey(rk, 10))
    else if n < 10 then InvRound(rk, 10 - n, DecryptionState(rk, s, n - 1))
    else Xor(InvSubBytes(InvShiftRows(DecryptionState(rk, s, 9))), RoundKey(rk, 0))
  }

  lemma EncryptionEnds(rk: Schedule, s: Block)
    ensures KeyAdded(rk, 0, s, EncryptionState(rk, s, 0))
    ensures FinalDone(rk, EncryptionState(rk, s, 9), EncryptionState(rk, s, 10))
  {
    hide KeyAdded, FinalDone, Round, Xor, SubBytes, ShiftRows, RoundKey;
    KeyAddedExactly(rk, 0, s, EncryptionState(rk, s, 0));
    FinalExactly(rk, EncryptionState(rk, s, 9), EncryptionState(rk, s, 10));
  }

  lemma EncryptionStep(rk: Schedule, s: Block, r: nat)
    requires 1 <= r < 10
    ensures RoundDone(rk, r, EncryptionState(rk, s, r - 1), EncryptionState(rk, s, r))
  {
    hide RoundDone, Round, Xor, RoundKey;
    RoundDoneExactly(rk, r, EncryptionState(rk, s, r - 1), EncryptionState(rk, s, r));
  }

  lemma DecryptionEnds(rk: Schedule, s: Block)
    ensures KeyAdded(rk, 160, s, DecryptionState(rk, s, 0))
    ensures InvFinalDone(rk, DecryptionState(rk, s, 9), DecryptionState(rk, s, 10))
  {
    hide KeyAdded, InvFinalDone, InvRound, Xor, InvSubBytes, InvShiftRows, RoundKey;
    KeyAddedExactly(rk, 10, s, DecryptionState(rk, s, 0));
    FinalExactly(rk, DecryptionState(rk, s, 9), DecryptionState(rk, s, 10));
  }

  lemma DecryptionStep(rk: Schedule, s: Block, n: nat)
    requires 1 <= n < 10
    ensures InvRoundDone(rk, 10 - n, DecryptionState(rk, s, n - 1), DecryptionState(rk, s, n))
  {
    hide InvRoundDone, InvRound, Xor, RoundKey;
    RoundDoneExactly(rk, 10 - n, DecryptionState(rk, s, n - 1), DecryptionState(rk, s, n));
  }

  lemma EncryptionExists(rk: Schedule, s: Block)
    ensures Encryption(rk, s, seq(11, n requires 0 <= n < 11 => EncryptionState(rk, s, n)))
  {
    hide KeyAdded, RoundDone, FinalDone, EncryptionState;
    EncryptionEnds(rk, s);
    forall r: nat | 1 <= r < 10
      ensures RoundDone(rk, r, EncryptionState(rk, s, r - 1), EncryptionState(rk, s, r))
    {
      EncryptionStep(rk, s, r);
    }
  }

  lemma DecryptionExists(rk: Schedule, s: Block)
    ensures Decryption(rk, s, seq(11, n requires 0 <= n < 11 => DecryptionState(rk, s, n)))
  {
    hide KeyAdded, InvRoundDone, InvFinalDone, DecryptionState;
    DecryptionEnds(rk, s);
    forall n: nat | 1 <= n < 10
      ensures InvRoundDone(rk, 10 - n, DecryptionState(rk, s, n - 1), DecryptionState(rk, s, n))
    {
      DecryptionStep(rk, s, n);
    }
  }

  /** The Cipher of section 5.1, for every schedule and block, is the last of the eleven states that
      the byte equations lead through. */
  lemma CipherExactly(rk: Schedule, s: Block, t: Block)
    ensures t == Cipher(rk, s) <==> exists st :: Encryption(rk, s, st) && st[10] == t
  {
    hide Encryption, Cipher;
    EncryptionExists(rk, s);
    forall st | Encryption(rk, s, st)
      ensures |st| == 11 && st[10] == Cipher(rk, s)
    {
      CipherByStates(rk, s, st);
    }
  }

  /** Likewise the InvCipher of section 5.3. */
  lemma InvCipherExactly(rk: Schedule, s: Block, t: Block)
    ensures t == InvCipher(rk, s) <==> exists st :: Decryption(rk, s, st) && st[10] == t
  {
    hide Decryption, InvCipher;
    DecryptionExists(rk, s);
    forall st | Decryption(rk, s, st)
      ensures |st| == 11 && st[10] == InvCipher(rk, s)
    {
      InvCipherByStates(rk, s, st);
    }
  }
}
