/** Key expansion of FIPS 197, section 5.2, for 128-bit keys, and its reversibility. */
module KeySchedule {
  import opened Gf256
  import opened AesTables
  import opened Aes

  function RotWord(w: Word): Word {
    Word(w.b1, w.b2, w.b3, w.b0)
  }

  ghost function SubWord(w: Word): Word {
    Word(SubByte(w.b0), SubByte(w.b1), SubByte(w.b2), SubByte(w.b3))
  }

  /** What is added to word i - 4 to make word i, given word i - 1. */
  ghost function Step(i: nat, previous: Word): Word
    requires 4 <= i < 44
  {
    if i % 4 == 0 then AddWord(SubWord(RotWord(previous)), Word(Rcon(i / 4), 0, 0, 0)) else previous
  }

  /** Word i of a schedule held as bytes. */
  function WordAt(rk: Schedule, i: nat): Word
    requires i < 44
  {
    Word(rk[4 * i], rk[4 * i + 1], rk[4 * i + 2], rk[4 * i + 3])
  }

  ghost function ScheduleWord(key: Block, i: nat): Word
    requires i < 44
  {
    if i < 4 then Column(key, i)
    else AddWord(ScheduleWord(key, i - 4), Step(i, ScheduleWord(key, i - 1)))
  }

  ghost function KeyExpansion(key: Block): Schedule {
    seq(176, j requires 0 <= j < 176 => Entry(ScheduleWord(key, j / 4), j % 4))
  }

  lemma ExpansionWord(key: Block, i: nat)
    requires i < 44
    ensures WordAt(KeyExpansion(key), i) == ScheduleWord(key, i)
  {
    hide KeyExpansion, ScheduleWord;
    ExpansionByte(key, i, 0);
    ExpansionByte(key, i, 1);
    ExpansionByte(key, i, 2);
    ExpansionByte(key, i, 3);
  }

  lemma ExpansionByte(key: Block, i: nat, j: nat)
    requires i < 44 && j < 4
    ensures KeyExpansion(key)[4 * i + j] == Entry(ScheduleWord(key, i), j)
  {
    hide ScheduleWord, Entry;
    assert (4 * i + j) / 4 == i && (4 * i + j) % 4 == j;
  }

  /** A byte string is the expansion of key when its words are. */
  lemma WordsDetermineSchedule(rk: Schedule, key: Block)
    requires forall i | 0 <= i < 44 :: WordAt(rk, i) == ScheduleWord(key, i)
    ensures rk == KeyExpansion(key)
  {
    hide ScheduleWord;
    forall j | 0 <= j < 176
      ensures rk[j] == KeyExpansion(key)[j]
    {
      assert rk[j] == Entry(WordAt(rk, j / 4), j % 4);
    }
  }

  /** The recurrence of section 5.2, for every word of the expanded key. */
  lemma ExpansionRecurrence(key: Block, i: nat)
    requires i < 44
    ensures var rk := KeyExpansion(key);
            WordAt(rk, i) == if i < 4 then Column(key, i) else AddWord(WordAt(rk, i - 4), Step(i, WordAt(rk, i - 1)))
  {
    ExpansionWord(key, i);
    if i >= 4 {
      ExpansionWord(key, i - 4);
      ExpansionWord(key, i - 1);
    }
    hide KeyExpansion, Step, WordAt;
  }

  // ---------- Four consecutive words determine the whole schedule ----------

  ghost predicate AgreeAt(k: Block, l: Block, n: nat)
    requires n <= 40
  {
    && ScheduleWord(k, n) == ScheduleWord(l, n)
    && ScheduleWord(k, n + 1) == ScheduleWord(l, n + 1)
    && ScheduleWord(k, n + 2) == ScheduleWord(l, n + 2)
    && ScheduleWord(k, n + 3) == ScheduleWord(l, n + 3)
  }

  lemma AddWordCancels(v: Word, w: Word)
    ensures AddWord(AddWord(v, w), w) == v
  {
    hide Add;
    AddSelf(v.b0, w.b0);
    AddSelf(v.b1, w.b1);
    AddSelf(v.b2, w.b2);
    AddSelf(v.b3, w.b3);
  }

  lemma AgreeBefore(k: Block, l: Block, n: nat)
    requires 0 < n <= 40 && AgreeAt(k, l, n)
    ensures AgreeAt(k, l, n - 1)
  {
    hide Step, AddWord, Column;
    AddWordCancels(ScheduleWord(k, n - 1), Step(n + 3, ScheduleWord(k, n + 2)));
    AddWordCancels(ScheduleWord(l, n - 1), Step(n + 3, ScheduleWord(l, n + 2)));
  }

  lemma {:induction false} AgreeEverywhereBefore(k: Block, l: Block, n: nat)
    requires n <= 40 && AgreeAt(k, l, n)
    ensures AgreeAt(k, l, 0)
  {
    hide AgreeAt;
    if n > 0 {
      AgreeBefore(k, l, n);
      AgreeEverywhereBefore(k, l, n - 1);
    }
  }

  lemma AgreeOnKey(k: Block, l: Block)
    requires AgreeAt(k, l, 0)
    ensures k == l
  {
    forall i | 0 <= i < 16
      ensures k[i] == l[i]
    {
      EntryOfColumn(k, i);
      EntryOfColumn(l, i);
      assert i / 4 == 0 || i / 4 == 1 || i / 4 == 2 || i / 4 == 3;
      hide Entry, Column;
    }
  }

  /** Round key r is words 4r to 4r + 3. */
  lemma RoundKeyWord(k: Block, r: nat, c: nat)
    requires r <= 10 && c < 4
    ensures Column(RoundKey(KeyExpansion(k), r), c) == ScheduleWord(k, 4 * r + c)
  {
    hide KeyExpansion, ScheduleWord;
    ExpansionWord(k, 4 * r + c);
    RoundKeyColumn(KeyExpansion(k), r, c);
  }

  lemma RoundKeyColumn(rk: Schedule, r: nat, c: nat)
    requires r <= 10 && c < 4
    ensures Column(RoundKey(rk, r), c) == WordAt(rk, 4 * r + c)
  {}

  lemma AgreeOnRoundKey(k: Block, l: Block, r: nat)
    requires r <= 10 && RoundKey(KeyExpansion(k), r) == RoundKey(KeyExpansion(l), r)
    ensures AgreeAt(k, l, 4 * r)
  {
    hide KeyExpansion, ScheduleWord, RoundKey, Column;
    RoundKeyWord(k, r, 0);
    RoundKeyWord(l, r, 0);
    RoundKeyWord(k, r, 1);
    RoundKeyWord(l, r, 1);
    RoundKeyWord(k, r, 2);
    RoundKeyWord(l, r, 2);
    RoundKeyWord(k, r, 3);
    RoundKeyWord(l, r, 3);
  }

  /** Any single round key determines the cipher key, and with it the whole schedule. */
  lemma ExpansionReversible(k: Block, l: Block, r: nat)
    requires r <= 10
    ensures RoundKey(KeyExpansion(k), r) == RoundKey(KeyExpansion(l), r) <==> k == l
  {
    hide KeyExpansion, RoundKey, AgreeAt;
    if RoundKey(KeyExpansion(k), r) == RoundKey(KeyExpansion(l), r) {
      AgreeOnRoundKey(k, l, r);
      AgreeEverywhereBefore(k, l, 4 * r);
      AgreeOnKey(k, l);
    }
  }
}
