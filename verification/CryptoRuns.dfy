/** What sequences of register writes do to the crypto engine. */
module CryptoRuns {
  import opened Bytes
  import opened GuestMemory
  import opened Aes
  import opened KeySchedule
  import opened CryptoDevice
  import Cbc

  // ---------- Commands ----------

  /** A length is accepted that is a whole number of blocks or above the clamp. */
  predicate Acceptable(len: nat) {
    len % 16 == 0 || len > DMA_MAX_LEN
  }

  /** A command on an acceptable length, and no other, converts its source, cut to 4096 bytes,
      into its destination where that is mapped, and changes nothing beyond it; a refused one
      changes nothing at all. */
  lemma CommandAccepted(w: World, encrypt: bool)
    ensures var e, n, v := w.engine, TransferLength(w.engine.len), Command(w, encrypt);
            && (n % 16 == 0 <==> Acceptable(e.len)) && n <= DMA_MAX_LEN
            && (!Acceptable(e.len) ==> v == w)
            && (Acceptable(e.len) ==>
                  && (CanRead(w.mem, e.dst, n) && CanWrite(w.mem, e.dst, n) ==>
                        Read(v.mem, e.dst, n) == Transform(e, encrypt, Read(w.mem, e.src, n)))
                  && (forall a: nat | a < e.dst || e.dst + n <= a :: ByteAt(v.mem, a) == ByteAt(w.mem, a))
                  && v.raised == if w.msix then w.raised + [CRYPTO_VECTOR] else w.raised)
  {
    hide CanRead, CanWrite, Transform, Read, Write, ByteAt;
    var e, n, v := w.engine, TransferLength(w.engine.len), Command(w, encrypt);
    if Acceptable(e.len) {
      var coded := Transform(e, encrypt, Read(w.mem, e.src, n));
      if CanRead(w.mem, e.dst, n) && CanWrite(w.mem, e.dst, n) {
        ReadBack(w.mem, e.dst, coded);
      }
      forall a: nat | a < e.dst || e.dst + n <= a
        ensures ByteAt(v.mem, a) == ByteAt(w.mem, a)
      {
        ByteAfterWrite(w.mem, e.dst, coded, a);
      }
    }
  }

  /** Length 4097, no multiple of 16, is accepted and the byte after the first 4096 is left out. */
  lemma LongCommandIsCut(w: World, encrypt: bool)
    requires w.engine.len == 4097
    requires CanRead(w.mem, w.engine.dst, 4096) && CanWrite(w.mem, w.engine.dst, 4096)
    ensures var e, v := w.engine, Command(w, encrypt);
            && Read(v.mem, e.dst, 4096) == Transform(e, encrypt, Read(w.mem, e.src, 4096))
            && ByteAt(v.mem, e.dst + 4096) == ByteAt(w.mem, e.dst + 4096)
  {
    hide Command, Transform, Read, ByteAt, CanRead, CanWrite;
    CommandAccepted(w, encrypt);
  }

  /** Registers other than key, IV and command. */
  predicate Quiet(r: RegisterWrite) {
    r.addr != CRYPTO_CMD && !(CRYPTO_KEY <= r.addr < CRYPTO_KEY + 16) && !(CRYPTO_IV <= r.addr < CRYPTO_IV + 16)
  }

  lemma {:induction false} QuietWrites(w: World, rs: seq<RegisterWrite>)
    requires forall r | r in rs :: Quiet(r)
    ensures var v := AfterWrites(w, rs);
            v == w.(engine := w.engine.(src := v.engine.src, dst := v.engine.dst, len := v.engine.len))
  {
    hide WithLow, WithHigh, Command, WithKeyWord;
    if rs != [] {
      QuietWrites(w, rs[..|rs| - 1]);
      assert Quiet(rs[|rs| - 1]);
    }
  }

  /** The command register either starts a command or does nothing. */
  lemma CommandWrite(w: World, val: bv32)
    requires !w.engine.busy && Starts(val)
    ensures OnWrite(w, RegisterWrite(CRYPTO_CMD, val)) == Command(w, Encrypts(val))
  {
    hide Command;
  }

  /** A command followed, after any quiet writes that aim it at the first one's result, by the
      opposite command restores the original bytes at the second destination, however source and
      destinations overlap. */
  lemma ThereAndBack(w: World, go: bv32, rs: seq<RegisterWrite>, back: bv32)
    requires !w.engine.busy && Starts(go) && Starts(back) && Encrypts(go) != Encrypts(back)
    requires forall r | r in rs :: Quiet(r)
    requires var n := TransferLength(w.engine.len);
             var v := AfterWrites(OnWrite(w, RegisterWrite(CRYPTO_CMD, go)), rs).engine;
             && n % 16 == 0 && TransferLength(v.len) == n && v.src == w.engine.dst
             && CanWrite(w.mem, v.src, n) && CanRead(w.mem, v.src, n)
             && CanWrite(w.mem, v.dst, n) && CanRead(w.mem, v.dst, n)
    ensures var n := TransferLength(w.engine.len);
            var v := AfterWrites(OnWrite(w, RegisterWrite(CRYPTO_CMD, go)), rs);
            Read(OnWrite(v, RegisterWrite(CRYPTO_CMD, back)).mem, v.engine.dst, n) == Read(w.mem, w.engine.src, n)
  {
    hide AfterWrites, OnWrite, Starts, Encrypts, CanWrite, CanRead, Read, Write;
    var e := w.engine;
    var n := TransferLength(e.len);
    var text := Read(w.mem, e.src, n);
    CommandWrite(w, go);
    var w1 := OnWrite(w, RegisterWrite(CRYPTO_CMD, go));
    QuietWrites(w1, rs);
    var w2 := AfterWrites(w1, rs);
    CommandWrite(w2, back);
    var coded := Transform(e, Encrypts(go), text);
    WriteKeepsAccess(w.mem, e.dst, coded, e.dst, n);
    WriteKeepsAccess(w.mem, e.dst, coded, w2.engine.dst, n);
    ReadBack(w.mem, e.dst, coded);
    ReadBack(w1.mem, w2.engine.dst, Transform(w2.engine, Encrypts(back), coded));
    Cbc.DecryptEncrypt(e.roundKeys, e.iv, text);
    Cbc.EncryptDecrypt(e.roundKeys, e.iv, text);
  }

  // ---------- Key and schedule ----------

  const LAST_KEY_WORD := CRYPTO_KEY + 12

  /** Index of the last write to the last key word, or -1. */
  function LastExpansion(rs: seq<RegisterWrite>): (i: int)
    ensures -1 <= i < |rs|
  {
    if rs == [] then -1
    else if rs[|rs| - 1].addr == LAST_KEY_WORD then |rs| - 1
    else LastExpansion(rs[..|rs| - 1])
  }

  /** In every run the schedule is the expansion of the key register as it stood right after the
      last key word was last written; it fits the key register of now exactly when that one
      still holds the same key. */
  lemma {:induction false} ScheduleLatched(w: World, rs: seq<RegisterWrite>)
    ensures var i := LastExpansion(rs);
            var e := AfterWrites(w, rs).engine;
            if i < 0 then e.roundKeys == w.engine.roundKeys
            else
              var latched := AfterWrites(w, rs[..i + 1]).engine.key;
              && e.roundKeys == KeyExpansion(latched)
              && (e.roundKeys == KeyExpansion(e.key) <==> e.key == latched)
  {
    hide WithLow, WithHigh, Command, WithWord, KeyExpansion;
    if rs != [] {
      var before, last := rs[..|rs| - 1], rs[|rs| - 1];
      var i := LastExpansion(rs);
      if last.addr == LAST_KEY_WORD {
        assert rs[..i + 1] == rs;
      } else {
        ScheduleLatched(w, before);
        CommandKeeps(AfterWrites(w, before), Encrypts(last.val));
        assert i >= 0 ==> before[..i + 1] == rs[..i + 1];
      }
      if i >= 0 {
        ExpansionInjective(AfterWrites(w, rs).engine.key, AfterWrites(w, rs[..i + 1]).engine.key);
      }
    }
  }

  lemma ExpansionInjective(k: Block, l: Block)
    ensures KeyExpansion(k) == KeyExpansion(l) <==> k == l
  {
    hide KeyExpansion;
    ExpansionReversible(k, l, 0);
  }

  lemma CommandKeeps(w: World, encrypt: bool)
    ensures Command(w, encrypt).engine == w.engine
  {}

  /** The four writes of a whole key, low word first. */
  function KeyWrites(k: Block): seq<RegisterWrite> {
    [RegisterWrite(CRYPTO_KEY, Value32(k[0..4])), RegisterWrite(CRYPTO_KEY + 4, Value32(k[4..8])),
     RegisterWrite(CRYPTO_KEY + 8, Value32(k[8..12])), RegisterWrite(CRYPTO_KEY + 12, Value32(k[12..16]))]
  }

  lemma {:induction false} AfterMoreWrites(w: World, rs: seq<RegisterWrite>, qs: seq<RegisterWrite>)
    ensures AfterWrites(w, rs + qs) == AfterWrites(AfterWrites(w, rs), qs)
  {
    hide OnWrite;
    if qs == [] {
      assert rs + qs == rs;
    } else {
      assert (rs + qs)[..|rs + qs| - 1] == rs + qs[..|qs| - 1];
      AfterMoreWrites(w, rs, qs[..|qs| - 1]);
    }
  }

  /** Writing a whole key loads it with its schedule, and the schedule stays through any further
      writes that leave the last key word alone. */
  lemma KeyLoaded(w: World, k: Block, rs: seq<RegisterWrite>)
    requires forall r | r in rs :: r.addr != LAST_KEY_WORD
    ensures AfterWrites(w, KeyWrites(k)).engine.key == k
    ensures AfterWrites(w, KeyWrites(k) + rs).engine.roundKeys == KeyExpansion(k)
  {
    LoadKey(w, k);
    hide OnWrite, KeyExpansion, AfterWrites;
    var w1 := AfterWrites(w, KeyWrites(k));
    AfterMoreWrites(w, KeyWrites(k), rs);
    NoExpansion(rs);
    ScheduleLatched(w1, rs);
  }

  lemma {:induction false} NoExpansion(rs: seq<RegisterWrite>)
    requires forall r | r in rs :: r.addr != LAST_KEY_WORD
    ensures LastExpansion(rs) == -1
  {
    if rs != [] {
      NoExpansion(rs[..|rs| - 1]);
    }
  }

  lemma OneWrite(w: World, r: RegisterWrite)
    ensures AfterWrites(w, [r]) == OnWrite(w, r)
  {
    hide OnWrite;
    assert [r][..0] == [];
    assert AfterWrites(w, []) == w;
  }

  lemma KeyWords(b: Block, k: Block)
    ensures WithWord(WithWord(WithWord(WithWord(b, 0, Value32(k[0..4])), 4, Value32(k[4..8])),
                              8, Value32(k[8..12])), 12, Value32(k[12..16])) == k
  {
    hide WithWord, Value32;
    var c := WithWord(WithWord(b, 0, Value32(k[0..4])), 4, Value32(k[4..8]));
    TwoWords(b, 0, k);
    TwoWords(c, 8, k);
    assert k == c[..8] + k[8..16] + k[16..];
  }

  lemma TwoWords(b: Block, i: nat, k: Block)
    requires i + 8 <= 16
    ensures WithWord(WithWord(b, i, Value32(k[i..i + 4])), i + 4, Value32(k[i + 4..i + 8])) == b[..i] + k[i..i + 8] + b[i + 8..]
  {
    Layout32(k[i..i + 4]);
    Layout32(k[i + 4..i + 8]);
    hide Bytes32, Value32;
    assert k[i..i + 8] == k[i..i + 4] + k[i + 4..i + 8];
  }

  lemma KeyWordWrite(w: World, i: nat, val: bv32)
    requires i == 0 || i == 4 || i == 8 || i == 12
    ensures OnWrite(w, RegisterWrite(CRYPTO_KEY + i, val)) == WithKeyWord(w, i, val)
  {
    hide WithLow, WithHigh, Command, WithKeyWord;
  }

  lemma LoadKey(w: World, k: Block)
    ensures AfterWrites(w, KeyWrites(k)) == w.(engine := w.engine.(key := k, roundKeys := KeyExpansion(k)))
  {
    hide WithWord, AfterWrites, OnWrite, KeyExpansion, Value32;
    var v0, v1, v2, v3 := Value32(k[0..4]), Value32(k[4..8]), Value32(k[8..12]), Value32(k[12..16]);
    var r := (i: nat, v: bv32) => RegisterWrite(CRYPTO_KEY + i, v);
    KeyWords(w.engine.key, k);
    var w1 := WithKeyWord(w, 0, v0);
    var w2 := WithKeyWord(w1, 4, v1);
    var w3 := WithKeyWord(w2, 8, v2);
    KeyWordWrite(w, 0, v0);
    OneWrite(w, r(0, v0));
    KeyWordWrite(w1, 4, v1);
    OneWrite(w1, r(4, v1));
    KeyWordWrite(w2, 8, v2);
    OneWrite(w2, r(8, v2));
    KeyWordWrite(w3, 12, v3);
    OneWrite(w3, r(12, v3));
    AfterMoreWrites(w, [r(0, v0)], [r(4, v1)]);
    AfterMoreWrites(w, [r(0, v0)] + [r(4, v1)], [r(8, v2)]);
    AfterMoreWrites(w, [r(0, v0)] + [r(4, v1)] + [r(8, v2)], [r(12, v3)]);
    assert KeyWrites(k) == [r(0, v0)] + [r(4, v1)] + [r(8, v2)] + [r(12, v3)];
  }
}
