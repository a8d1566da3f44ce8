/** The crypto engine's registers by offset and number, as a driver sees them. */
module CryptoRegisters {
  import opened Bytes
  import opened Numbers
  import opened Modular
  import opened GuestMemory
  import opened Aes
  import opened KeySchedule
  import opened CryptoDevice
  import opened CryptoRuns
  import Cbc

  // ---------- Addresses and length ----------

  /** Each half of an address register is set by its own write, and the length by its one. */
  lemma AddressWrites(w: World, val: bv32)
    ensures var e, k := w.engine, val as nat;
            && OnWrite(w, RegisterWrite(0x08, val)) == w.(engine := e.(src := e.src - e.src % 0x1_0000_0000 + k))
            && OnWrite(w, RegisterWrite(0x0C, val)) == w.(engine := e.(src := k * 0x1_0000_0000 + e.src % 0x1_0000_0000))
            && OnWrite(w, RegisterWrite(0x10, val)) == w.(engine := e.(dst := e.dst - e.dst % 0x1_0000_0000 + k))
            && OnWrite(w, RegisterWrite(0x14, val)) == w.(engine := e.(dst := k * 0x1_0000_0000 + e.dst % 0x1_0000_0000))
            && OnWrite(w, RegisterWrite(0x18, val)) == w.(engine := e.(len := k))
  {
    hide Command, WithKeyWord, WithWord;
    Halves(w.engine.src, val);
    Halves(w.engine.dst, val);
    hide WithLow, WithHigh;
  }

  /** No other aligned offset does anything. */
  lemma OtherWrites(w: World, a: nat, val: bv32)
    requires a % 4 == 0 && (a < 0x08 || 0x40 <= a)
    ensures OnWrite(w, RegisterWrite(a, val)) == w
  {
    hide Command, WithKeyWord, WithWord, WithLow, WithHigh;
  }

  // ---------- The command register ----------

  /** What a command register write does, by the number written: with bit 0 clear nothing; on an
      idle engine 3 modulo 4 encrypts and 1 modulo 4 decrypts, 4096 bytes at most and whole blocks
      only, from source to destination, and raises vector 2. */
  lemma CommandByNumber(w: World, val: bv32)
    ensures var e, k, v := w.engine, val as nat, OnWrite(w, RegisterWrite(0x1C, val));
            var n := if e.len > 4096 then 4096 else e.len;
            && (k % 2 == 0 || e.busy || n % 16 != 0 ==> v == w)
            && (k % 2 == 1 && !e.busy && n % 16 == 0 ==>
                  && v == w.(mem := v.mem, raised := v.raised)
                  && v.raised == (if w.msix then w.raised + [2] else w.raised)
                  && (CanRead(w.mem, e.dst, n) && CanWrite(w.mem, e.dst, n) ==>
                        && (k % 4 == 3 ==>
                              Read(v.mem, e.dst, n) == Cbc.Encrypt(e.roundKeys, e.iv, Read(w.mem, e.src, n)))
                        && (k % 4 == 1 ==>
                              Read(v.mem, e.dst, n) == Cbc.Decrypt(e.roundKeys, e.iv, Read(w.mem, e.src, n))))
                  && forall a: nat | a < e.dst || e.dst + n <= a :: ByteAt(v.mem, a) == ByteAt(w.mem, a))
  {
    hide Command, WithKeyWord, WithWord, WithLow, WithHigh, Cbc.Encrypt, Cbc.Decrypt, Read, ByteAt, CanRead, CanWrite;
    LowBit(val);
    SecondBit(val);
    LowDigits(val as nat);
    if Starts(val) && !w.engine.busy {
      CommandAccepted(w, Encrypts(val));
      CommandMoves(w, Encrypts(val));
    }
  }

  lemma LowDigits(k: nat)
    ensures k % 4 == 3 ==> k % 2 == 1
    ensures k % 4 == 1 ==> k % 2 == 1
  {}

  lemma CommandMoves(w: World, encrypt: bool)
    ensures var v := Command(w, encrypt); v == w.(mem := v.mem, raised := v.raised)
  {
    hide Transform, Read, Write;
  }

  // ---------- Key and vector ----------

  /** Key word i, at 0x20 + 4i, holds the number written, low byte first; the other twelve bytes
      stay, and the schedule follows with word 3 only. */
  lemma KeyWordBytes(w: World, i: nat, val: bv32)
    requires i < 4
    ensures var e, v := w.engine, OnWrite(w, RegisterWrite(0x20 + 4 * i, val));
            && v == w.(engine := e.(key := v.engine.key, roundKeys := v.engine.roundKeys))
            && LittleEndian(v.engine.key[4 * i..4 * i + 4]) == val as nat
            && (forall j: nat | j < 16 && j / 4 != i :: v.engine.key[j] == e.key[j])
            && v.engine.roundKeys == if i == 3 then KeyExpansion(v.engine.key) else e.roundKeys
  {
    hide Command, WithLow, WithHigh, KeyExpansion, WithWord, LittleEndian;
    WordBytes(w.engine.key, i, val);
  }

  /** Vector word i, at 0x30 + 4i, likewise. */
  lemma IvWordBytes(w: World, i: nat, val: bv32)
    requires i < 4
    ensures var e, v := w.engine, OnWrite(w, RegisterWrite(0x30 + 4 * i, val));
            && v == w.(engine := e.(iv := v.engine.iv))
            && LittleEndian(v.engine.iv[4 * i..4 * i + 4]) == val as nat
            && (forall j: nat | j < 16 && j / 4 != i :: v.engine.iv[j] == e.iv[j])
  {
    hide Command, WithLow, WithHigh, WithKeyWord, WithWord, LittleEndian;
    WordBytes(w.engine.iv, i, val);
  }

  lemma WordBytes(b: Block, i: nat, val: bv32)
    requires i < 4
    ensures var c := WithWord(b, 4 * i, val);
            && LittleEndian(c[4 * i..4 * i + 4]) == val as nat
            && forall j: nat | j < 16 && j / 4 != i :: c[j] == b[j]
  {
    hide LittleEndian, Bytes32;
    WordNumber(val);
    var c := WithWord(b, 4 * i, val);
    assert c[4 * i..4 * i + 4] == Bytes32(val);
    forall j: nat | j < 16 && j / 4 != i
      ensures c[j] == b[j]
    {
      assert j < 4 * i || 4 * i + 4 <= j;
    }
  }

  /** The four writes of a whole vector, low word first. */
  function IvWrites(b: Block): seq<RegisterWrite> {
    [RegisterWrite(0x30, Value32(b[0..4])), RegisterWrite(0x34, Value32(b[4..8])),
     RegisterWrite(0x38, Value32(b[8..12])), RegisterWrite(0x3C, Value32(b[12..16]))]
  }

  lemma IvWordWrite(w: World, i: nat, val: bv32)
    requires i == 0 || i == 4 || i == 8 || i == 12
    ensures OnWrite(w, RegisterWrite(0x30 + i, val)) == w.(engine := w.engine.(iv := WithWord(w.engine.iv, i, val)))
  {
    hide WithLow, WithHigh, Command, WithKeyWord, WithWord;
  }

  lemma LoadIv(w: World, b: Block)
    ensures AfterWrites(w, IvWrites(b)) == w.(engine := w.engine.(iv := b))
  {
    hide WithWord, AfterWrites, OnWrite, Value32;
    var v0, v1, v2, v3 := Value32(b[0..4]), Value32(b[4..8]), Value32(b[8..12]), Value32(b[12..16]);
    var with := (v: World, i: nat, val: bv32) requires i + 4 <= 16 =>
      v.(engine := v.engine.(iv := WithWord(v.engine.iv, i, val)));
    KeyWords(w.engine.iv, b);
    var w1 := with(w, 0, v0);
    var w2 := with(w1, 4, v1);
    var w3 := with(w2, 8, v2);
    var r0, r1, r2, r3 := RegisterWrite(0x30, v0), RegisterWrite(0x34, v1), RegisterWrite(0x38, v2), RegisterWrite(0x3C, v3);
    IvWordWrite(w, 0, v0);
    IvWordWrite(w1, 4, v1);
    IvWordWrite(w2, 8, v2);
    IvWordWrite(w3, 12, v3);
    OneWrite(w, r0);
    OneWrite(w1, r1);
    OneWrite(w2, r2);
    OneWrite(w3, r3);
    AfterMoreWrites(w, [r0], [r1]);
    AfterMoreWrites(w, [r0] + [r1], [r2]);
    AfterMoreWrites(w, [r0] + [r1] + [r2], [r3]);
    assert IvWrites(b) == [r0] + [r1] + [r2] + [r3];
  }

  /** Writing a whole vector loads it, and it stays through any further writes elsewhere. */
  lemma IvLoaded(w: World, b: Block, rs: seq<RegisterWrite>)
    requires forall r | r in rs :: r.addr < 0x30 || 0x40 <= r.addr
    ensures AfterWrites(w, IvWrites(b) + rs).engine.iv == b
  {
    LoadIv(w, b);
    hide OnWrite, IvWrites;
    AfterMoreWrites(w, IvWrites(b), rs);
    IvStays(AfterWrites(w, IvWrites(b)), rs);
  }

  lemma {:induction false} IvStays(w: World, rs: seq<RegisterWrite>)
    requires forall r | r in rs :: r.addr < 0x30 || 0x40 <= r.addr
    ensures AfterWrites(w, rs).engine.iv == w.engine.iv
  {
    hide WithLow, WithHigh, Command, WithKeyWord, WithWord;
    if rs != [] {
      var before, last := rs[..|rs| - 1], rs[|rs| - 1];
      IvStays(w, before);
      CommandKeeps(AfterWrites(w, before), Encrypts(last.val));
      KeyWordKeepsIv(AfterWrites(w, before), last);
    }
  }

  lemma KeyWordKeepsIv(w: World, r: RegisterWrite)
    ensures 0x20 <= r.addr < 0x30 && r.addr % 4 == 0 ==> WithKeyWord(w, r.addr - 0x20, r.val).engine.iv == w.engine.iv
  {
    hide WithWord;
  }
}
