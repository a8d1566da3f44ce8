/** The crypto engine's host: the test program that encrypts a text, decrypts the result and
    compares. */
module CryptoHost {
  import opened Bytes
  import opened GuestMemory
  import opened Aes
  import opened KeySchedule
  import opened CryptoDevice
  import opened CryptoRuns
  import opened CryptoRegisters
  import Cbc

  const SRC_IOVA := 0x300000
  const DST_IOVA := 0x301000
  const PAGE_SIZE := 4096

  const START: bv32 := 1
  const START_ENCRYPT: bv32 := 3

  /** Both buffers are there and mapped for the device. */
  ghost predicate Mapped(m: Memory) {
    && DST_IOVA + PAGE_SIZE <= |m.cells|
    && CanRead(m, SRC_IOVA, PAGE_SIZE) && CanRead(m, DST_IOVA, PAGE_SIZE) && CanWrite(m, DST_IOVA, PAGE_SIZE)
  }

  function Zeros(): (s: seq<byte>)
    ensures |s| == PAGE_SIZE
  {
    seq(PAGE_SIZE, _ => 0)
  }

  /** The text in the source buffer, the destination cleared. */
  function Loaded(m: Memory, text: seq<byte>): Memory
    requires DST_IOVA + PAGE_SIZE <= |m.cells| && |text| <= PAGE_SIZE
  {
    Store(Store(m, SRC_IOVA, text), DST_IOVA, Zeros())
  }

  /** The register writes of encrypt and decrypt. */
  function JobWrites(len: bv32, cmd: bv32): seq<RegisterWrite> {
    [RegisterWrite(0x08, 0x300000), RegisterWrite(0x0C, 0), RegisterWrite(0x10, 0x301000), RegisterWrite(0x14, 0),
     RegisterWrite(0x18, len), RegisterWrite(0x1C, cmd)]
  }

  ghost function Job(w: World, text: seq<byte>, len: bv32, cmd: bv32): World
    requires DST_IOVA + PAGE_SIZE <= |w.mem.cells| && |text| <= PAGE_SIZE
  {
    AfterWrites(w.(mem := Loaded(w.mem, text)), JobWrites(len, cmd))
  }

  lemma NextWrite(w: World, rs: seq<RegisterWrite>, n: nat)
    requires n < |rs|
    ensures AfterWrites(w, rs[..n + 1]) == OnWrite(AfterWrites(w, rs[..n]), rs[n])
  {
    hide OnWrite;
    assert rs[..n + 1][..n] == rs[..n];
  }

  /** The engine aimed at the two buffers. */
  function Aimed(w: World, len: bv32): World {
    w.(engine := w.engine.(src := SRC_IOVA, dst := DST_IOVA, len := len as nat))
  }

  lemma AimingWrites(w: World, len: bv32, cmd: bv32)
    ensures AfterWrites(w, JobWrites(len, cmd)[..5]) == Aimed(w, len)
  {
    hide OnWrite, AfterWrites;
    var rs := JobWrites(len, cmd);
    AimedFrom(w, rs);
    AimedSource(w);
    var w2 := OnWrite(OnWrite(w, rs[0]), rs[1]);
    AimedDestination(w2);
    LengthWrite(OnWrite(OnWrite(w2, rs[2]), rs[3]), len);
  }

  lemma AimedSource(w: World)
    ensures OnWrite(OnWrite(w, RegisterWrite(0x08, 0x300000)), RegisterWrite(0x0C, 0)) ==
            w.(engine := w.engine.(src := SRC_IOVA))
  {
    hide OnWrite;
    AddressWrites(w, 0x300000);
    AddressWrites(OnWrite(w, RegisterWrite(0x08, 0x300000)), 0);
    LowThenHigh(w.engine.src, SRC_IOVA);
  }

  lemma AimedDestination(w: World)
    ensures OnWrite(OnWrite(w, RegisterWrite(0x10, 0x301000)), RegisterWrite(0x14, 0)) ==
            w.(engine := w.engine.(dst := DST_IOVA))
  {
    hide OnWrite;
    AddressWrites(w, 0x301000);
    AddressWrites(OnWrite(w, RegisterWrite(0x10, 0x301000)), 0);
    LowThenHigh(w.engine.dst, DST_IOVA);
  }

  lemma LowThenHigh(x: nat, low: nat)
    requires low < 0x1_0000_0000
    ensures (x - x % 0x1_0000_0000 + low) % 0x1_0000_0000 == low
  {}

  lemma LengthWrite(w: World, len: bv32)
    ensures OnWrite(w, RegisterWrite(0x18, len)) == w.(engine := w.engine.(len := len as nat))
  {
    AddressWrites(w, len);
    hide OnWrite;
  }

  lemma AimedFrom(w: World, rs: seq<RegisterWrite>)
    requires |rs| >= 5
    ensures AfterWrites(w, rs[..5]) == OnWrite(OnWrite(OnWrite(OnWrite(OnWrite(w, rs[0]), rs[1]), rs[2]), rs[3]), rs[4])
  {
    hide OnWrite;
    NextWrite(w, rs, 0);
    NextWrite(w, rs, 1);
    NextWrite(w, rs, 2);
    NextWrite(w, rs, 3);
    NextWrite(w, rs, 4);
    assert rs[..0] == [];
    assert AfterWrites(w, []) == w;
  }

  lemma LoadedBytes(m: Memory, text: seq<byte>)
    requires Mapped(m) && |text| <= PAGE_SIZE
    ensures DST_IOVA + PAGE_SIZE <= |m.cells|
    ensures Mapped(Loaded(m, text)) && Read(Loaded(m, text), SRC_IOVA, |text|) == text
  {
    hide Store, Zeros, Read, CanRead, CanWrite;
    var m1 := Store(m, SRC_IOVA, text);
    StoreKeepsAccess(m, SRC_IOVA, text, SRC_IOVA, PAGE_SIZE);
    StoreKeepsAccess(m, SRC_IOVA, text, DST_IOVA, PAGE_SIZE);
    StoreKeepsAccess(m1, DST_IOVA, Zeros(), SRC_IOVA, PAGE_SIZE);
    StoreKeepsAccess(m1, DST_IOVA, Zeros(), DST_IOVA, PAGE_SIZE);
    FewerReadable(m, SRC_IOVA, |text|);
    ReadStored(m, SRC_IOVA, text);
    ReadBesideStore(m1, DST_IOVA, Zeros(), SRC_IOVA, |text|);
  }

  lemma FewerReadable(m: Memory, a: nat, n: nat)
    requires CanRead(m, a, PAGE_SIZE) && n <= PAGE_SIZE
    ensures CanRead(m, a, n)
  {}

  lemma FewerWritable(m: Memory, a: nat, n: nat)
    requires CanWrite(m, a, PAGE_SIZE) && n <= PAGE_SIZE
    ensures CanWrite(m, a, n)
  {}

  /** A job is the command on an engine aimed at loaded buffers. */
  lemma JobIsCommand(w: World, text: seq<byte>, len: bv32, cmd: bv32)
    requires DST_IOVA + PAGE_SIZE <= |w.mem.cells| && |text| <= PAGE_SIZE
    ensures Job(w, text, len, cmd) == OnWrite(Aimed(w, len).(mem := Loaded(w.mem, text)), RegisterWrite(0x1C, cmd))
  {
    hide AfterWrites, OnWrite, Loaded;
    var w1 := w.(mem := Loaded(w.mem, text));
    var rs := JobWrites(len, cmd);
    AimingWrites(w1, len, cmd);
    NextWrite(w1, rs, 5);
    assert rs[..6] == rs;
  }

  /** Commands 3 and 1 on an idle engine with a mapped destination page. */
  lemma CommandOutcome(w: World, n: nat, cmd: bv32)
    requires !w.engine.busy && w.engine.dst == DST_IOVA && w.engine.len == n <= PAGE_SIZE && Mapped(w.mem)
    requires cmd == START || cmd == START_ENCRYPT
    ensures var e, v := w.engine, OnWrite(w, RegisterWrite(0x1C, cmd));
            && v.engine == e && v.msix == w.msix && Mapped(v.mem)
            && v.raised == (if w.msix && n % 16 == 0 then w.raised + [2] else w.raised)
            && (n % 16 == 0 ==>
                  var text := Read(w.mem, e.src, n);
                  Read(v.mem, DST_IOVA, n) ==
                  if cmd == START_ENCRYPT then Cbc.Encrypt(e.roundKeys, e.iv, text) else Cbc.Decrypt(e.roundKeys, e.iv, text))
  {
    hide OnWrite, Read, ByteAt, CanRead, CanWrite, Cbc.Encrypt, Cbc.Decrypt;
    FewerReadable(w.mem, DST_IOVA, n);
    FewerWritable(w.mem, DST_IOVA, n);
    CommandByNumber(w, cmd);
    CommandKeepsMapped(w, cmd);
  }

  /** One job: the destination buffer receives the text through AES-CBC under the loaded key and
      vector and vector 2 is raised, unless the length is not whole blocks, when only the
      buffers were loaded. */
  lemma JobOutcome(w: World, text: seq<byte>, len: bv32, cmd: bv32)
    requires !w.engine.busy && Mapped(w.mem) && |text| == len as nat <= PAGE_SIZE
    requires cmd == START || cmd == START_ENCRYPT
    ensures var e, v := w.engine, Job(w, text, len, cmd);
            && v.engine == e.(src := SRC_IOVA, dst := DST_IOVA, len := |text|)
            && v.msix == w.msix && Mapped(v.mem)
            && v.raised == (if w.msix && |text| % 16 == 0 then w.raised + [2] else w.raised)
            && (|text| % 16 == 0 ==>
                  Read(v.mem, DST_IOVA, |text|) ==
                  if cmd == START_ENCRYPT then Cbc.Encrypt(e.roundKeys, e.iv, text) else Cbc.Decrypt(e.roundKeys, e.iv, text))
  {
    hide Job, OnWrite, Loaded, Read, CanRead, CanWrite, Mapped, Cbc.Encrypt, Cbc.Decrypt;
    LoadedBytes(w.mem, text);
    JobIsCommand(w, text, len, cmd);
    CommandOutcome(Aimed(w, len).(mem := Loaded(w.mem, text)), |text|, cmd);
  }

  lemma CommandKeepsMapped(w: World, cmd: bv32)
    requires Mapped(w.mem)
    ensures Mapped(OnWrite(w, RegisterWrite(0x1C, cmd)).mem)
  {
    hide Read, CanRead, CanWrite, WithLow, WithHigh, WithKeyWord, WithWord;
    if Starts(cmd) && !w.engine.busy && TransferLength(w.engine.len) % 16 == 0 {
      var coded := Transform(w.engine, Encrypts(cmd), Read(w.mem, w.engine.src, TransferLength(w.engine.len)));
      WriteKeepsAccess(w.mem, w.engine.dst, coded, SRC_IOVA, PAGE_SIZE);
      WriteKeepsAccess(w.mem, w.engine.dst, coded, DST_IOVA, PAGE_SIZE);
    }
  }

  // ---------- The host as the source keeps it ----------

  class CryptoDriver {
    const engine: CryptoEngine

    ghost predicate Valid()
      reads engine, engine.bus
    {
      engine.Valid() && !engine.busy && Mapped(engine.bus.mem)
    }

    ghost function State(): World
      reads engine, engine.Repr()
      requires engine.Valid()
    {
      engine.State()
    }

    constructor (engine: CryptoEngine)
      ensures this.engine == engine
    {
      this.engine := engine;
    }

    /** set_key */
    method SetKey(key: Block)
      requires Valid()
      modifies engine.Repr()
      ensures Valid() && State() == old(State()).(engine := old(State()).engine.(key := key, roundKeys := KeyExpansion(key)))
    {
      hide OnWrite, AfterWrites, KeyExpansion, Mapped, Value32;
      ghost var start, rs := State(), KeyWrites(key);
      NoWrites(start, rs);
      var i := 0;
      while i < 16
        invariant 0 <= i <= 16 && i % 4 == 0
        invariant engine.Valid() && State() == AfterWrites(start, rs[..i / 4])
        decreases 16 - i
      {
        KeyWriteAt(key, i / 4);
        NextWrite(start, rs, i / 4);
        engine.WriteRegister(0x20 + i, Value32(key[i..i + 4]));
        i := i + 4;
      }
      assert rs[..4] == rs;
      LoadKey(start, key);
    }

    /** set_iv */
    method SetIv(iv: Block)
      requires Valid()
      modifies engine.Repr()
      ensures Valid() && State() == old(State()).(engine := old(State()).engine.(iv := iv))
    {
      hide OnWrite, AfterWrites, Mapped, Value32;
      ghost var start, rs := State(), IvWrites(iv);
      NoWrites(start, rs);
      var i := 0;
      while i < 16
        invariant 0 <= i <= 16 && i % 4 == 0
        invariant engine.Valid() && State() == AfterWrites(start, rs[..i / 4])
        decreases 16 - i
      {
        IvWriteAt(iv, i / 4);
        NextWrite(start, rs, i / 4);
        engine.WriteRegister(0x30 + i, Value32(iv[i..i + 4]));
        i := i + 4;
      }
      assert rs[..4] == rs;
      LoadIv(start, iv);
    }

    /** The common body of encrypt and decrypt, which differ in the command only. The wait comes
        back if an interrupt came. */
    method Run(text: seq<byte>, len: bv32, cmd: bv32) returns (ok: bool, result: seq<byte>)
      requires Valid() && |text| == len as nat <= PAGE_SIZE && (cmd == START || cmd == START_ENCRYPT)
      modifies engine.Repr()
      ensures Valid() && State() == Job(old(State()), text, len, cmd)
      ensures ok == (old(engine.bus.msixEnabled) && |text| % 16 == 0)
      ensures ok ==> result == Read(engine.bus.mem, DST_IOVA, |text|)
    {
      hide OnWrite, AfterWrites, Store, Zeros, Read, CanRead, CanWrite, Cbc.Encrypt, Cbc.Decrypt;
      ghost var start, rs := State(), JobWrites(len, cmd);
      JobOutcome(start, text, len, cmd);
      var before := |engine.bus.raised|;
      StoreKeepsAccess(engine.bus.mem, SRC_IOVA, text, DST_IOVA, PAGE_SIZE);
      engine.bus.HostStore(SRC_IOVA, text);
      engine.bus.HostStore(DST_IOVA, Zeros());
      ghost var loaded := State();
      AimedFrom(loaded, rs);
      NextWrite(loaded, rs, 5);
      assert rs[..6] == rs;
      engine.WriteRegister(0x08, 0x300000);
      engine.WriteRegister(0x0C, 0);
      engine.WriteRegister(0x10, 0x301000);
      engine.WriteRegister(0x14, 0);
      engine.WriteRegister(0x18, len);
      engine.WriteRegister(0x1C, cmd);
      ok := |engine.bus.raised| > before;
      result := if ok then Read(engine.bus.mem, DST_IOVA, |text|) else [];
    }

    /** test_encrypt_decrypt, for any key, vector and text up to a page: with interrupts on it
        succeeds exactly for whole blocks, and then has seen the CBC encryption of the text. */
    method TestEncryptDecrypt(key: Block, iv: Block, text: seq<byte>, len: bv32)
      returns (success: bool, ciphertext: seq<byte>)
      requires Valid() && |text| == len as nat <= PAGE_SIZE
      modifies engine.Repr()
      ensures Valid()
      ensures success == (old(engine.bus.msixEnabled) && |text| % 16 == 0)
      ensures success ==> ciphertext == Cbc.Encrypt(KeyExpansion(key), iv, text)
      ensures success ==> engine.bus.raised == old(engine.bus.raised) + [2, 2]
    {
      hide Job, Mapped, KeyExpansion, Read, Cbc.Encrypt, Cbc.Decrypt;
      SetKey(key);
      SetIv(iv);
      SetIv(iv);
      JobOutcome(State(), text, len, START_ENCRYPT);
      success, ciphertext := Run(text, len, START_ENCRYPT);
      if !success {
        return;
      }
      Cbc.DecryptEncrypt(KeyExpansion(key), iv, text);
      SetIv(iv);
      JobOutcome(State(), ciphertext, len, START);
      var decrypted;
      success, decrypted := Run(ciphertext, len, START);
      if success {
        success := decrypted == text;
      }
    }
  }

  lemma NoWrites(w: World, rs: seq<RegisterWrite>)
    ensures AfterWrites(w, rs[..0]) == w
  {}

  lemma KeyWriteAt(k: Block, j: nat)
    requires j < 4
    ensures KeyWrites(k)[j] == RegisterWrite(0x20 + 4 * j, Value32(k[4 * j..4 * j + 4]))
  {}

  lemma IvWriteAt(b: Block, j: nat)
    requires j < 4
    ensures IvWrites(b)[j] == RegisterWrite(0x30 + 4 * j, Value32(b[4 * j..4 * j + 4]))
  {}
}
