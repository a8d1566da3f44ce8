/** BAR5, the crypto engine: registers, the command that moves guest memory through AES-CBC,
    and what runs of register writes guarantee. */
module CryptoDevice {
  import opened Bytes
  import opened GuestMemory
  import opened Aes
  import opened KeySchedule
  import AesEngine
  import Cbc

  const CRYPTO_SRC_LO := 0x08
  const CRYPTO_SRC_HI := 0x0C
  const CRYPTO_DST_LO := 0x10
  const CRYPTO_DST_HI := 0x14
  const CRYPTO_LEN := 0x18
  const CRYPTO_CMD := 0x1C
  const CRYPTO_KEY := 0x20
  const CRYPTO_IV := 0x30

  const CRYPTO_VECTOR := 2

  // ---------- The engine as a value ----------

  datatype Engine = Engine(src: nat, dst: nat, len: nat, busy: bool, key: Block, iv: Block, roundKeys: Schedule)

  /** The engine together with what its commands act on. */
  datatype World = World(engine: Engine, mem: Memory, msix: bool, raised: seq<nat>)

  /** One aligned 32-bit register write. */
  datatype RegisterWrite = RegisterWrite(addr: nat, val: bv32)

  predicate Starts(val: bv32) {
    val & 1 != 0
  }

  predicate Encrypts(val: bv32) {
    val & 2 != 0
  }

  /** A block with the word at byte index i replaced. */
  function WithWord(b: Block, i: nat, val: bv32): Block
    requires i + 4 <= 16
  {
    b[..i] + Bytes32(val) + b[i + 4..]
  }

  ghost function Transform(e: Engine, encrypt: bool, data: Cbc.Blocks): (coded: Cbc.Blocks)
    ensures |coded| == |data|
  {
    if encrypt then Cbc.Encrypt(e.roundKeys, e.iv, data) else Cbc.Decrypt(e.roundKeys, e.iv, data)
  }

  /** A started command: nothing when the clamped length is not a whole number of blocks. */
  ghost function Command(w: World, encrypt: bool): World {
    var n := TransferLength(w.engine.len);
    if n % 16 != 0 then w
    else
      w.(mem := Write(w.mem, w.engine.dst, Transform(w.engine, encrypt, Read(w.mem, w.engine.src, n))),
         raised := if w.msix then w.raised + [CRYPTO_VECTOR] else w.raised)
  }

  /** The schedule follows the key only when the last key word is written. */
  ghost function WithKeyWord(w: World, i: nat, val: bv32): World
    requires i + 4 <= 16
  {
    var key := WithWord(w.engine.key, i, val);
    w.(engine := w.engine.(key := key, roundKeys := if i + 4 >= 16 then KeyExpansion(key) else w.engine.roundKeys))
  }

  ghost function OnWrite(w: World, r: RegisterWrite): World {
    var e := w.engine;
    if r.addr == CRYPTO_SRC_LO then w.(engine := e.(src := WithLow(e.src, r.val)))
    else if r.addr == CRYPTO_SRC_HI then w.(engine := e.(src := WithHigh(e.src, r.val)))
    else if r.addr == CRYPTO_DST_LO then w.(engine := e.(dst := WithLow(e.dst, r.val)))
    else if r.addr == CRYPTO_DST_HI then w.(engine := e.(dst := WithHigh(e.dst, r.val)))
    else if r.addr == CRYPTO_LEN then w.(engine := e.(len := r.val as nat))
    else if r.addr == CRYPTO_CMD then
      if Starts(r.val) && !e.busy then Command(w, Encrypts(r.val)) else w
    else if CRYPTO_KEY <= r.addr < CRYPTO_KEY + 16 && r.addr % 4 == 0 then
      WithKeyWord(w, r.addr - CRYPTO_KEY, r.val)
    else if CRYPTO_IV <= r.addr < CRYPTO_IV + 16 && r.addr % 4 == 0 then
      w.(engine := e.(iv := WithWord(e.iv, r.addr - CRYPTO_IV, r.val)))
    else w
  }

  ghost function AfterWrites(w: World, rs: seq<RegisterWrite>): World {
    if rs == [] then w else OnWrite(AfterWrites(w, rs[..|rs| - 1]), rs[|rs| - 1])
  }

  // ---------- The engine as the source keeps it ----------

  class CryptoEngine {
    const bus: GuestBus
    var src: nat
    var dst: nat
    var len: nat
    var busy: bool
    const key: array<byte>
    const iv: array<byte>
    const roundKeys: array<byte>

    ghost function Repr(): set<object> {
      {this, bus, key, iv, roundKeys}
    }

    ghost predicate Valid()
      reads this
    {
      && key.Length == 16 && iv.Length == 16 && roundKeys.Length == 176
      && key != iv && key != roundKeys && iv != roundKeys
    }

    ghost function State(): World
      reads this, Repr()
      requires Valid()
    {
      World(Engine(src, dst, len, busy, key[..], iv[..], roundKeys[..]), bus.mem, bus.msixEnabled, bus.raised)
    }

    constructor (bus: GuestBus)
      ensures Valid() && this.bus == bus && fresh(Repr() - {bus})
      ensures !busy && src == dst == len == 0
    {
      this.bus := bus;
      src, dst, len, busy := 0, 0, 0, false;
      key := new byte[16](_ => 0);
      iv := new byte[16](_ => 0);
      roundKeys := new byte[176](_ => 0);
    }

    /** memcpy of a 32-bit register value into a byte array, little end first. */
    method StoreWord(a: array<byte>, i: nat, val: bv32)
      requires a.Length == 16 && i + 4 <= 16
      modifies a
      ensures a[..] == WithWord(old(a[..]), i, val)
    {
      var bytes := Bytes32(val);
      a[i], a[i + 1], a[i + 2], a[i + 3] := bytes[0], bytes[1], bytes[2], bytes[3];
    }

    /** data through AES-CBC, by way of the two bounce buffers. */
    method Convert(encrypt: bool, data: Cbc.Blocks) returns (coded: Cbc.Blocks)
      requires Valid() && |data| <= DMA_MAX_LEN
      ensures coded == if encrypt then Cbc.Encrypt(roundKeys[..], iv[..], data) else Cbc.Decrypt(roundKeys[..], iv[..], data)
    {
      var n := |data|;
      var buf := new byte[DMA_MAX_LEN](i => if 0 <= i < |data| then data[i] else 0);
      var out := new byte[DMA_MAX_LEN](_ => 0);
      assert buf[..n] == data;
      if encrypt {
        Cbc.EncryptBuffer(roundKeys, iv, buf, out, n);
      } else {
        Cbc.DecryptBuffer(roundKeys, iv, buf, out, n);
      }
      coded := out[..n];
    }

    /** The start of a command. */
    method Start(encrypt: bool)
      requires Valid() && !busy
      modifies this, bus
      ensures Valid() && State() == Command(old(State()), encrypt)
    {
      hide Cbc.Encrypt, Cbc.Decrypt, Read, Write;
      var n := TransferLength(len);
      if n % 16 != 0 {
        return;
      }
      busy := true;
      var ok, data := bus.DmaRead(src, n);
      var coded := Convert(encrypt, data);
      ok := bus.DmaWrite(dst, coded);
      busy := false;
      bus.Notify(CRYPTO_VECTOR);
    }

    /** A write into the key; the last word also expands it. */
    method WriteKey(i: nat, val: bv32)
      requires Valid() && i + 4 <= 16
      modifies key, roundKeys
      ensures Valid()
      ensures State() == WithKeyWord(old(State()), i, val)
    {
      hide WithWord, KeyExpansion;
      StoreWord(key, i, val);
      if i + 4 >= 16 {
        AesEngine.ExpandKey(key, roundKeys);
      }
    }

    method WriteIv(i: nat, val: bv32)
      requires Valid() && i + 4 <= 16
      modifies iv
      ensures Valid()
      ensures State() == var w := old(State()); w.(engine := w.engine.(iv := WithWord(w.engine.iv, i, val)))
    {
      hide WithWord;
      StoreWord(iv, i, val);
    }

    /** edu_crypto_write for an aligned 32-bit access. */
    method WriteRegister(addr: nat, val: bv32)
      requires Valid() && addr % 4 == 0
      modifies this, bus, key, iv, roundKeys
      ensures Valid() && State() == OnWrite(old(State()), RegisterWrite(addr, val))
    {
      hide Command, WithLow, WithHigh, WithWord, WithKeyWord, Starts, Encrypts;
      if addr == CRYPTO_SRC_LO {
        src := WithLow(src, val);
      } else if addr == CRYPTO_SRC_HI {
        src := WithHigh(src, val);
      } else if addr == CRYPTO_DST_LO {
        dst := WithLow(dst, val);
      } else if addr == CRYPTO_DST_HI {
        dst := WithHigh(dst, val);
      } else if addr == CRYPTO_LEN {
        len := val as nat;
      } else if addr == CRYPTO_CMD {
        if Starts(val) && !busy {
          Start(Encrypts(val));
        }
      } else if CRYPTO_KEY <= addr < CRYPTO_KEY + 16 {
        WriteKey(addr - CRYPTO_KEY, val);
      } else if CRYPTO_IV <= addr < CRYPTO_IV + 16 {
        WriteIv(addr - CRYPTO_IV, val);
      }
    }
  }
}
