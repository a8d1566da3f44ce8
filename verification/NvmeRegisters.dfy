/** The controller by offset and number: what a turn of the submission loop makes of the 64 bytes
    of a slot, the 16 bytes it posts, the identify page, and what each register write does. */
module NvmeRegisters {
  import opened Bytes
  import opened GuestMemory
  import opened NvmeDevice
  import N = Numbers

  // ---------- A submission slot in bytes ----------

  function BufferOf(s: seq<byte>): nat
    requires |s| == 64
  {
    N.LittleEndian(s[24..32])
  }

  function LbaOf(s: seq<byte>): nat
    requires |s| == 64
  {
    N.LittleEndian(s[40..48])
  }

  function BlocksOf(s: seq<byte>): nat
    requires |s| == 64
  {
    N.LittleEndian(s[48..50]) + 1
  }

  /** What the interpreter looks at, as numbers of the slot's bytes, low byte first. */
  lemma SlotFields(s: seq<byte>)
    requires |s| == 64
    ensures var cmd := DecodeCommand(s);
            && cmd.opcode == s[0] && Bytes16(cmd.cid) == s[2..4]
            && cmd.Prp1() == BufferOf(s) && cmd.Lba() == LbaOf(s) && cmd.Nlb() == BlocksOf(s)
  {
    hide Command.Prp1, Command.Lba, Command.Nlb, Bytes16, BufferOf, LbaOf, BlocksOf;
    AddressFields(s);
    CountField(s);
    Layout16(s[2..4]);
    hide Value16, Value32;
  }

  lemma AddressFields(s: seq<byte>)
    requires |s| == 64
    ensures DecodeCommand(s).Prp1() == BufferOf(s) && DecodeCommand(s).Lba() == LbaOf(s)
  {
    hide Value16, Value32, N.LittleEndian;
    N.TwoWords(s[24..32]);
    N.TwoWords(s[40..48]);
    assert s[24..32][0..4] == s[24..28] && s[24..32][4..8] == s[28..32];
    assert s[40..48][0..4] == s[40..44] && s[40..48][4..8] == s[44..48];
  }

  lemma CountField(s: seq<byte>)
    requires |s| == 64
    ensures DecodeCommand(s).Nlb() == BlocksOf(s)
  {
    hide Value16, Value32, N.LittleEndian, BlockCount;
    var t := s[48..52];
    assert t[0..2] == s[48..50];
    LowHalf(t);
  }

  lemma LowHalf(t: seq<byte>)
    requires |t| == 4
    ensures BlockCount(Value32(t)) == N.LittleEndian(t[0..2]) + 1
  {
    hide Value16, Value32, BlockCount, N.LittleEndian, N.Low16;
    LowOfFour(t);
    CountOfLow(Value32(t));
    N.Value16Number(t[0..2]);
    N.SameHalfword(N.Low16(Value32(t)), Value16(t[0..2]));
  }

  lemma LowOfFour(t: seq<byte>)
    requires |t| == 4
    ensures N.Low16(Value32(t)) == Value16(t[0..2])
  {
    assert Value32(t) == Join32(t[0], t[1], t[2], t[3]);
    assert Value16(t[0..2]) == N.Join8(t[1], t[0]);
    hide Value16, Value32, Join32, N.Low16, N.Join8;
    LowOfJoined(t[0], t[1], t[2], t[3]);
  }

  function Join32(a: byte, b: byte, c: byte, d: byte): bv32 {
    (a as bv32) | (b as bv32 << 8) | (c as bv32 << 16) | (d as bv32 << 24)
  }

  lemma LowOfJoined(a: byte, b: byte, c: byte, d: byte)
    ensures N.Low16(Join32(a, b, c, d)) == N.Join8(b, a)
  {}

  lemma CountOfLow(x: bv32)
    ensures BlockCount(x) == N.Low16(x) as nat + 1
  {}

  lemma Layout16(s: seq<byte>)
    requires |s| == 2
    ensures Bytes16(Value16(s)) == s
  {}

  // ---------- A turn in bytes ----------

  predicate InBounds(s: seq<byte>)
    requires |s| == 64
  {
    LbaOf(s) + BlocksOf(s) <= 2048
  }

  /** The two status bytes before the phase goes into the second one. */
  function StatusBytes(m: Memory, s: seq<byte>): (t: seq<byte>)
    requires |s| == 64
    ensures |t| == 2
  {
    var n := BlocksOf(s) * 512;
    if s[0] == 6 then [0, 0]
    else if s[0] != 1 && s[0] != 2 then [1, 0]
    else if (LbaOf(s) + BlocksOf(s)) % 0x1_0000_0000_0000_0000 > 2048 then [0x02, 0x80]
    else if (if s[0] == 2 then CanWrite(m, BufferOf(s), n) else CanRead(m, BufferOf(s), n)) then [0, 0]
    else [0x04, 0x80]
  }

  /** Guest memory with the data the slot's command moves into it. */
  function DataIn(m: Memory, storage: Storage, s: seq<byte>): Memory
    requires |s| == 64
  {
    var at := LbaOf(s) * 512;
    if s[0] == 6 && BufferOf(s) != 0 then Write(m, BufferOf(s), IdentifyPage())
    else if s[0] == 2 && InBounds(s) then Write(m, BufferOf(s), storage[at..at + BlocksOf(s) * 512])
    else m
  }

  /** The store with the data the slot's command brings. */
  function DataStored(m: Memory, storage: Storage, s: seq<byte>): seq<byte>
    requires |s| == 64
  {
    var at, n := LbaOf(s) * 512, BlocksOf(s) * 512;
    if s[0] == 1 && InBounds(s) then storage[..at] + Read(m, BufferOf(s), n) + storage[at + n..] else storage
  }

  /** A completion entry: head at bytes 8 and 9, identifier at 12 and 13, status at 14 and 15 with
      the phase in the lowest bit of byte 15, everything else zero. */
  ghost predicate IsEntry(e: seq<byte>, head: nat, cid: seq<byte>, status: seq<byte>, phase: byte)
    requires |cid| == |status| == 2
  {
    && |e| == 16 && e[..8] == [0, 0, 0, 0, 0, 0, 0, 0] && e[10] == e[11] == 0
    && N.LittleEndian(e[8..10]) == head && e[12..14] == cid && e[14] == status[0] && e[15] == status[1] | phase
  }

  ghost function SlotBytes(w: World): (s: seq<byte>)
    ensures |s| == 64
  {
    Read(w.mem, (w.ctrl.asq + 64 * w.ctrl.sqHead) % 0x1_0000_0000_0000_0000, 64)
  }

  /** One turn of edu_nvme_process_sq, in the bytes of the slot at the head: what memory, store,
      interrupts and queue registers hold after it. */
  lemma TurnByBytes(w: World)
    requires w.ctrl.sqHead < 65536 && w.ctrl.cqTail < 65536
    ensures var c, s, v, e := w.ctrl, SlotBytes(w), Turn(w), EncodeCqe(Completion(w, Fetched(w)));
            var head, tail := (c.sqHead + 1) % 65536, (c.cqTail + 1) % 65536;
            && IsEntry(e, c.sqHead, s[2..4], StatusBytes(w.mem, s), c.phase)
            && v.mem == Write(DataIn(w.mem, c.storage, s), (c.acq + 16 * c.cqTail) % 0x1_0000_0000_0000_0000, e)
            && v.raised == (if w.msix then w.raised + [0] else w.raised)
            && v.ctrl == c.(storage := v.ctrl.storage,
                            sqHead := if head > c.aqa as nat % 4096 then 0 else head,
                            cqTail := if tail > c.aqa as nat / 65536 then 0 else tail,
                            phase := if tail > c.aqa as nat / 65536 then c.phase ^ 1 else c.phase)
            && v.ctrl.storage == DataStored(w.mem, c.storage, s)
  {
    hide SlotBytes, DataIn, DataStored, StatusBytes, IsEntry, Fetched, Completion, EncodeCqe, Read, Write;
    hide DecodeCommand, SqSize, CqSize, NextHead, NextTail, NextPhase, MemoryAfter, StorageAfter, Turn;
    FetchesSlot(w);
    EntryBytes(w, SlotBytes(w));
    DataMoved(w.mem, w.ctrl.storage, SlotBytes(w));
    TurnParts(w);
    NextIndices(w.ctrl);
  }

  lemma NextIndices(c: Controller)
    requires c.sqHead < 65536 && c.cqTail < 65536
    ensures var head, tail := (c.sqHead + 1) % 65536, (c.cqTail + 1) % 65536;
            && NextHead(c.sqHead, SqSize(c.aqa)) == (if head > c.aqa as nat % 4096 then 0 else head)
            && NextTail(c.cqTail, CqSize(c.aqa)) == (if tail > c.aqa as nat / 65536 then 0 else tail)
            && NextPhase(c.cqTail, c.phase, CqSize(c.aqa)) == (if tail > c.aqa as nat / 65536 then c.phase ^ 1 else c.phase)
  {
    QueueSizes(c.aqa);
    hide SqSize, CqSize;
  }

  lemma FetchesSlot(w: World)
    ensures Fetched(w) == DecodeCommand(SlotBytes(w))
  {
    hide Read, DecodeCommand;
    assert SqAddr(w.ctrl, w.ctrl.sqHead) == (w.ctrl.asq + 64 * w.ctrl.sqHead) % 0x1_0000_0000_0000_0000;
  }

  lemma TurnParts(w: World)
    ensures var c, v, cmd := w.ctrl, Turn(w), Fetched(w);
            && v.mem == Write(MemoryAfter(w.mem, c.storage, cmd), (c.acq + 16 * c.cqTail) % 0x1_0000_0000_0000_0000,
                              EncodeCqe(Completion(w, cmd)))
            && v.raised == (if w.msix then w.raised + [0] else w.raised)
            && v.ctrl == c.(storage := v.ctrl.storage, sqHead := NextHead(c.sqHead, SqSize(c.aqa)),
                            cqTail := NextTail(c.cqTail, CqSize(c.aqa)), phase := NextPhase(c.cqTail, c.phase, CqSize(c.aqa)))
            && v.ctrl.storage == StorageAfter(w.mem, c.storage, cmd)
  {
    hide MemoryAfter, StorageAfter, EncodeCqe, Completion, Payload, Strays, Write, SqSize, CqSize, NextTail, NextPhase, NextHead, Fetched;
  }

  lemma DataMoved(m: Memory, storage: Storage, s: seq<byte>)
    requires |s| == 64
    ensures MemoryAfter(m, storage, DecodeCommand(s)) == DataIn(m, storage, s)
    ensures StorageAfter(m, storage, DecodeCommand(s)) == DataStored(m, storage, s)
  {
    hide Read, Write, IdentifyPage, LbaOf, BlocksOf, BufferOf, Command.Prp1, Command.Lba, Command.Nlb, Command.Accepted;
    SlotFields(s);
    var cmd := DecodeCommand(s);
    hide DecodeCommand;
    InStoreAccepted(cmd);
  }

  lemma InStoreAccepted(cmd: Command)
    ensures cmd.InStore() ==> cmd.Accepted()
  {
    hide Command.Lba, Command.Nlb;
  }

  lemma EntryBytes(w: World, s: seq<byte>)
    requires w.ctrl.sqHead < 65536 && |s| == 64 && Fetched(w) == DecodeCommand(s)
    ensures IsEntry(EncodeCqe(Completion(w, Fetched(w))), w.ctrl.sqHead, s[2..4], StatusBytes(w.mem, s), w.ctrl.phase)
  {
    hide StatusCode, Bytes16, ByteOf, N.LittleEndian, StatusBytes, WithPhase;
    var cmd := Fetched(w);
    SlotFields(s);
    hide Fetched, DecodeCommand;
    StatusInBytes(w.mem, s, cmd);
    PhaseInByte(StatusCode(w.mem, cmd), w.ctrl.phase);
    var q := Completion(w, cmd);
    EntryLayout(q);
    hide EncodeCqe;
  }

  lemma EntryLayout(q: Cqe)
    requires q.sqHead < 65536
    ensures var e := EncodeCqe(q);
            && e[..8] == [0, 0, 0, 0, 0, 0, 0, 0] && e[10] == e[11] == 0 && N.LittleEndian(e[8..10]) == q.sqHead
            && e[12..14] == Bytes16(q.cid) && e[14..16] == Bytes16(q.status)
            && e[14] == e[14..16][0] && e[15] == e[14..16][1]
  {
    hide Bytes16, ByteOf, N.LittleEndian;
    HeadBytes(q);
    N.Number2(EncodeCqe(q)[8..10]);
  }

  lemma StatusInBytes(m: Memory, s: seq<byte>, cmd: Command)
    requires |s| == 64 && cmd == DecodeCommand(s)
    ensures Bytes16(StatusCode(m, cmd)) == StatusBytes(m, s)
  {
    hide CanRead, CanWrite, LbaOf, BlocksOf, BufferOf, Command.Prp1, Command.Lba, Command.Nlb;
    SlotFields(s);
    hide DecodeCommand;
  }

  lemma PhaseInByte(code: bv16, phase: byte)
    ensures Bytes16(WithPhase(code, phase)) == [Bytes16(code)[0], Bytes16(code)[1] | phase]
  {
    hide WithPhase, N.Low8, N.High8;
    PhaseBelow(code, phase);
    PhaseAbove(code, phase);
    TwoBytes(code);
    TwoBytes(WithPhase(code, phase));
    hide Bytes16;
  }

  lemma TwoBytes(v: bv16)
    ensures Bytes16(v) == [N.Low8(v), N.High8(v)]
  {}

  lemma PhaseBelow(code: bv16, phase: byte)
    ensures N.Low8(WithPhase(code, phase)) == N.Low8(code)
  {}

  lemma PhaseAbove(code: bv16, phase: byte)
    ensures N.High8(WithPhase(code, phase)) == N.High8(code) | phase
  {}

  // ---------- Identify ----------

  /** IDENTIFY with a granted buffer clear of its completion slot delivers the page: vendor 0x1234,
      serial number and model as text, a transfer limit of 2^5 pages, one namespace, zeros elsewhere. */
  lemma IdentifyDelivers(w: World, cmd: Command)
    requires cmd.opcode == 6 && cmd.Prp1() != 0 && CanRead(w.mem, cmd.Prp1(), 4096) && CanWrite(w.mem, cmd.Prp1(), 4096)
    requires Disjoint(cmd.Prp1(), 4096, CqAddr(w.ctrl, w.ctrl.cqTail), 16)
    ensures var page := Read(ProcessCmd(w, cmd).mem, cmd.Prp1(), 4096);
            && N.LittleEndian(page[0..2]) == 0x1234 && page[4..8] == [0x45, 0x44, 0x55, 0]
            && page[24..32] == [0x45, 0x44, 0x55, 0x2d, 0x4e, 0x56, 0x4d, 0x45]
            && page[77] == 5 && N.LittleEndian(page[516..520]) == 1
            && (forall i: nat | i < 4096 && i !in {0, 1, 4, 5, 6, 77, 516} && !(24 <= i < 32) :: page[i] == 0)
            && StatusCode(w.mem, cmd) == 0 && ProcessCmd(w, cmd).ctrl.storage == w.ctrl.storage
  {
    PageBytes();
    hide Read, Write, CanRead, CanWrite, IdentifyPage, EncodeCqe, Completion, NextTail, NextPhase, CqSize, CqAddr, Command.Prp1,
      N.LittleEndian;
    var m := Write(w.mem, cmd.Prp1(), IdentifyPage());
    ReadBack(w.mem, cmd.Prp1(), IdentifyPage());
    ReadElsewhere(m, CqAddr(w.ctrl, w.ctrl.cqTail), EncodeCqe(Completion(w, cmd)), cmd.Prp1(), 4096);
  }

  lemma PageBytes()
    ensures var page := IdentifyPage();
            && N.LittleEndian(page[0..2]) == 0x1234 && page[4..8] == [0x45, 0x44, 0x55, 0]
            && page[24..32] == [0x45, 0x44, 0x55, 0x2d, 0x4e, 0x56, 0x4d, 0x45]
            && page[77] == 5 && N.LittleEndian(page[516..520]) == 1
            && (forall i: nat | i < 4096 && i !in {0, 1, 4, 5, 6, 77, 516} && !(24 <= i < 32) :: page[i] == 0)
  {
    var page := IdentifyPage();
    N.Number2(page[0..2]);
    N.Number4(page[516..520]);
  }

  // ---------- Register writes ----------

  /** Each half of the two queue addresses is set by its own write. */
  lemma AddressWrites(w: World, val: bv32)
    ensures var c, k := w.ctrl, val as nat;
            && OnWrite(w, 0x28, val) == w.(ctrl := c.(asq := c.asq - c.asq % 0x1_0000_0000 + k))
            && OnWrite(w, 0x2C, val) == w.(ctrl := c.(asq := k * 0x1_0000_0000 + c.asq % 0x1_0000_0000))
            && OnWrite(w, 0x30, val) == w.(ctrl := c.(acq := c.acq - c.acq % 0x1_0000_0000 + k))
            && OnWrite(w, 0x34, val) == w.(ctrl := c.(acq := k * 0x1_0000_0000 + c.acq % 0x1_0000_0000))
  {
    hide WithConfiguration, Submit;
    Halves(w.ctrl.asq, val);
    Halves(w.ctrl.acq, val);
    hide WithLow, WithHigh;
  }

  /** The queue sizes and the completion head, modulo 2^16; no offset without a register does anything. */
  lemma QueueWrites(w: World, a: nat, val: bv32)
    ensures OnWrite(w, 0x24, val) == w.(ctrl := w.ctrl.(aqa := val))
    ensures OnWrite(w, 0x1004, val) == w.(ctrl := w.ctrl.(cqHead := val as nat % 65536))
    ensures a !in {0x14, 0x24, 0x28, 0x2C, 0x30, 0x34, 0x1000, 0x1004} ==> OnWrite(w, a, val) == w
  {
    hide WithConfiguration, Submit, Low16, WithLow, WithHigh;
    LowNumber(val);
  }

  lemma LowNumber(val: bv32)
    ensures Low16(val) == val as nat % 65536
  {
    N.Halfwords(val);
  }

  /** An odd configuration makes the controller ready and restarts both queues; an even one makes
      it not ready and leaves the queues where they are. */
  lemma ConfigurationWrite(w: World, val: bv32)
    ensures var c, d := w.ctrl, OnWrite(w, 0x14, val).ctrl;
            && OnWrite(w, 0x14, val) == w.(ctrl := d)
            && (val as nat % 2 == 1 ==>
                  && d.csts as nat == c.csts as nat - c.csts as nat % 2 + 1
                  && d == c.(cc := val, csts := d.csts, sqHead := 0, sqTail := 0, cqHead := 0, cqTail := 0, phase := 1))
            && (val as nat % 2 == 0 ==>
                  d.csts as nat == c.csts as nat - c.csts as nat % 2 && d == c.(cc := val, csts := d.csts))
  {
    hide WithLow, WithHigh, Submit, SetReady, ClearReady;
    N.LowBit(val);
    ReadyNumbers(w.ctrl.csts);
  }

  lemma ReadyNumbers(csts: bv32)
    ensures SetReady(csts) as nat == csts as nat - csts as nat % 2 + 1
    ensures ClearReady(csts) as nat == csts as nat - csts as nat % 2
  {
    assert SetReady(csts) == N.WithLowBit(csts) && ClearReady(csts) == N.WithoutLowBit(csts);
    hide SetReady, ClearReady, N.WithLowBit, N.WithoutLowBit;
    N.LowBitSet(csts);
  }

  /** The submission doorbell sets the tail to the value modulo 2^16 and drains. */
  lemma DoorbellWrite(w: World, val: bv32)
    ensures OnWrite(w, 0x1000, val) == Drain(w.(ctrl := w.ctrl.(sqTail := val as nat % 65536)))
  {
    hide WithConfiguration, WithLow, WithHigh, Drain, Low16;
    LowNumber(val);
  }
}
