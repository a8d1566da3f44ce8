/** The NVMe controller: admin submission and completion queues, the command interpreter and
    the block store behind it. */
module NvmeDevice {
  import opened Bytes
  import Numbers
  import opened GuestMemory

  const NVME_CC := 0x14
  const NVME_AQA := 0x24
  const NVME_ASQ := 0x28
  const NVME_ACQ := 0x30
  const NVME_SQ0TDBL := 0x1000
  const NVME_CQ0HDBL := 0x1004

  const IDENTIFY: byte := 0x06
  const READ: byte := 0x02
  const WRITE: byte := 0x01

  const BLOCK_SIZE := 512
  const NUM_BLOCKS := 2048
  const STORAGE_SIZE := 1048576
  const CMD_SIZE := 64
  const CQE_SIZE := 16
  const NVME_VECTOR := 0
  const TWO_TO_THE_16 := 0x1_0000

  const OK: bv16 := 0
  const BAD_OPCODE: bv16 := 0x0001
  const BAD_LBA: bv16 := 0x8002
  const BAD_TRANSFER: bv16 := 0x8004

  // ---------- Commands and completions ----------

  /** The fields of a submission entry; 64-bit fields as low and high words. */
  datatype Command = Command(opcode: byte, flags: byte, cid: bv16, nsid: bv32,
                             rsvdLo: bv32, rsvdHi: bv32, mptrLo: bv32, mptrHi: bv32,
                             prp1Lo: bv32, prp1Hi: bv32, prp2Lo: bv32, prp2Hi: bv32,
                             cdw10: bv32, cdw11: bv32, cdw12: bv32, cdw13: bv32, cdw14: bv32, cdw15: bv32)
  {
    function Prp1(): nat {
      prp1Hi as nat * TWO_TO_THE_32 + prp1Lo as nat
    }

    function Lba(): nat {
      cdw11 as nat * TWO_TO_THE_32 + cdw10 as nat
    }

    function Nlb(): nat {
      BlockCount(cdw12)
    }

    function Bytes(): nat {
      Nlb() * BLOCK_SIZE
    }

    /** The range test of the interpreter, a 64-bit sum. */
    predicate Accepted() {
      (Lba() + Nlb()) % TWO_TO_THE_64 <= NUM_BLOCKS
    }

    predicate InStore() {
      Lba() + Nlb() <= NUM_BLOCKS
    }
  }

  /** Number of blocks; the field is zero-based. */
  function BlockCount(cdw12: bv32): nat {
    ((cdw12 & 0xFFFF) as bv16) as nat + 1
  }

  function FirstWords(opcode: byte, flags: byte, cid: bv16, nsid: bv32, lo: bv32, hi: bv32): (s: seq<byte>)
    ensures |s| == 16
  {
    [opcode, flags] + Bytes16(cid) + Bytes32(nsid) + (Bytes32(lo) + Bytes32(hi))
  }

  function EncodeCommand(c: Command): (s: seq<byte>)
    ensures |s| == CMD_SIZE
  {
    FirstWords(c.opcode, c.flags, c.cid, c.nsid, c.rsvdLo, c.rsvdHi) + FourWords(c.mptrLo, c.mptrHi, c.prp1Lo, c.prp1Hi) +
    FourWords(c.prp2Lo, c.prp2Hi, c.cdw10, c.cdw11) + FourWords(c.cdw12, c.cdw13, c.cdw14, c.cdw15)
  }

  function DecodeCommand(s: seq<byte>): Command
    requires |s| == CMD_SIZE
  {
    Command(s[0], s[1], Value16(s[2..4]), Value32(s[4..8]),
            Value32(s[8..12]), Value32(s[12..16]), Value32(s[16..20]), Value32(s[20..24]),
            Value32(s[24..28]), Value32(s[28..32]), Value32(s[32..36]), Value32(s[36..40]),
            Value32(s[40..44]), Value32(s[44..48]), Value32(s[48..52]), Value32(s[52..56]),
            Value32(s[56..60]), Value32(s[60..64]))
  }

  /** A completion entry. The slot number stays a number; cid and status are what hosts decode. */
  datatype Cqe = Cqe(sqHead: nat, cid: bv16, status: bv16)

  function EncodeCqe(q: Cqe): (s: seq<byte>)
    ensures |s| == CQE_SIZE
  {
    [0, 0, 0, 0, 0, 0, 0, 0, ByteOf(q.sqHead % 256), ByteOf(q.sqHead / 256 % 256), 0, 0] + Bytes16(q.cid) + Bytes16(q.status)
  }

  function CidOf(s: seq<byte>): bv16
    requires |s| == CQE_SIZE
  {
    Value16(s[12..14])
  }

  function StatusOf(s: seq<byte>): bv16
    requires |s| == CQE_SIZE
  {
    Value16(s[14..16])
  }

  function SqHeadOf(s: seq<byte>): nat
    requires |s| == CQE_SIZE
  {
    s[8] as nat + 256 * s[9] as nat
  }

  lemma CqeFields(q: Cqe)
    ensures CidOf(EncodeCqe(q)) == q.cid && StatusOf(EncodeCqe(q)) == q.status
  {
    hide Value16, Bytes16, ByteOf;
    RoundTrip16(q.cid);
    RoundTrip16(q.status);
    assert EncodeCqe(q)[12..14] == Bytes16(q.cid) && EncodeCqe(q)[14..16] == Bytes16(q.status);
  }

  /** Each field of a completion entry can be read back; result, reserved field and queue identifier
      are zero. */
  lemma CqeLayout(q: Cqe)
    requires q.sqHead < TWO_TO_THE_16
    ensures var s := EncodeCqe(q);
            && SqHeadOf(s) == q.sqHead && CidOf(s) == q.cid && StatusOf(s) == q.status
            && Value32(s[0..4]) == 0 && Value32(s[4..8]) == 0 && Value16(s[10..12]) == 0
  {
    CqeFields(q);
    HeadBytes(q);
    ZeroFields(q);
    hide EncodeCqe, Value16, Value32;
  }

  lemma HeadBytes(q: Cqe)
    requires q.sqHead < TWO_TO_THE_16
    ensures SqHeadOf(EncodeCqe(q)) == q.sqHead
  {
    hide ByteOf, Bytes16;
    Digits(q.sqHead);
    var s := EncodeCqe(q);
    assert s[8] == ByteOf(q.sqHead % 256) && s[9] == ByteOf(q.sqHead / 256 % 256);
    hide EncodeCqe;
  }

  lemma Digits(x: nat)
    requires x < TWO_TO_THE_16
    ensures x % 256 + 256 * (x / 256 % 256) == x
  {
    assert x / 256 < 256;
  }

  lemma ZeroFields(q: Cqe)
    ensures var s := EncodeCqe(q);
            Value32(s[0..4]) == 0 && Value32(s[4..8]) == 0 && Value16(s[10..12]) == 0
  {
    hide ByteOf, Bytes16;
    var s := EncodeCqe(q);
    assert s[0..4] == [0, 0, 0, 0] && s[4..8] == [0, 0, 0, 0] && s[10..12] == [0, 0];
  }

  lemma FirstWordsFields(opcode: byte, flags: byte, cid: bv16, nsid: bv32, lo: bv32, hi: bv32)
    ensures var s := FirstWords(opcode, flags, cid, nsid, lo, hi);
            && s[0] == opcode && s[1] == flags && Value16(s[2..4]) == cid
            && Value32(s[4..8]) == nsid && Value32(s[8..12]) == lo && Value32(s[12..16]) == hi
  {
    hide Value16, Value32, Bytes16, Bytes32;
    RoundTrip16(cid);
    RoundTrip32(nsid);
    RoundTrip32(lo);
    RoundTrip32(hi);
    var s := FirstWords(opcode, flags, cid, nsid, lo, hi);
    assert s[2..4] == Bytes16(cid) && s[4..8] == Bytes32(nsid);
    assert s[8..16] == Bytes32(lo) + Bytes32(hi);
    assert s[8..12] == s[8..16][0..4] && s[12..16] == s[8..16][4..8];
  }

  lemma DecodeEncodeCommand(c: Command)
    ensures DecodeCommand(EncodeCommand(c)) == c
  {
    hide Value16, Value32, FourWords, FirstWords;
    FirstWordsFields(c.opcode, c.flags, c.cid, c.nsid, c.rsvdLo, c.rsvdHi);
    FourWordsFields(c.mptrLo, c.mptrHi, c.prp1Lo, c.prp1Hi);
    FourWordsFields(c.prp2Lo, c.prp2Hi, c.cdw10, c.cdw11);
    FourWordsFields(c.cdw12, c.cdw13, c.cdw14, c.cdw15);
    var s := EncodeCommand(c);
    var p := FirstWords(c.opcode, c.flags, c.cid, c.nsid, c.rsvdLo, c.rsvdHi);
    var q := FourWords(c.mptrLo, c.mptrHi, c.prp1Lo, c.prp1Hi);
    var r := FourWords(c.prp2Lo, c.prp2Hi, c.cdw10, c.cdw11);
    var t := FourWords(c.cdw12, c.cdw13, c.cdw14, c.cdw15);
    assert s == p + q + r + t;
    hide EncodeCommand;
    Quarters(p, q, r, t);
    Quarter(s, p, 0);
    Quarter(s, q, 16);
    Quarter(s, r, 32);
    Quarter(s, t, 48);
    assert s[2..4] == p[2..4];
  }

  lemma Quarters(p: seq<byte>, q: seq<byte>, r: seq<byte>, t: seq<byte>)
    requires |p| == |q| == |r| == |t| == 16
    ensures var s := p + q + r + t;
            s[0..16] == p && s[16..32] == q && s[32..48] == r && s[48..64] == t
  {}

  lemma Quarter(s: seq<byte>, p: seq<byte>, at: nat)
    requires |p| == 16 && at + 16 <= |s| && s[at..at + 16] == p
    ensures s[at..at + 4] == p[0..4] && s[at + 4..at + 8] == p[4..8]
    ensures s[at + 8..at + 12] == p[8..12] && s[at + 12..at + 16] == p[12..16]
  {
    forall k: nat | k < 16
      ensures s[at + k] == p[k]
    {
      assert s[at..at + 16][k] == s[at + k];
    }
    Part(s, p, at, 4);
    Part(s, p, at, 8);
    Part(s, p, at, 12);
  }

  lemma Part(s: seq<byte>, p: seq<byte>, at: nat, k: nat)
    requires |p| == 16 && at + 16 <= |s| && k + 4 <= 16 && forall i: nat | i < 16 :: s[at + i] == p[i]
    ensures s[at + k..at + (k + 4)] == p[k..k + 4]
  {
    var u := s[at + k..at + (k + 4)];
    assert u[0] == p[k] && u[1] == p[k + 1] && u[2] == p[k + 2] && u[3] == p[k + 3];
  }

  // ---------- The controller as a value ----------

  type Storage = s: seq<byte> | |s| == STORAGE_SIZE witness seq(STORAGE_SIZE, _ => 0)

  datatype Controller = Controller(cc: bv32, csts: bv32, aqa: bv32, asq: nat, acq: nat,
                                   sqTail: nat, sqHead: nat, cqTail: nat, cqHead: nat, phase: byte, storage: Storage)

  /** A processed command: the slot it came from, the completion written, the bytes a WRITE took in. */
  datatype Done = Done(slot: nat, cmd: Command, cqe: Cqe, payload: seq<byte>)

  /** The controller, what it acts on, and its history. fault records that a command reached
      beyond the store, after which the model says nothing about the program. */
  datatype World = World(ctrl: Controller, mem: Memory, msix: bool, raised: seq<nat>, log: seq<Done>, fault: bool)

  function CqSize(aqa: bv32): (n: nat)
    ensures 1 <= n
  {
    ((aqa >> 16) as bv16) as nat + 1
  }

  function SqSize(aqa: bv32): (n: nat)
    ensures 1 <= n
  {
    ((aqa & 0xFFF) as bv12) as nat + 1
  }

  /** AQA by number: submission entries in its low 12 bits, completion entries in its upper half,
      both zero-based. */
  lemma QueueSizes(aqa: bv32)
    ensures SqSize(aqa) == aqa as nat % 4096 + 1
    ensures CqSize(aqa) == aqa as nat / 65536 + 1
  {
    Numbers.TwelveBits(aqa);
    Numbers.Halfwords(aqa);
  }

  /** The number of blocks is the low half of cdw12, zero-based. */
  lemma BlockCounts(cmd: Command)
    ensures cmd.Nlb() == cmd.cdw12 as nat % 65536 + 1
  {
    Numbers.Halfwords(cmd.cdw12);
  }

  function SqAddr(c: Controller, k: nat): nat {
    (c.asq + k * CMD_SIZE) % TWO_TO_THE_64
  }

  function CqAddr(c: Controller, k: nat): nat {
    (c.acq + k * CQE_SIZE) % TWO_TO_THE_64
  }

  /** The identify page, byte by byte. */
  function IdentifyByte(i: nat): byte {
    match i
    case 0 => 0x34 case 1 => 0x12
    case 4 => 0x45 case 5 => 0x44 case 6 => 0x55
    case 24 => 0x45 case 25 => 0x44 case 26 => 0x55 case 27 => 0x2d
    case 28 => 0x4e case 29 => 0x56 case 30 => 0x4d case 31 => 0x45
    case 77 => 5
    case 516 => 1
    case _ => 0
  }

  function IdentifyPage(): (s: seq<byte>)
    ensures |s| == 4096
  {
    seq(4096, i requires 0 <= i => IdentifyByte(i))
  }

  lemma InStoreFits(cmd: Command)
    ensures cmd.InStore() ==> cmd.Lba() * BLOCK_SIZE + cmd.Bytes() <= STORAGE_SIZE
  {
    hide Command.Lba, Command.Nlb;
  }

  function InStoreBytes(storage: Storage, cmd: Command): (s: seq<byte>)
    requires cmd.InStore()
  {
    storage[cmd.Lba() * BLOCK_SIZE..cmd.Lba() * BLOCK_SIZE + cmd.Bytes()]
  }

  function WithBytes(storage: Storage, at: nat, data: seq<byte>): Storage
    requires at + |data| <= STORAGE_SIZE
  {
    storage[..at] + data + storage[at + |data|..]
  }

  predicate Transfers(cmd: Command) {
    cmd.opcode == READ || cmd.opcode == WRITE
  }

  /** The command passes the range test but does not lie in the store. */
  predicate Strays(cmd: Command) {
    Transfers(cmd) && cmd.Accepted() && !cmd.InStore()
  }

  /** What the interpreter makes of memory, before the completion is posted. */
  function MemoryAfter(m: Memory, storage: Storage, cmd: Command): Memory {
    if cmd.opcode == IDENTIFY && cmd.Prp1() != 0 then Write(m, cmd.Prp1(), IdentifyPage())
    else if cmd.opcode == READ && cmd.Accepted() && cmd.InStore() then Write(m, cmd.Prp1(), InStoreBytes(storage, cmd))
    else m
  }

  function Payload(m: Memory, cmd: Command): seq<byte> {
    if cmd.opcode == WRITE && cmd.Accepted() && cmd.InStore() then Read(m, cmd.Prp1(), cmd.Bytes()) else []
  }

  function StorageAfter(m: Memory, storage: Storage, cmd: Command): Storage {
    if cmd.opcode == WRITE && cmd.Accepted() && cmd.InStore()
    then WithBytes(storage, cmd.Lba() * BLOCK_SIZE, Payload(m, cmd)) else storage
  }

  /** The status without the phase bit. */
  function StatusCode(m: Memory, cmd: Command): bv16 {
    if cmd.opcode == IDENTIFY then OK
    else if !Transfers(cmd) then BAD_OPCODE
    else if !cmd.Accepted() then BAD_LBA
    else if cmd.opcode == READ then (if CanWrite(m, cmd.Prp1(), cmd.Bytes()) then OK else BAD_TRANSFER)
    else (if CanRead(m, cmd.Prp1(), cmd.Bytes()) then OK else BAD_TRANSFER)
  }

  /** The phase goes into bit 8 of the status halfword. */
  function WithPhase(code: bv16, phase: byte): bv16 {
    code | (phase as bv16 << 8)
  }

  function Flip(phase: byte): byte {
    phase ^ 1
  }

  function Completion(w: World, cmd: Command): Cqe {
    Cqe(w.ctrl.sqHead, cmd.cid, WithPhase(StatusCode(w.mem, cmd), w.ctrl.phase))
  }

  /** The completion tail and phase after one more completion; the tail is a 16-bit counter. */
  function NextTail(tail: nat, size: nat): nat {
    var t := (tail + 1) % TWO_TO_THE_16;
    if t >= size then 0 else t
  }

  function NextPhase(tail: nat, phase: byte, size: nat): byte {
    if (tail + 1) % TWO_TO_THE_16 >= size then Flip(phase) else phase
  }

  /** edu_nvme_process_cmd. */
  function ProcessCmd(w: World, cmd: Command): World {
    var c := w.ctrl;
    var size := CqSize(c.aqa);
    var cqe := Completion(w, cmd);
    w.(ctrl := c.(storage := StorageAfter(w.mem, c.storage, cmd),
                  cqTail := NextTail(c.cqTail, size), phase := NextPhase(c.cqTail, c.phase, size)),
       mem := Write(MemoryAfter(w.mem, c.storage, cmd), CqAddr(c, c.cqTail), EncodeCqe(cqe)),
       raised := if w.msix then w.raised + [NVME_VECTOR] else w.raised,
       log := w.log + [Done(c.sqHead, cmd, cqe, Payload(w.mem, cmd))],
       fault := w.fault || Strays(cmd))
  }

  function NextHead(head: nat, size: nat): nat {
    var h := (head + 1) % TWO_TO_THE_16;
    if h >= size then 0 else h
  }

  function Fetched(w: World): Command {
    DecodeCommand(Read(w.mem, SqAddr(w.ctrl, w.ctrl.sqHead), CMD_SIZE))
  }

  /** One turn of the submission loop. */
  function Turn(w: World): World {
    var v := ProcessCmd(w, Fetched(w));
    v.(ctrl := v.ctrl.(sqHead := NextHead(v.ctrl.sqHead, SqSize(v.ctrl.aqa))))
  }

  function Advance(w: World, n: nat): World
    decreases n
  {
    if n == 0 then w else Advance(Turn(w), n - 1)
  }

  /** How many turns bring the head to the tail, where they can. */
  function TurnsTo(head: nat, tail: nat, size: nat): nat {
    if head == tail then 0
    else if head < tail then tail - head
    else if head < size then size - head + tail
    else 1 + tail
  }

  /** The loop comes to an end exactly from these states; see NvmeQueues.DrainEndsExactly. */
  predicate DrainEnds(head: nat, tail: nat, size: nat) {
    head == tail || tail < size
  }

  ghost function Drain(w: World): World {
    var c := w.ctrl;
    Advance(w, TurnsTo(c.sqHead, c.sqTail, SqSize(c.aqa)))
  }

  function Low16(val: bv32): (n: nat)
    ensures n < TWO_TO_THE_16
  {
    ((val & 0xFFFF) as bv16) as nat
  }

  predicate Enables(val: bv32) {
    val & 1 != 0
  }

  function SetReady(csts: bv32): bv32 {
    csts | 1
  }

  function ClearReady(csts: bv32): bv32 {
    csts & 0xFFFFFFFE
  }

  /** A write to CC: enabling restarts both queues, whatever their state. */
  function WithConfiguration(w: World, val: bv32): World {
    var c := w.ctrl;
    if Enables(val)
    then w.(ctrl := c.(cc := val, csts := SetReady(c.csts), sqHead := 0, sqTail := 0, cqHead := 0, cqTail := 0, phase := 1))
    else w.(ctrl := c.(cc := val, csts := ClearReady(c.csts)))
  }

  /** A ring of the submission doorbell. */
  ghost function Submit(w: World, tail: nat): World {
    Drain(w.(ctrl := w.ctrl.(sqTail := tail)))
  }

  ghost function OnWrite(w: World, addr: nat, val: bv32): World {
    var c := w.ctrl;
    if addr == NVME_CC then WithConfiguration(w, val)
    else if addr == NVME_AQA then w.(ctrl := c.(aqa := val))
    else if addr == NVME_ASQ then w.(ctrl := c.(asq := WithLow(c.asq, val)))
    else if addr == NVME_ASQ + 4 then w.(ctrl := c.(asq := WithHigh(c.asq, val)))
    else if addr == NVME_ACQ then w.(ctrl := c.(acq := WithLow(c.acq, val)))
    else if addr == NVME_ACQ + 4 then w.(ctrl := c.(acq := WithHigh(c.acq, val)))
    else if addr == NVME_SQ0TDBL then Submit(w, Low16(val))
    else if addr == NVME_CQ0HDBL then w.(ctrl := c.(cqHead := Low16(val)))
    else w
  }

  // ---------- The controller as the source keeps it ----------

  class NvmeDrive {
    const bus: GuestBus
    const storage: array<byte>
    var cc: bv32
    var csts: bv32
    var aqa: bv32
    var asq: nat
    var acq: nat
    var sqTail: nat
    var sqHead: nat
    var cqTail: nat
    var cqHead: nat
    var cqPhase: byte
    ghost var log: seq<Done>
    ghost var fault: bool

    ghost predicate Valid()
      reads this
    {
      storage.Length == STORAGE_SIZE && sqHead < TWO_TO_THE_16 && cqTail < TWO_TO_THE_16
    }

    ghost function State(): World
      reads this, bus, storage
      requires Valid()
    {
      World(Controller(cc, csts, aqa, asq, acq, sqTail, sqHead, cqTail, cqHead, cqPhase, storage[..]),
            bus.mem, bus.msixEnabled, bus.raised, log, fault)
    }

    constructor (bus: GuestBus)
      ensures Valid() && this.bus == bus && fresh(storage)
      ensures State() == World(Controller(0, 0, 0, 0, 0, 0, 0, 0, 0, 1, seq(STORAGE_SIZE, _ => 0)),
                               bus.mem, bus.msixEnabled, bus.raised, [], false)
    {
      this.bus := bus;
      storage := new byte[STORAGE_SIZE](_ => 0);
      cc, csts, aqa, asq, acq := 0, 0, 0, 0, 0;
      sqTail, sqHead, cqTail, cqHead, cqPhase := 0, 0, 0, 0, 1;
      log, fault := [], false;
    }

    /** The switch on the opcode: moves the data and yields the status. */
    method Execute(cmd: Command) returns (status: bv16)
      requires Valid()
      modifies bus`mem, storage
      ensures status == StatusCode(old(bus.mem), cmd)
      ensures bus.mem == MemoryAfter(old(bus.mem), old(storage[..]), cmd)
      ensures storage[..] == StorageAfter(old(bus.mem), old(storage[..]), cmd)
    {
      hide Write, Read, CanRead, CanWrite, IdentifyPage, Command.Lba, Command.Nlb, Command.Bytes, Command.Prp1,
        Command.Accepted, Command.InStore, WithBytes;
      InStoreFits(cmd);
      var ok;
      if cmd.opcode == IDENTIFY {
        if cmd.Prp1() != 0 {
          ok := bus.DmaWrite(cmd.Prp1(), IdentifyPage());
        }
        status := OK;
      } else if !Transfers(cmd) {
        status := BAD_OPCODE;
      } else if !cmd.Accepted() {
        status := BAD_LBA;
      } else if !cmd.InStore() {
        // The program transfers beyond its store here; World.fault records it.
        status := StatusCode(bus.mem, cmd);
      } else if cmd.opcode == READ {
        var at := cmd.Lba() * BLOCK_SIZE;
        ok := bus.DmaWrite(cmd.Prp1(), storage[at..at + cmd.Bytes()]);
        status := if ok then OK else BAD_TRANSFER;
      } else {
        var data;
        ok, data := bus.DmaRead(cmd.Prp1(), cmd.Bytes());
        StoreBytes(cmd.Lba() * BLOCK_SIZE, data);
        status := if ok then OK else BAD_TRANSFER;
      }
    }

    method StoreBytes(at: nat, data: seq<byte>)
      requires Valid() && at + |data| <= STORAGE_SIZE
      modifies storage
      ensures storage[..] == WithBytes(old(storage[..]), at, data)
    {
      forall i | 0 <= i < |data| {
        storage[at + i] := data[i];
      }
      assert storage[..at] == old(storage[..at]) && storage[at + |data|..] == old(storage[at + |data|..]);
      assert storage[at..at + |data|] == data;
      assert storage[..] == storage[..at] + storage[at..at + |data|] + storage[at + |data|..];
    }

    /** The end of edu_nvme_process_cmd: the completion entry, the tail, the interrupt. */
    method PostCompletion(cqe: Cqe)
      requires Valid()
      modifies this`cqTail, this`cqPhase, bus`mem, bus`raised
      ensures Valid()
      ensures bus.mem == Write(old(bus.mem), (acq + old(cqTail) * CQE_SIZE) % TWO_TO_THE_64, EncodeCqe(cqe))
      ensures cqTail == NextTail(old(cqTail), CqSize(aqa)) && cqPhase == NextPhase(old(cqTail), old(cqPhase), CqSize(aqa))
      ensures bus.raised == if bus.msixEnabled then old(bus.raised) + [NVME_VECTOR] else old(bus.raised)
    {
      hide Write, EncodeCqe, CqSize, Flip;
      var ok := bus.DmaWrite((acq + cqTail * CQE_SIZE) % TWO_TO_THE_64, EncodeCqe(cqe));
      cqTail := (cqTail + 1) % TWO_TO_THE_16;
      if cqTail >= CqSize(aqa) {
        cqTail := 0;
        cqPhase := Flip(cqPhase);
      }
      bus.Notify(NVME_VECTOR);
    }

    /** edu_nvme_process_cmd. */
    method ProcessCommand(cmd: Command)
      requires Valid()
      modifies this, storage, bus`mem, bus`raised
      ensures Valid() && State() == ProcessCmd(old(State()), cmd)
    {
      hide Write, StatusCode, MemoryAfter, StorageAfter, Payload, EncodeCqe, CqSize, Strays, WithPhase, NextTail, NextPhase;
      ghost var payload := Payload(bus.mem, cmd);
      var status := Execute(cmd);
      var cqe := Cqe(sqHead, cmd.cid, WithPhase(status, cqPhase));
      PostCompletion(cqe);
      log := log + [Done(sqHead, cmd, cqe, payload)];
      fault := fault || Strays(cmd);
    }

    /** One turn of the submission loop. */
    method ProcessNext()
      requires Valid()
      modifies this, storage, bus`mem, bus`raised
      ensures Valid() && State() == Turn(old(State()))
    {
      hide ProcessCmd, SqSize, DecodeCommand, Read, CanRead, NextHead;
      ghost var w := State();
      var ok, bytes := bus.DmaRead((asq + sqHead * CMD_SIZE) % TWO_TO_THE_64, CMD_SIZE);
      ProcessCmdKeeps(w, Fetched(w));
      ProcessCommand(DecodeCommand(bytes));
      StepHead();
    }

    method StepHead()
      requires Valid()
      modifies this`sqHead
      ensures Valid() && sqHead == NextHead(old(sqHead), SqSize(aqa))
    {
      hide SqSize;
      sqHead := (sqHead + 1) % TWO_TO_THE_16;
      if sqHead >= SqSize(aqa) {
        sqHead := 0;
      }
    }

    /** edu_nvme_process_sq, from a state in which its loop ends. */
    method ProcessSq()
      requires Valid() && DrainEnds(sqHead, sqTail, SqSize(aqa))
      modifies this, storage, bus`mem, bus`raised
      ensures Valid() && State() == Drain(old(State()))
    {
      hide Turn, SqSize, TurnsTo, DrainEnds, Advance;
      ghost var start := State();
      ghost var total := TurnsTo(sqHead, sqTail, SqSize(aqa));
      ghost var left := total;
      while sqHead != sqTail
        invariant Valid()
        invariant left == TurnsTo(sqHead, sqTail, SqSize(aqa)) && DrainEnds(sqHead, sqTail, SqSize(aqa))
        invariant Advance(State(), left) == Advance(start, total)
        decreases left
      {
        TurnGetsCloser(State());
        ProcessNext();
        left := left - 1;
      }
      NoTurnsLeft(State());
    }

    method RestartQueues()
      modifies this`sqHead, this`sqTail, this`cqHead, this`cqTail, this`cqPhase
      ensures sqHead == sqTail == cqHead == cqTail == 0 && cqPhase == 1
    {
      sqHead, sqTail, cqHead, cqTail, cqPhase := 0, 0, 0, 0, 1;
    }

    method SetConfiguration(val: bv32)
      requires Valid()
      modifies this`cc, this`csts, this`sqHead, this`sqTail, this`cqHead, this`cqTail, this`cqPhase
      ensures Valid() && State() == WithConfiguration(old(State()), val)
    {
      hide Enables, SetReady, ClearReady;
      cc := val;
      if Enables(val) {
        csts := SetReady(csts);
        RestartQueues();
      } else {
        csts := ClearReady(csts);
      }
    }

    method RingSubmission(tail: nat)
      requires Valid() && tail < TWO_TO_THE_16 && DrainEnds(sqHead, tail, SqSize(aqa))
      modifies this, storage, bus`mem, bus`raised
      ensures Valid() && State() == Submit(old(State()), tail)
    {
      hide Drain, SqSize, DrainEnds;
      sqTail := tail;
      ProcessSq();
    }

    /** edu_nvme_write for a 32-bit access. */
    method WriteRegister(addr: nat, val: bv32)
      requires Valid()
      requires addr == NVME_SQ0TDBL ==> DrainEnds(sqHead, Low16(val), SqSize(aqa))
      modifies this, storage, bus`mem, bus`raised
      ensures Valid() && State() == OnWrite(old(State()), addr, val)
    {
      hide Submit, WithConfiguration, WithLow, WithHigh, SqSize, Low16, DrainEnds;
      if addr == NVME_CC {
        SetConfiguration(val);
      } else if addr == NVME_AQA {
        aqa := val;
      } else if addr == NVME_ASQ {
        asq := WithLow(asq, val);
      } else if addr == NVME_ASQ + 4 {
        asq := WithHigh(asq, val);
      } else if addr == NVME_ACQ {
        acq := WithLow(acq, val);
      } else if addr == NVME_ACQ + 4 {
        acq := WithHigh(acq, val);
      } else if addr == NVME_SQ0TDBL {
        RingSubmission(Low16(val));
      } else if addr == NVME_CQ0HDBL {
        cqHead := Low16(val);
      }
    }
  }

  lemma ProcessCmdKeeps(w: World, cmd: Command)
    ensures var c, d := w.ctrl, ProcessCmd(w, cmd).ctrl;
            d == c.(cqTail := d.cqTail, phase := d.phase, storage := d.storage) && ProcessCmd(w, cmd).msix == w.msix
  {
    hide StorageAfter, MemoryAfter, Payload, Completion, EncodeCqe, NextTail, NextPhase, CqSize, Strays;
  }

  /** A turn of a loop that ends brings the head one turn closer to the tail. */
  lemma TurnGetsCloser(w: World)
    requires w.ctrl.sqHead != w.ctrl.sqTail && w.ctrl.sqHead < TWO_TO_THE_16
    requires DrainEnds(w.ctrl.sqHead, w.ctrl.sqTail, SqSize(w.ctrl.aqa))
    ensures var v, size := Turn(w), SqSize(w.ctrl.aqa);
            && v.ctrl.aqa == w.ctrl.aqa && v.ctrl.sqTail == w.ctrl.sqTail && v.ctrl.asq == w.ctrl.asq
            && DrainEnds(v.ctrl.sqHead, v.ctrl.sqTail, size)
            && TurnsTo(v.ctrl.sqHead, v.ctrl.sqTail, size) == TurnsTo(w.ctrl.sqHead, w.ctrl.sqTail, size) - 1
            && Advance(w, TurnsTo(w.ctrl.sqHead, w.ctrl.sqTail, size)) == Advance(v, TurnsTo(v.ctrl.sqHead, v.ctrl.sqTail, size))
  {
    SqSizeBound(w.ctrl.aqa);
    ProcessCmdKeeps(w, Fetched(w));
    hide ProcessCmd, SqSize, Fetched;
  }

  lemma SqSizeBound(aqa: bv32)
    ensures SqSize(aqa) <= 4096
  {}

  lemma NoTurnsLeft(w: World)
    requires w.ctrl.sqHead == w.ctrl.sqTail
    ensures TurnsTo(w.ctrl.sqHead, w.ctrl.sqTail, SqSize(w.ctrl.aqa)) == 0 && Advance(w, 0) == w
  {}
}
