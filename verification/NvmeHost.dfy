/** The host half of the queue pair: a driver that keeps its own indices, submits one command at
    a time and waits for its completion. */
module NvmeHost {
  import opened Bytes
  import opened Modular
  import opened GuestMemory
  import opened NvmeDevice
  import opened NvmeQueues
  import opened NvmeConsumer
  import opened NvmeStore

  const QUEUE_SIZE := 16
  const SQ_IOVA := 0x100000
  const CQ_IOVA := 0x101000
  const DATA_IOVA := 0x102000
  const DATA_SIZE := 0x2000
  const DMA_SIZE := 0x4000

  const AQA_WORD: bv32 := 0x000F000F
  const SQ_WORD: bv32 := 0x100000
  const CQ_WORD: bv32 := 0x101000
  const DATA_WORD: bv32 := 0x102000
  const CC_WORD: bv32 := 0x00460001

  /** A 64-bit block address as the host passes it, in two words. */
  datatype BlockAddress = BlockAddress(lo: bv32, hi: bv32) {
    function Value(): nat {
      hi as nat * TWO_TO_THE_32 + lo as nat
    }
  }

  /** The four pages the host has mapped for the device. */
  ghost predicate DmaMapped(m: Memory) {
    && SQ_IOVA + DMA_SIZE <= |m.cells|
    && CanRead(m, SQ_IOVA, DMA_SIZE) && CanWrite(m, SQ_IOVA, DMA_SIZE)
  }

  /** What the host loads through its own mapping. */
  function Load(m: Memory, a: nat, n: nat): (s: seq<byte>)
    requires a + n <= |m.cells|
    ensures |s| == n
  {
    m.cells[a..a + n]
  }

  lemma LoadIsRead(m: Memory, a: nat, n: nat)
    requires a + n <= |m.cells| && CanRead(m, a, n)
    ensures Load(m, a, n) == Read(m, a, n)
  {
    forall i: nat | i < n
      ensures Load(m, a, n)[i] == ByteAt(m, a + i)
    {
      assert Readable(m, a + i);
    }
  }

  lemma MappedPart(m: Memory, a: nat, n: nat)
    requires DmaMapped(m) && SQ_IOVA <= a && a + n <= SQ_IOVA + DMA_SIZE
    ensures a + n <= |m.cells| && CanRead(m, a, n) && CanWrite(m, a, n)
  {}

  lemma StoreKeepsMapped(m: Memory, a: nat, data: seq<byte>)
    requires DmaMapped(m) && a + |data| <= |m.cells|
    ensures DmaMapped(Store(m, a, data))
  {
    hide CanRead, CanWrite, Store;
    StoreKeepsAccess(m, a, data, SQ_IOVA, DMA_SIZE);
  }

  lemma WriteKeepsMapped(m: Memory, a: nat, data: seq<byte>)
    requires DmaMapped(m)
    ensures DmaMapped(Write(m, a, data))
  {
    assert |Write(m, a, data).cells| == |m.cells|;
    hide CanRead, CanWrite, Write;
    WriteKeepsAccess(m, a, data, SQ_IOVA, DMA_SIZE);
  }

  // ---------- One exchange ----------

  function NextSlot(k: nat): (n: nat)
    ensures n < QUEUE_SIZE
  {
    (k + 1) % QUEUE_SIZE
  }

  /** The controller as Init configures it: both queues of 16 entries, the MSI-X vector on. */
  ghost predicate Configured(w: World) {
    var c := w.ctrl;
    c.asq == SQ_IOVA && c.acq == CQ_IOVA && c.aqa == AQA_WORD && DmaMapped(w.mem) && w.msix
  }

  lemma Sizes()
    ensures SqSize(AQA_WORD) == CqSize(AQA_WORD) == QUEUE_SIZE
  {}

  /** The command is in its slot, the tail beyond it. */
  function Posted(w: World, slot: nat, cmd: Command): World
    requires SQ_IOVA + slot * CMD_SIZE + CMD_SIZE <= |w.mem.cells|
  {
    w.(mem := Store(w.mem, SQ_IOVA + slot * CMD_SIZE, EncodeCommand(cmd)), ctrl := w.ctrl.(sqTail := NextSlot(slot)))
  }

  /** The world after the doorbell for that command. */
  function Submitted(w: World, slot: nat, cmd: Command): World
    requires SQ_IOVA + slot * CMD_SIZE + CMD_SIZE <= |w.mem.cells|
  {
    var v := ProcessCmd(Posted(w, slot, cmd), cmd);
    v.(ctrl := v.ctrl.(sqHead := NextSlot(slot)))
  }

  /** The world after the host has posted a command and rung the doorbell, wherever the device's
      head stands. */
  ghost function Rung(w: World, slot: nat, cmd: Command): World
    requires SQ_IOVA + slot * CMD_SIZE + CMD_SIZE <= |w.mem.cells|
  {
    Submit(w.(mem := Posted(w, slot, cmd).mem), NextSlot(slot))
  }

  lemma SlotMapped(m: Memory, slot: nat)
    requires DmaMapped(m) && slot < QUEUE_SIZE
    ensures var a := SQ_IOVA + slot * CMD_SIZE;
            a + CMD_SIZE <= SQ_IOVA + 1024 && a + CMD_SIZE <= |m.cells| && CanRead(m, a, CMD_SIZE)
  {}

  /** On an idle queue the doorbell for one posted command fetches that command and no other. */
  lemma DoorbellFetchesIt(w: World, slot: nat, cmd: Command)
    requires Configured(w) && w.ctrl.sqHead == w.ctrl.sqTail == slot < QUEUE_SIZE
    ensures SQ_IOVA + slot * CMD_SIZE + CMD_SIZE <= |w.mem.cells|
    ensures Rung(w, slot, cmd) == Submitted(w, slot, cmd)
  {
    hide ProcessCmd, EncodeCommand, DecodeCommand, Store, Read, CanRead, CanWrite, SqSize, CqSize;
    SlotMapped(w.mem, slot);
    Sizes();
    var p := Posted(w, slot, cmd);
    FetchesPosted(w, slot, cmd);
    ProcessCmdKeeps(p, cmd);
    assert TurnsTo(slot, NextSlot(slot), QUEUE_SIZE) == 1;
    assert NextHead(slot, QUEUE_SIZE) == NextSlot(slot);
    assert Advance(p, 1) == Advance(Turn(p), 0) == Turn(p);
  }

  /** The host's tails let the submission loop end. */
  lemma DoorbellEnds(w: World, slot: nat)
    requires Configured(w)
    ensures DrainEnds(w.ctrl.sqHead, NextSlot(slot), SqSize(w.ctrl.aqa))
  {
    Sizes();
    hide SqSize, CqSize, DmaMapped;
  }

  lemma FetchesPosted(w: World, slot: nat, cmd: Command)
    requires Configured(w) && w.ctrl.sqHead == slot < QUEUE_SIZE
    ensures SQ_IOVA + slot * CMD_SIZE + CMD_SIZE <= |w.mem.cells|
    ensures Fetched(Posted(w, slot, cmd)) == cmd
  {
    hide EncodeCommand, DecodeCommand, Store, Read, CanRead, CanWrite;
    SlotMapped(w.mem, slot);
    SmallMod(SQ_IOVA + slot * CMD_SIZE, TWO_TO_THE_64);
    ReadStored(w.mem, SQ_IOVA + slot * CMD_SIZE, EncodeCommand(cmd));
    DecodeEncodeCommand(cmd);
  }

  // ---------- Host and device in step ----------

  /** What the host keeps. */
  datatype Indices = Indices(sqTail: nat, cqHead: nat, cmdId: bv16, seen: nat)

  /** Between calls, after n exchanges since the controller was enabled: all queue indices agree and
      nothing is pending on either side. */
  ghost predicate InStep(w: World, h: Indices, n: nat) {
    var c := w.ctrl;
    && Configured(w)
    && h.sqTail == c.sqHead == c.sqTail == n % QUEUE_SIZE
    && h.cqHead == c.cqHead == c.cqTail == n % QUEUE_SIZE
    && c.phase == LapPhase(n, QUEUE_SIZE)
    && h.seen == |w.raised|
  }

  /** The data the command moves into memory stays off the completion queue. */
  predicate SparesCq(cmd: Command) {
    && (cmd.opcode == IDENTIFY ==> Disjoint(cmd.Prp1(), 4096, CQ_IOVA, QUEUE_SIZE * CQE_SIZE))
    && (cmd.opcode == READ ==> Disjoint(cmd.Prp1(), cmd.Bytes(), CQ_IOVA, QUEUE_SIZE * CQE_SIZE))
  }

  /** The completion entry the host picks up for command n. */
  ghost predicate AnswersTo(entry: seq<byte>, m: Memory, cmd: Command, n: nat)
    requires |entry| == CQE_SIZE
  {
    CidOf(entry) == cmd.cid && StatusOf(entry) == WithPhase(StatusCode(m, cmd), LapPhase(n, QUEUE_SIZE))
  }

  /** The host takes the completion at its head and moves the head on, on both sides. */
  function Acknowledged(w: World, h: Indices): World {
    w.(ctrl := w.ctrl.(cqHead := NextSlot(h.cqHead)))
  }

  /** Identifiers are 16 bits wide and come round. */
  function NextCid(cid: bv16): bv16 {
    cid + 1
  }

  function NextIndices(h: Indices): Indices {
    Indices(NextSlot(h.sqTail), NextSlot(h.cqHead), NextCid(h.cmdId), h.seen + 1)
  }

  lemma StepIndices(w: World, h: Indices, n: nat)
    requires InStep(w, h, n)
    ensures DmaMapped(w.mem) && w.msix && h.sqTail == h.cqHead == n % QUEUE_SIZE && h.seen == |w.raised|
  {
    hide DmaMapped, LapPhase;
  }

  lemma PostedConfigured(w: World, slot: nat, cmd: Command)
    requires Configured(w) && slot < QUEUE_SIZE
    ensures SQ_IOVA + slot * CMD_SIZE + CMD_SIZE <= |w.mem.cells|
    ensures Configured(Posted(w, slot, cmd))
  {
    hide EncodeCommand, Store, DmaMapped;
    SlotMapped(w.mem, slot);
    StoreKeepsMapped(w.mem, SQ_IOVA + slot * CMD_SIZE, EncodeCommand(cmd));
  }

  lemma CommandKeepsConfigured(w: World, cmd: Command)
    requires Configured(w)
    ensures Configured(ProcessCmd(w, cmd))
  {
    hide Write, EncodeCqe, StorageAfter, Payload, Completion, NextTail, NextPhase, CqSize, DmaMapped, IdentifyPage, Strays,
      Command.Prp1, Command.Lba, Command.Nlb;
    ProcessCmdKeeps(w, cmd);
    var m := MemoryAfter(w.mem, w.ctrl.storage, cmd);
    if cmd.opcode == IDENTIFY {
      WriteKeepsMapped(w.mem, cmd.Prp1(), IdentifyPage());
    } else if cmd.opcode == READ && cmd.Accepted() && cmd.InStore() {
      WriteKeepsMapped(w.mem, cmd.Prp1(), InStoreBytes(w.ctrl.storage, cmd));
    }
    WriteKeepsMapped(m, CqAddr(w.ctrl, w.ctrl.cqTail), EncodeCqe(Completion(w, cmd)));
  }

  lemma CqIsMapped(w: World)
    requires Configured(w)
    ensures CqMapped(w.ctrl, w.mem)
  {
    Sizes();
    MappedPart(w.mem, CQ_IOVA, QUEUE_SIZE * CQE_SIZE);
    hide DmaMapped, CqSize, CanRead, CanWrite;
  }

  /** One exchange keeps host and device in step, and the host picks up the answer to its own
      command. */
  lemma ExchangeKeepsStep(w: World, h: Indices, n: nat, cmd: Command)
    requires InStep(w, h, n) && SparesCq(cmd)
    ensures SQ_IOVA + h.sqTail * CMD_SIZE + CMD_SIZE <= |w.mem.cells|
    ensures var v := Submitted(w, h.sqTail, cmd);
            && |v.raised| == h.seen + 1 && CQ_IOVA + h.cqHead * CQE_SIZE + CQE_SIZE <= |v.mem.cells|
            && AnswersTo(Load(v.mem, CQ_IOVA + h.cqHead * CQE_SIZE, CQE_SIZE), Posted(w, h.sqTail, cmd).mem, cmd, n)
            && InStep(Acknowledged(v, h), NextIndices(h), n + 1)
  {
    hide EncodeCommand, Store, DmaMapped, ProcessCmd, LapPhase, AnswersTo, Configured, Load;
    PostedConfigured(w, h.sqTail, cmd);
    var p := Posted(w, h.sqTail, cmd);
    CommandMovesOn(p, cmd, n);
    EntryPickedUp(p, cmd, n);
    NextMod(n, QUEUE_SIZE);
    SameConfigured(ProcessCmd(p, cmd), Acknowledged(Submitted(w, h.sqTail, cmd), h));
  }

  lemma SameConfigured(w: World, v: World)
    requires Configured(w) && v.mem == w.mem && v.msix == w.msix
    requires v.ctrl.asq == w.ctrl.asq && v.ctrl.acq == w.ctrl.acq && v.ctrl.aqa == w.ctrl.aqa
    ensures Configured(v)
  {
    hide DmaMapped;
  }

  /** What processing one command does to the completion side. */
  lemma CommandMovesOn(w: World, cmd: Command, n: nat)
    requires Configured(w) && w.ctrl.cqTail == n % QUEUE_SIZE && w.ctrl.phase == LapPhase(n, QUEUE_SIZE)
    ensures var c, v := w.ctrl, ProcessCmd(w, cmd);
            && Configured(v) && |v.raised| == |w.raised| + 1
            && v.ctrl == c.(cqTail := (n + 1) % QUEUE_SIZE, phase := LapPhase(n + 1, QUEUE_SIZE), storage := v.ctrl.storage)
  {
    hide ProcessCmd, LapPhase, CqSize, Flip, Payload, DmaMapped;
    Sizes();
    CommandKeepsConfigured(w, cmd);
    ProcessCmdKeeps(w, cmd);
    HandleLogs(w, cmd);
    Raises(w, cmd);
    NextMod(n, QUEUE_SIZE);
    LapPhaseFlips(n, QUEUE_SIZE);
  }

  lemma Raises(w: World, cmd: Command)
    ensures ProcessCmd(w, cmd).raised == if w.msix then w.raised + [NVME_VECTOR] else w.raised
  {
    hide StorageAfter, MemoryAfter, Payload, Completion, EncodeCqe, CqSize, Strays, NextPhase, NextTail;
  }

  lemma EntryPickedUp(w: World, cmd: Command, n: nat)
    requires Configured(w) && SparesCq(cmd)
    requires w.ctrl.cqTail == n % QUEUE_SIZE && w.ctrl.phase == LapPhase(n, QUEUE_SIZE)
    ensures var m := ProcessCmd(w, cmd).mem;
            var a := CQ_IOVA + w.ctrl.cqTail * CQE_SIZE;
            a + CQE_SIZE <= |m.cells| && AnswersTo(Load(m, a, CQE_SIZE), w.mem, cmd, n)
  {
    hide ProcessCmd, LapPhase, StatusCode, WithPhase, CqSize, DmaMapped, Read, CanRead, CanWrite, EncodeCqe, Load,
      CidOf, StatusOf, Command.Prp1, Command.Nlb;
    Sizes();
    CqIsMapped(w);
    CommandKeepsConfigured(w, cmd);
    ProcessCmdKeeps(w, cmd);
    var v := ProcessCmd(w, cmd);
    var a := CQ_IOVA + w.ctrl.cqTail * CQE_SIZE;
    EntriesAfter(w, cmd, w.ctrl.cqTail);
    CqeFields(Completion(w, cmd));
    MappedPart(v.mem, a, CQE_SIZE);
    LoadIsRead(v.mem, a, CQE_SIZE);
    SmallMod(a, TWO_TO_THE_64);
  }

  // ---------- Setting up ----------

  /** The controller after the register writes of Init, whatever it was before. */
  function InitState(w: World): World {
    var c := w.ctrl;
    w.(ctrl := Controller(CC_WORD, SetReady(c.csts), AQA_WORD, SQ_IOVA, CQ_IOVA, 0, 0, 0, 0, 1, c.storage))
  }

  ghost function InitWrites(w: World): World {
    var w1 := OnWrite(w, NVME_AQA, AQA_WORD);
    var w2 := OnWrite(OnWrite(w1, NVME_ASQ, SQ_WORD), NVME_ASQ + 4, 0);
    var w3 := OnWrite(OnWrite(w2, NVME_ACQ, CQ_WORD), NVME_ACQ + 4, 0);
    OnWrite(w3, NVME_CC, CC_WORD)
  }

  lemma InitReaches(w: World)
    ensures InitWrites(w) == InitState(w)
  {
    BothHalves(w.ctrl.asq, SQ_WORD, 0);
    BothHalves(w.ctrl.acq, CQ_WORD, 0);
    assert Enables(CC_WORD);
    hide Enables, SetReady, ClearReady, WithLow, WithHigh, Submit, Low16;
  }

  /** Init restarts the device's half only: the host is in step if its own half stands at the
      start too. */
  lemma InitInStep(w: World, h: Indices)
    requires DmaMapped(w.mem) && w.msix
    ensures InStep(InitState(w), h, 0) <==> h.sqTail == 0 == h.cqHead && h.seen == |w.raised|
  {
    hide DmaMapped, SetReady;
    FirstLap(QUEUE_SIZE);
  }

  // ---------- Data transfers ----------

  /** The one-block command of write_data and read_data: the address goes into the first of its
      two words only. */
  function Transfer(opcode: byte, lba: BlockAddress): Command {
    Command(opcode, 0, 0, 1, 0, 0, 0, 0, DATA_WORD, 0, 0, 0, lba.lo, 0, 0, 0, 0, 0)
  }

  /** The block such a command reaches, or none. */
  function Target(lba: BlockAddress): nat {
    lba.lo as nat
  }

  lemma TransferFields(opcode: byte, lba: BlockAddress, cid: bv16)
    ensures var cmd := Transfer(opcode, lba).(cid := cid);
            && cmd.Prp1() == DATA_IOVA && cmd.Lba() == Target(lba) && cmd.Nlb() == 1 && cmd.Bytes() == BLOCK_SIZE
            && FirstBlock(cmd) == LastBlock(cmd) == Target(lba) && Buffer(cmd) == DATA_IOVA
            && (cmd.Accepted() <==> Target(lba) < NUM_BLOCKS) && (cmd.InStore() <==> Target(lba) < NUM_BLOCKS)
  {
    var cmd := Transfer(opcode, lba).(cid := cid);
    TransferRange(opcode, lba, cid);
    TransferBuffer(opcode, lba, cid);
    RangeTestExactly(cmd);
    Extent(cmd);
    hide Transfer, FirstBlock, LastBlock, Buffer, Target, Command.Lba, Command.Nlb, Command.Prp1, Command.Accepted;
  }

  lemma TransferRange(opcode: byte, lba: BlockAddress, cid: bv16)
    ensures var cmd := Transfer(opcode, lba).(cid := cid);
            cmd.Lba() == Target(lba) < TWO_TO_THE_32 && cmd.Nlb() == 1
  {}

  lemma TransferBuffer(opcode: byte, lba: BlockAddress, cid: bv16)
    ensures Transfer(opcode, lba).(cid := cid).Prp1() == DATA_IOVA
  {}

  /** Two addresses reach the same block exactly when they agree modulo 2^32. */
  lemma TargetExactly(a: BlockAddress, b: BlockAddress)
    ensures Target(a) == Target(b) <==> a.Value() % TWO_TO_THE_32 == b.Value() % TWO_TO_THE_32
    ensures a.Value() < TWO_TO_THE_32 ==> Target(a) == a.Value()
  {
    LowWord(a);
    LowWord(b);
    hide Target, BlockAddress.Value;
  }

  lemma LowWord(a: BlockAddress)
    ensures a.Value() % TWO_TO_THE_32 == Target(a)
    ensures a.Value() < TWO_TO_THE_32 ==> Target(a) == a.Value()
  {
    LowOf(a.Value(), a.hi as nat, a.lo as nat);
  }

  lemma LowOf(v: nat, hi: nat, lo: nat)
    requires lo < TWO_TO_THE_32 && v == hi * TWO_TO_THE_32 + lo
    ensures v % TWO_TO_THE_32 == lo && (v < TWO_TO_THE_32 ==> v == lo)
  {
    ModOf(v, hi, lo, TWO_TO_THE_32);
  }

  /** Address 2^32 lies far beyond the store, yet the host's command for it reaches block 0. */
  lemma BeyondReachesZero()
    ensures var far := BlockAddress(0, 1);
            far.Value() == TWO_TO_THE_32 > NUM_BLOCKS && Target(far) == Target(BlockAddress(0, 0)) == 0
  {}

  /** data laid over the start of a buffer, seen through its first block. */
  function Overlay(data: seq<byte>, under: Block): Block {
    if |data| >= BLOCK_SIZE then data[..BLOCK_SIZE] else data + under[|data|..]
  }

  function DataBlock(m: Memory): Block
    requires DATA_IOVA + DATA_SIZE <= |m.cells|
  {
    Load(m, DATA_IOVA, BLOCK_SIZE)
  }

  lemma StoreOverlays(m: Memory, data: seq<byte>)
    requires DmaMapped(m) && |data| <= DATA_SIZE
    ensures var v := Store(m, DATA_IOVA, data);
            DmaMapped(v) && DataBlock(v) == Overlay(data, DataBlock(m))
  {
    StoreKeepsMapped(m, DATA_IOVA, data);
    hide DmaMapped;
  }

  /** Posting a command leaves the data pages alone. */
  lemma PostSparesData(w: World, slot: nat, cmd: Command, n: nat)
    requires Configured(w) && slot < QUEUE_SIZE && n <= DATA_SIZE
    ensures SQ_IOVA + slot * CMD_SIZE + CMD_SIZE <= |w.mem.cells|
    ensures DmaMapped(Posted(w, slot, cmd).mem)
    ensures Read(Posted(w, slot, cmd).mem, DATA_IOVA, n) == Load(w.mem, DATA_IOVA, n)
  {
    hide EncodeCommand, Store, DmaMapped, Load, Read, CanRead, CanWrite;
    SlotMapped(w.mem, slot);
    PostedConfigured(w, slot, cmd);
    MappedPart(w.mem, DATA_IOVA, n);
    ReadBesideStore(w.mem, SQ_IOVA + slot * CMD_SIZE, EncodeCommand(cmd), DATA_IOVA, n);
    LoadIsRead(w.mem, DATA_IOVA, n);
  }

  /** A WRITE from the data pages takes in their first block, if its address is in the store. */
  lemma WriteOutcome(w: World, slot: nat, lba: BlockAddress, cid: bv16, b: nat)
    requires Configured(w) && slot < QUEUE_SIZE && b < NUM_BLOCKS
    ensures SQ_IOVA + slot * CMD_SIZE + CMD_SIZE <= |w.mem.cells| && DATA_IOVA + DATA_SIZE <= |w.mem.cells|
    ensures var cmd := Transfer(WRITE, lba).(cid := cid);
            var v := Submitted(w, slot, cmd);
            && (StatusCode(Posted(w, slot, cmd).mem, cmd) == OK <==> Target(lba) < NUM_BLOCKS)
            && BlockOf(v.ctrl.storage, b) == if b == Target(lba) then DataBlock(w.mem) else BlockOf(w.ctrl.storage, b)
  {
    hide EncodeCommand, Store, DmaMapped, Load, Read, CanRead, CanWrite, Transfer, ProcessCmd, BlockOf, Posted,
      FirstBlock, LastBlock, Buffer, Command.Prp1, Command.Lba, Command.Nlb, Command.Bytes, Command.Accepted, Command.InStore, Target;
    var cmd := Transfer(WRITE, lba).(cid := cid);
    WriteOpcode(lba, cid);
    TransferFields(WRITE, lba, cid);
    DataInside(w.mem);
    PostSparesData(w, slot, cmd, BLOCK_SIZE);
    PostedStorage(w, slot, cmd);
    var p := Posted(w, slot, cmd);
    if Target(lba) < NUM_BLOCKS {
      WriteReplaces(p, cmd, b);
      MappedPart(p.mem, DATA_IOVA, BLOCK_SIZE);
    } else {
      OutOfRangeRefused(p, cmd);
    }
  }

  lemma WriteOpcode(lba: BlockAddress, cid: bv16)
    ensures Transfer(WRITE, lba).(cid := cid).opcode == WRITE && Transfer(READ, lba).(cid := cid).opcode == READ
  {}

  lemma DataInside(m: Memory)
    requires DmaMapped(m)
    ensures DATA_IOVA + DATA_SIZE <= |m.cells|
  {}

  lemma PostedStorage(w: World, slot: nat, cmd: Command)
    requires SQ_IOVA + slot * CMD_SIZE + CMD_SIZE <= |w.mem.cells|
    ensures Posted(w, slot, cmd).ctrl.storage == w.ctrl.storage
  {}

  /** The data pages after a READ of one block into them. */
  function Delivered(block: Block, under: seq<byte>): (s: seq<byte>)
    ensures |s| == |under|
  {
    if |under| >= BLOCK_SIZE then block + under[BLOCK_SIZE..] else block[..|under|]
  }

  function DataPages(m: Memory): (s: seq<byte>)
    requires DATA_IOVA + DATA_SIZE <= |m.cells|
    ensures |s| == DATA_SIZE
  {
    Load(m, DATA_IOVA, DATA_SIZE)
  }

  lemma CqSlotClearOfData(w: World)
    requires Configured(w) && w.ctrl.cqTail < QUEUE_SIZE
    ensures Disjoint(DATA_IOVA, DATA_SIZE, CqAddr(w.ctrl, w.ctrl.cqTail), CQE_SIZE)
  {
    SmallMod(CQ_IOVA + w.ctrl.cqTail * CQE_SIZE, TWO_TO_THE_64);
    hide DmaMapped;
  }

  /** In one command: what a READ into the data pages leaves there. */
  lemma ReadLands(w: World, lba: BlockAddress, cid: bv16)
    requires Configured(w) && w.ctrl.cqTail < QUEUE_SIZE
    ensures var cmd := Transfer(READ, lba).(cid := cid);
            var v := ProcessCmd(w, cmd);
            && v.ctrl.storage == w.ctrl.storage
            && (StatusCode(w.mem, cmd) == OK <==> Target(lba) < NUM_BLOCKS)
            && Read(v.mem, DATA_IOVA, DATA_SIZE) ==
               if Target(lba) < NUM_BLOCKS then Delivered(BlockOf(w.ctrl.storage, Target(lba)), Read(w.mem, DATA_IOVA, DATA_SIZE))
               else Read(w.mem, DATA_IOVA, DATA_SIZE)
  {
    hide Configured, Write, Read, CanRead, CanWrite, Transfer, ProcessCmd, BlockOf, CqAddr, EncodeCqe, Completion, WithPhase,
      FirstBlock, LastBlock, Buffer, Command.Prp1, Command.Lba, Command.Nlb, Command.Bytes, Command.Accepted, Command.InStore, Target;
    var cmd := Transfer(READ, lba).(cid := cid);
    WriteOpcode(lba, cid);
    TransferFields(READ, lba, cid);
    CqSlotClearOfData(w);
    ReadSparesStorage(w, cmd);
    if Target(lba) < NUM_BLOCKS {
      DataGranted(w);
      ReadDelivers(w, cmd, Target(lba));
      RestStays(w, cmd);
      InTwo(ProcessCmd(w, cmd).mem, w.mem);
    } else {
      OutOfRangeRefused(w, cmd);
      ReadElsewhere(w.mem, CqAddr(w.ctrl, w.ctrl.cqTail), EncodeCqe(Completion(w, cmd)), DATA_IOVA, DATA_SIZE);
    }
  }

  lemma ReadSparesStorage(w: World, cmd: Command)
    requires cmd.opcode == READ
    ensures ProcessCmd(w, cmd).ctrl.storage == w.ctrl.storage
  {
    hide MemoryAfter, Payload, Completion, EncodeCqe, CqSize, Strays, NextPhase, NextTail;
  }

  lemma DataGranted(w: World)
    requires Configured(w)
    ensures CanWrite(w.mem, DATA_IOVA, BLOCK_SIZE) && CanRead(w.mem, DATA_IOVA, BLOCK_SIZE)
  {
    MappedPart(w.mem, DATA_IOVA, BLOCK_SIZE);
    hide DmaMapped, CanRead, CanWrite;
  }

  const REST := DATA_SIZE - BLOCK_SIZE

  /** Beyond its block a READ into the data pages changes nothing. */
  lemma RestStays(w: World, cmd: Command)
    requires cmd.opcode == READ && cmd.Prp1() == DATA_IOVA && cmd.Bytes() == BLOCK_SIZE
    requires Disjoint(DATA_IOVA, DATA_SIZE, CqAddr(w.ctrl, w.ctrl.cqTail), CQE_SIZE)
    ensures Read(ProcessCmd(w, cmd).mem, DATA_IOVA + BLOCK_SIZE, REST) == Read(w.mem, DATA_IOVA + BLOCK_SIZE, REST)
  {
    hide Write, Read, CqAddr, EncodeCqe, Completion, CqSize, Strays, NextPhase, NextTail, StorageAfter, Payload,
      Command.Prp1, Command.Lba, Command.Nlb;
    var m := MemoryAfter(w.mem, w.ctrl.storage, cmd);
    ReadElsewhere(m, CqAddr(w.ctrl, w.ctrl.cqTail), EncodeCqe(Completion(w, cmd)), DATA_IOVA + BLOCK_SIZE, REST);
    if cmd.Accepted() && cmd.InStore() {
      ReadElsewhere(w.mem, DATA_IOVA, InStoreBytes(w.ctrl.storage, cmd), DATA_IOVA + BLOCK_SIZE, REST);
    }
  }

  /** The data pages as their first block and the rest. */
  lemma InTwo(m: Memory, under: Memory)
    requires Read(m, DATA_IOVA + BLOCK_SIZE, REST) == Read(under, DATA_IOVA + BLOCK_SIZE, REST)
    ensures Read(m, DATA_IOVA, DATA_SIZE) == Delivered(Read(m, DATA_IOVA, BLOCK_SIZE), Read(under, DATA_IOVA, DATA_SIZE))
  {
    ReadPart(m, DATA_IOVA, DATA_SIZE, DATA_IOVA, BLOCK_SIZE);
    ReadPart(m, DATA_IOVA, DATA_SIZE, DATA_IOVA + BLOCK_SIZE, REST);
    ReadPart(under, DATA_IOVA, DATA_SIZE, DATA_IOVA + BLOCK_SIZE, REST);
    hide Read;
    var s := Read(m, DATA_IOVA, DATA_SIZE);
    assert s == s[..BLOCK_SIZE] + s[BLOCK_SIZE..];
  }

  /** A READ into the data pages delivers its block, if its address is in the store. */
  lemma ReadOutcome(w: World, slot: nat, lba: BlockAddress, cid: bv16)
    requires Configured(w) && slot < QUEUE_SIZE && w.ctrl.cqTail < QUEUE_SIZE
    ensures SQ_IOVA + slot * CMD_SIZE + CMD_SIZE <= |w.mem.cells| && DATA_IOVA + DATA_SIZE <= |w.mem.cells|
    ensures var cmd := Transfer(READ, lba).(cid := cid);
            var v := Submitted(w, slot, cmd);
            && DATA_IOVA + DATA_SIZE <= |v.mem.cells|
            && v.ctrl.storage == w.ctrl.storage
            && (StatusCode(Posted(w, slot, cmd).mem, cmd) == OK <==> Target(lba) < NUM_BLOCKS)
            && DataPages(v.mem) ==
               if Target(lba) < NUM_BLOCKS then Delivered(BlockOf(w.ctrl.storage, Target(lba)), DataPages(w.mem))
               else DataPages(w.mem)
  {
    hide EncodeCommand, Store, DmaMapped, Load, Read, CanRead, CanWrite, Transfer, ProcessCmd, BlockOf, Posted, Target,
      Delivered, StatusCode, Completion;
    var cmd := Transfer(READ, lba).(cid := cid);
    DataInside(w.mem);
    PostSparesData(w, slot, cmd, DATA_SIZE);
    PostedStorage(w, slot, cmd);
    PostedConfigured(w, slot, cmd);
    var p := Posted(w, slot, cmd);
    PostedTail(w, slot, cmd);
    ReadLands(p, lba, cid);
    CommandKeepsConfigured(p, cmd);
    var m := ProcessCmd(p, cmd).mem;
    DataInside(m);
    MappedPart(m, DATA_IOVA, DATA_SIZE);
    LoadIsRead(m, DATA_IOVA, DATA_SIZE);
  }

  lemma PostedTail(w: World, slot: nat, cmd: Command)
    requires SQ_IOVA + slot * CMD_SIZE + CMD_SIZE <= |w.mem.cells|
    ensures Posted(w, slot, cmd).ctrl.cqTail == w.ctrl.cqTail
  {}
}
