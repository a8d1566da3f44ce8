/** What a second Init does: it restarts the device's queue indices and leaves the host's where
    they stood, so the host's next doorbell asks for old slots as well as the new one. */
module NvmeReinit {
  import opened Bytes
  import opened Modular
  import opened GuestMemory
  import opened NvmeDevice
  import opened NvmeQueues
  import opened NvmeConsumer
  import opened NvmeStore
  import opened NvmeHost
  import opened NvmeSession

  const QUEUE_PAGES := 0x2000

  /** The command standing in slot j of the submission queue. */
  function SlotCmd(m: Memory, j: nat): Command {
    DecodeCommand(Read(m, SQ_IOVA + j * CMD_SIZE, CMD_SIZE))
  }

  /** The data the command moves into memory stays off both queue pages. */
  predicate SparesQueues(cmd: Command) {
    && (cmd.opcode == IDENTIFY ==> Disjoint(cmd.Prp1(), 4096, SQ_IOVA, QUEUE_PAGES))
    && (cmd.opcode == READ ==> Disjoint(cmd.Prp1(), cmd.Bytes(), SQ_IOVA, QUEUE_PAGES))
  }

  lemma SparesBoth(w: World, cmd: Command)
    requires Configured(w) && SparesQueues(cmd)
    ensures SparesCq(cmd) && ClearOfCq(w, cmd)
  {
    Sizes();
    hide CqSize, DmaMapped, Command.Prp1, Command.Bytes;
  }

  lemma DataMissesSlots(w: World, cmd: Command, a: nat, n: nat)
    requires SparesQueues(cmd) && SQ_IOVA <= a && a + n <= SQ_IOVA + QUEUE_PAGES
    ensures Read(MemoryAfter(w.mem, w.ctrl.storage, cmd), a, n) == Read(w.mem, a, n)
  {
    hide Read, Write, IdentifyPage, Command.Prp1, Command.Lba, Command.Nlb;
    if cmd.opcode == IDENTIFY {
      ReadElsewhere(w.mem, cmd.Prp1(), IdentifyPage(), a, n);
    } else if cmd.opcode == READ && cmd.Accepted() && cmd.InStore() {
      ReadElsewhere(w.mem, cmd.Prp1(), InStoreBytes(w.ctrl.storage, cmd), a, n);
    }
  }

  /** Processing a command leaves the submission slots as they are. */
  lemma SlotKept(w: World, cmd: Command, j: nat)
    requires Configured(w) && SparesQueues(cmd) && w.ctrl.cqTail < QUEUE_SIZE && j < QUEUE_SIZE
    ensures SlotCmd(ProcessCmd(w, cmd).mem, j) == SlotCmd(w.mem, j)
  {
    hide Read, Write, DecodeCommand, EncodeCqe, Completion, MemoryAfter, StorageAfter, Payload, NextTail, NextPhase, CqSize,
      Strays, SparesQueues, DmaMapped, CqAddr;
    var m, a := MemoryAfter(w.mem, w.ctrl.storage, cmd), SQ_IOVA + j * CMD_SIZE;
    assert j * CMD_SIZE + CMD_SIZE <= 1024;
    DataMissesSlots(w, cmd, a, CMD_SIZE);
    CqEntryAt(w);
    ReadElsewhere(m, CqAddr(w.ctrl, w.ctrl.cqTail), EncodeCqe(Completion(w, cmd)), a, CMD_SIZE);
  }

  lemma CqEntryAt(w: World)
    requires Configured(w) && w.ctrl.cqTail < QUEUE_SIZE
    ensures CqAddr(w.ctrl, w.ctrl.cqTail) == CQ_IOVA + w.ctrl.cqTail * CQE_SIZE
  {
    SmallMod(CQ_IOVA + w.ctrl.cqTail * CQE_SIZE, TWO_TO_THE_64);
    hide DmaMapped;
  }

  // ---------- The device catching up ----------

  /** Enabled afresh and j slots on, all in the first lap. */
  ghost predicate Catching(v: World, j: nat) {
    Configured(v) && v.ctrl.sqHead == v.ctrl.cqTail == j && v.ctrl.phase == 1
  }

  lemma SlotFetched(v: World, j: nat)
    requires Catching(v, j) && j < QUEUE_SIZE
    ensures Fetched(v) == SlotCmd(v.mem, j)
  {
    hide Read, DecodeCommand, DmaMapped;
    SmallMod(SQ_IOVA + j * CMD_SIZE, TWO_TO_THE_64);
  }

  /** The same host side: what the turns do not touch. */
  ghost predicate SameHostSide(v: World, t: World) {
    t.ctrl.sqTail == v.ctrl.sqTail && t.ctrl.cqHead == v.ctrl.cqHead && t.msix == v.msix
  }

  /** Entry j of the completion queue is the one logged at i. */
  ghost predicate Holds(t: World, j: nat, i: nat)
    requires i < |t.log|
  {
    && CQ_IOVA + j * CQE_SIZE + CQE_SIZE <= |t.mem.cells|
    && Load(t.mem, CQ_IOVA + j * CQE_SIZE, CQE_SIZE) == EncodeCqe(t.log[i].cqe)
  }

  ghost predicate SameSlots(v: World, t: World) {
    forall i: nat | i < QUEUE_SIZE :: SlotCmd(t.mem, i) == SlotCmd(v.mem, i)
  }

  /** The log entry of a command from slot j. */
  predicate Ran(d: Done, j: nat, cmd: Command) {
    d.slot == j && d.cmd == cmd && d.cqe.cid == cmd.cid
  }

  /** The log from position start on tells of slots j, j + 1, ...; of slot k it says the command
      that stands there in m. */
  ghost predicate RanIn(log: seq<Done>, start: nat, j: nat, m: Memory, k: nat)
    requires j <= k && start + (k - j) < |log|
  {
    Ran(log[start + (k - j)], k, SlotCmd(m, k))
  }

  /** One turn: the command in slot j is run and its completion stands in entry j. */
  lemma CatchUp(v: World, j: nat)
    requires Catching(v, j) && j + 1 < QUEUE_SIZE && SparesQueues(SlotCmd(v.mem, j))
    ensures var t := Turn(v);
            && Catching(t, j + 1) && SameHostSide(v, t) && SameSlots(v, t)
            && |t.raised| == |v.raised| + 1 && |t.log| == |v.log| + 1 && v.log <= t.log
            && Ran(t.log[|v.log|], j, SlotCmd(v.mem, j)) && Holds(t, j, |v.log|)
  {
    hide ProcessCmd, Read, DecodeCommand, DmaMapped, CqSize, SqSize, LapPhase, Flip, SparesQueues, SlotCmd, EncodeCqe, Load;
    SlotFetched(v, j);
    var cmd := SlotCmd(v.mem, j);
    var p := ProcessCmd(v, cmd);
    Sizes();
    ProcessCmdKeeps(v, cmd);
    CommandKeepsConfigured(v, cmd);
    HandleLogs(v, cmd);
    Raises(v, cmd);
    CompletionNames(v, cmd);
    SparesBoth(v, cmd);
    CqIsMapped(v);
    EntriesAfter(v, cmd, j);
    EntryLoaded(p, j);
    forall i: nat | i < QUEUE_SIZE
      ensures SlotCmd(p.mem, i) == SlotCmd(v.mem, i)
    {
      SlotKept(v, cmd, i);
    }
    SameConfigured(p, Turn(v));
  }

  lemma CompletionNames(w: World, cmd: Command)
    ensures Completion(w, cmd).cid == cmd.cid
  {}

  lemma EntryLoaded(p: World, j: nat)
    requires Configured(p) && j < QUEUE_SIZE
    ensures CQ_IOVA + j * CQE_SIZE + CQE_SIZE <= |p.mem.cells|
    ensures Load(p.mem, CQ_IOVA + j * CQE_SIZE, CQE_SIZE) == Entry(p, j)
  {
    hide Load, Read, CanRead, CanWrite, DmaMapped;
    MappedPart(p.mem, CQ_IOVA + j * CQE_SIZE, CQE_SIZE);
    LoadIsRead(p.mem, CQ_IOVA + j * CQE_SIZE, CQE_SIZE);
    SmallMod(CQ_IOVA + j * CQE_SIZE, TWO_TO_THE_64);
  }

  ghost predicate SlotsSpare(m: Memory, j: nat, k: nat) {
    forall i: nat | j <= i < k :: SparesQueues(SlotCmd(m, i))
  }

  /** n turns from slot j run the commands standing in slots j to j + n - 1, in that order. */
  lemma {:induction false} CatchUpAll(v: World, j: nat, n: nat)
    requires Catching(v, j) && j + n < QUEUE_SIZE && SlotsSpare(v.mem, j, j + n)
    ensures var t := Advance(v, n);
            && Catching(t, j + n) && SameHostSide(v, t) && SameSlots(v, t)
            && |t.raised| == |v.raised| + n && |t.log| == |v.log| + n && v.log <= t.log
            && (forall k: nat | j <= k < j + n :: RanIn(t.log, |v.log|, j, v.mem, k))
            && (n > 0 ==> Holds(t, j + n - 1, |v.log| + n - 1))
    decreases n
  {
    hide Turn, Catching, SlotCmd, SparesQueues, Ran, Holds;
    if n > 0 {
      var t := Turn(v);
      assert SparesQueues(SlotCmd(v.mem, j));
      CatchUp(v, j);
      CatchUpAll(t, j + 1, n - 1);
      var u := Advance(v, n);
      assert u == Advance(t, n - 1);
      forall k: nat | j <= k < j + n
        ensures RanIn(u.log, |v.log|, j, v.mem, k)
      {
        if k == j {
          assert u.log[|v.log|] == t.log[|v.log|];
        } else {
          assert RanIn(u.log, |t.log|, j + 1, t.mem, k);
        }
      }
    }
  }

  // ---------- The exchange after a second Init ----------

  lemma PostedSlots(s: World, k: nat, cmd: Command, i: nat)
    requires Configured(s) && k < QUEUE_SIZE && i < QUEUE_SIZE
    ensures SQ_IOVA + k * CMD_SIZE + CMD_SIZE <= |s.mem.cells|
    ensures SlotCmd(Posted(s, k, cmd).mem, i) == if i == k then cmd else SlotCmd(s.mem, i)
  {
    hide EncodeCommand, DecodeCommand, Store, Read, CanRead, CanWrite;
    SlotMapped(s.mem, k);
    if i == k {
      ReadStored(s.mem, SQ_IOVA + k * CMD_SIZE, EncodeCommand(cmd));
      DecodeEncodeCommand(cmd);
    } else {
      ReadBesideStore(s.mem, SQ_IOVA + k * CMD_SIZE, EncodeCommand(cmd), SQ_IOVA + i * CMD_SIZE, CMD_SIZE);
    }
  }

  lemma InitConfigured(w: World)
    requires Configured(w)
    ensures Configured(InitState(w))
  {
    hide DmaMapped, SetReady;
  }

  /** Just enabled, with a command in slot k and the tail beyond it. */
  lemma PostedCatching(w: World, k: nat, cmd: Command)
    requires Configured(w) && k < QUEUE_SIZE && SparesQueues(cmd) && SlotsSpare(w.mem, 0, k)
    ensures SQ_IOVA + k * CMD_SIZE + CMD_SIZE <= |w.mem.cells|
    ensures var p := Posted(InitState(w), k, cmd);
            && Catching(p, 0) && SlotsSpare(p.mem, 0, k + 1) && SlotCmd(p.mem, k) == cmd
            && p == InitState(w).(mem := p.mem, ctrl := InitState(w).ctrl.(sqTail := NextSlot(k)))
            && (forall i: nat | i < k :: SlotCmd(p.mem, i) == SlotCmd(w.mem, i))
  {
    hide Configured, SlotCmd, SparesQueues, EncodeCommand, Store, SetReady;
    InitConfigured(w);
    SlotRoom(w, k);
    var s := InitState(w);
    PostedConfigured(s, k, cmd);
    forall i: nat | i <= k
      ensures SlotCmd(Posted(s, k, cmd).mem, i) == if i == k then cmd else SlotCmd(w.mem, i)
    {
      PostedSlots(s, k, cmd, i);
    }
  }

  lemma SlotRoom(w: World, k: nat)
    requires Configured(w) && k < QUEUE_SIZE
    ensures SQ_IOVA + k * CMD_SIZE + CMD_SIZE <= |w.mem.cells|
  {
    SlotMapped(w.mem, k);
  }

  /** The doorbell drains as many slots as lie between the restarted head and the host's tail. */
  lemma DoorbellAdvances(w: World, k: nat, cmd: Command)
    requires Configured(w) && k < QUEUE_SIZE
    ensures SQ_IOVA + k * CMD_SIZE + CMD_SIZE <= |w.mem.cells|
    ensures var s := InitState(w);
            Rung(s, k, cmd) == Advance(Posted(s, k, cmd), if k + 1 == QUEUE_SIZE then 0 else k + 1)
  {
    hide EncodeCommand, Store, Advance, SqSize, CqSize, SetReady, DmaMapped;
    SlotRoom(w, k);
    Sizes();
    StepMod(k, QUEUE_SIZE);
  }

  /** The exchange of a command after a second Init, n exchanges after the first, with k = n mod 16.
      Below 15 it runs the k commands that stand in the slots before the host's, then the host's
      own, whose completion is the one the host reads, and both sides are in step again. At 15 the
      doorbell names the slot the device already stands at, and nothing happens. */
  lemma AfterSecondInit(w: World, h: Indices, n: nat, cmd: Command)
    requires InStep(w, h, n) && SparesQueues(cmd) && SlotsSpare(w.mem, 0, n % QUEUE_SIZE)
    ensures SQ_IOVA + h.sqTail * CMD_SIZE + CMD_SIZE <= |w.mem.cells|
    ensures var k, s := n % QUEUE_SIZE, InitState(w);
            var v := Rung(s, h.sqTail, cmd);
            var runs := if k + 1 == QUEUE_SIZE then 0 else k + 1;
            && |v.log| == |w.log| + runs && w.log <= v.log && |v.raised| == h.seen + runs
            && (k + 1 < QUEUE_SIZE ==>
                  && (forall j: nat | j < k :: RanIn(v.log, |w.log|, 0, w.mem, j))
                  && Ran(v.log[|w.log| + k], k, cmd) && Holds(v, h.cqHead, |w.log| + k)
                  && InStep(Acknowledged(v, h), NextIndices(h).(seen := |v.raised|), k + 1))
            && (k + 1 == QUEUE_SIZE ==> v == s.(mem := v.mem, ctrl := s.ctrl.(sqTail := 0)))
  {
    hide Configured, SlotCmd, SparesQueues, Rung, Posted, Advance, LapPhase, RanIn, Ran, Holds, SetReady, SlotsSpare;
    StepIndices(w, h, n);
    StepConfigured(w, h, n);
    var k, s := n % QUEUE_SIZE, InitState(w);
    SlotRoom(w, k);
    PostedCatching(w, k, cmd);
    DoorbellAdvances(w, k, cmd);
    StepMod(k, QUEUE_SIZE);
    var p := Posted(s, k, cmd);
    if k + 1 < QUEUE_SIZE {
      CatchUpAll(p, 0, k + 1);
      var v := Advance(p, k + 1);
      LogOfSlots(v.log, |w.log|, p.mem, w.mem, k, cmd);
      FirstLaps(k + 1, QUEUE_SIZE);
      SameConfigured(v, Acknowledged(v, h));
    } else {
      NoAdvance(p);
    }
  }

  lemma NoAdvance(p: World)
    ensures Advance(p, 0) == p
  {}

  lemma StepConfigured(w: World, h: Indices, n: nat)
    requires InStep(w, h, n)
    ensures Configured(w)
  {}

  /** What the log says of the slots, in terms of the commands posted there. */
  lemma LogOfSlots(log: seq<Done>, start: nat, m: Memory, m': Memory, k: nat, cmd: Command)
    requires start + k < |log| && (forall j: nat | 0 <= j < 0 + (k + 1) :: RanIn(log, start, 0, m, j))
    requires SlotCmd(m, k) == cmd && forall i: nat | i < k :: SlotCmd(m, i) == SlotCmd(m', i)
    ensures (forall j: nat | j < k :: RanIn(log, start, 0, m', j)) && Ran(log[start + k], k, cmd)
  {
    hide SlotCmd, Ran;
    assert RanIn(log, start, 0, m, k);
    forall j: nat | j < k
      ensures RanIn(log, start, 0, m', j)
    {
      assert RanIn(log, start, 0, m, j);
    }
  }

  /** When a second Init does no harm: the next command, and only it, is run exactly after whole
      laps; the wait for it comes back exactly unless the host's tail stood at the last slot. */
  lemma SecondInitExactly(w: World, h: Indices, n: nat, cmd: Command)
    requires InStep(w, h, n) && SparesQueues(cmd) && SlotsSpare(w.mem, 0, n % QUEUE_SIZE)
    ensures SQ_IOVA + h.sqTail * CMD_SIZE + CMD_SIZE <= |w.mem.cells|
    ensures var v := Rung(InitState(w), h.sqTail, cmd);
            && ((|v.log| == |w.log| + 1 && v.log[|w.log|].cmd == cmd) <==> n % QUEUE_SIZE == 0)
            && (h.seen < |v.raised| <==> n % QUEUE_SIZE != QUEUE_SIZE - 1)
  {
    hide InStep, SparesQueues, SlotsSpare, Rung, RanIn, Holds;
    AfterSecondInit(w, h, n, cmd);
  }

  // ---------- What stands in the old slots ----------

  lemma SparesWithCid(cmd: Command, cid: bv16)
    ensures SparesQueues(cmd.(cid := cid)) == SparesQueues(cmd)
  {
    SameBuffer(cmd, cid);
    hide Command.Prp1, Command.Bytes;
  }

  /** An exchange puts its command into the host's slot and leaves the other slots. */
  lemma ExchangedSlots(w: World, h: Indices, n: nat, cmd: Command, i: nat)
    requires InStep(w, h, n) && SparesQueues(cmd) && i < QUEUE_SIZE
    ensures SQ_IOVA + h.sqTail * CMD_SIZE + CMD_SIZE <= |w.mem.cells|
    ensures SlotCmd(Exchanged(w, h, cmd).mem, i) == if i == n % QUEUE_SIZE then cmd.(cid := h.cmdId) else SlotCmd(w.mem, i)
  {
    hide Configured, SlotCmd, SparesQueues, Posted, LapPhase, ProcessCmd;
    var mine := cmd.(cid := h.cmdId);
    StepConfigured(w, h, n);
    SlotRoom(w, h.sqTail);
    SparesWithCid(cmd, h.cmdId);
    PostedConfigured(w, h.sqTail, mine);
    PostedSlots(w, h.sqTail, mine, i);
    PostedCqTail(w, h.sqTail, mine);
    SlotKept(Posted(w, h.sqTail, mine), mine, i);
  }

  lemma PostedCqTail(w: World, slot: nat, cmd: Command)
    requires SQ_IOVA + slot * CMD_SIZE + CMD_SIZE <= |w.mem.cells|
    ensures Posted(w, slot, cmd).ctrl.cqTail == w.ctrl.cqTail
  {}

  ghost predicate AllSpareQueues(cmds: seq<Command>) {
    forall cmd | cmd in cmds :: SparesQueues(cmd) && SparesCq(cmd)
  }

  lemma {:induction false} SessionKeepsSlot(w: World, h: Indices, n: nat, cmds: seq<Command>, k: nat)
    requires InStep(w, h, n) && AllSpareQueues(cmds) && k < QUEUE_SIZE
    requires forall j: nat | j < |cmds| :: SlotOf(n, j) != k
    ensures SlotCmd(Session(w, h, n, cmds).0.mem, k) == SlotCmd(w.mem, k)
    decreases |cmds|
  {
    hide InStep, SlotCmd, SparesQueues, SparesCq, Exchanged, PickedUp;
    if cmds != [] {
      assert SlotOf(n, 0) != k;
      ExchangedInStep(w, h, n, cmds[0]);
      ExchangedSlots(w, h, n, cmds[0], k);
      var next := n + 1;
      forall j: nat | j < |cmds[1..]|
        ensures SlotOf(next, j) != k
      {
        assert SlotOf(n, j + 1) != k;
      }
      SessionKeepsSlot(Exchanged(w, h, cmds[0]), NextIndices(h), next, cmds[1..], k);
    }
  }

  /** The slot of the i-th command of a session that starts after n exchanges. */
  function SlotOf(n: nat, i: nat): nat {
    (n + i) % QUEUE_SIZE
  }

  lemma LaterSlots(n: nat, count: nat)
    requires count < QUEUE_SIZE
    ensures var next := n + 1; forall j: nat | j < count :: SlotOf(next, j) != SlotOf(n, 0)
  {
    var next := n + 1;
    forall j: nat | j < count
      ensures SlotOf(next, j) != SlotOf(n, 0)
    {
      ModDistinct(n, n + 1 + j, QUEUE_SIZE);
    }
  }

  /** After a session the slots hold its last commands, up to sixteen: those are the ones a second
      Init has run again. */
  lemma {:induction false} SlotsHoldLast(w: World, h: Indices, n: nat, cmds: seq<Command>, i: nat)
    requires InStep(w, h, n) && AllSpareQueues(cmds) && i < |cmds| <= i + QUEUE_SIZE
    ensures SlotCmd(Session(w, h, n, cmds).0.mem, SlotOf(n, i)) == cmds[i].(cid := CidFrom(h.cmdId, i))
    decreases |cmds|
  {
    hide InStep, SlotCmd, SparesQueues, SparesCq, Exchanged, PickedUp, NextCid;
    ExchangedInStep(w, h, n, cmds[0]);
    var v, k, rest, next := Exchanged(w, h, cmds[0]), NextIndices(h), cmds[1..], n + 1;
    if i == 0 {
      ExchangedSlots(w, h, n, cmds[0], SlotOf(n, 0));
      LaterSlots(n, |rest|);
      SessionKeepsSlot(v, k, next, rest, SlotOf(n, 0));
    } else {
      SlotsHoldLast(v, k, next, rest, i - 1);
      assert SlotOf(next, i - 1) == SlotOf(n, i);
    }
  }

  // ---------- An instance ----------

  lemma TransferSparesQueues(opcode: byte, lba: BlockAddress, cid: bv16)
    requires opcode == READ || opcode == WRITE
    ensures SparesQueues(Transfer(opcode, lba).(cid := cid))
  {
    TransferFields(opcode, lba, cid);
    hide Command.Prp1, Command.Bytes;
  }

  /** One turn that runs a WRITE of the data page. */
  lemma TurnWritesPage(v: World, j: nat, lba: BlockAddress, cid: bv16, b: nat)
    requires Catching(v, j) && j < QUEUE_SIZE && SlotCmd(v.mem, j) == Transfer(WRITE, lba).(cid := cid) && b < NUM_BLOCKS
    ensures DATA_IOVA + DATA_SIZE <= |v.mem.cells|
    ensures BlockOf(Turn(v).ctrl.storage, b) ==
            if b == Target(lba) then DataBlock(v.mem) else BlockOf(v.ctrl.storage, b)
  {
    hide DmaMapped, Load, Read, CanRead, CanWrite, Transfer, ProcessCmd, BlockOf, SlotCmd, NextHead, SqSize,
      FirstBlock, LastBlock, Buffer, Command.Prp1, Command.Lba, Command.Nlb, Command.Bytes, Command.Accepted, Command.InStore, Target;
    var cmd := Transfer(WRITE, lba).(cid := cid);
    SlotFetched(v, j);
    WriteOpcode(lba, cid);
    TransferFields(WRITE, lba, cid);
    DataInside(v.mem);
    MappedPart(v.mem, DATA_IOVA, BLOCK_SIZE);
    LoadIsRead(v.mem, DATA_IOVA, BLOCK_SIZE);
    if Target(lba) < NUM_BLOCKS {
      WriteReplaces(v, cmd, b);
    } else {
      OutOfRangeRefused(v, cmd);
    }
  }

  lemma PreparedSlots(w: World, op: Op, j: nat)
    requires Configured(w) && op.Fits() && j < QUEUE_SIZE
    ensures DATA_IOVA + DATA_SIZE <= |w.mem.cells|
    ensures SlotCmd(Prepare(w, op).mem, j) == SlotCmd(w.mem, j)
  {
    hide Read, DecodeCommand, Store, DmaMapped;
    DataInside(w.mem);
    ReadBesideStore(w.mem, DATA_IOVA, op.Prepared(), SQ_IOVA + j * CMD_SIZE, CMD_SIZE);
  }

  /** A write to a, Init again, a write to b: the slot of the first write, standing before the
      host's tail, is run once more, and block a ends with the bytes meant for b. */
  lemma SecondInitReplaysWrite(w: World, h: Indices, n: nat, a: BlockAddress, b: BlockAddress, x: byte, y: byte)
    requires InStep(w, h, n) && n % QUEUE_SIZE == 0
    requires Target(a) < NUM_BLOCKS && Target(b) < NUM_BLOCKS && Target(a) != Target(b) && x != y
    ensures var v := AfterOp(w, h, n, Put(a, [x]));
            && NextIndices(h).sqTail == 1 && InStep(v, NextIndices(h), n + 1)
            && DATA_IOVA + DATA_SIZE <= |v.mem.cells| && StartsWith(BlockOf(v.ctrl.storage, Target(a)), [x])
    ensures var v := AfterOp(w, h, n, Put(a, [x]));
            var p := Prepare(v, Put(b, [y]));
            && SQ_IOVA + CMD_SIZE + CMD_SIZE <= |InitState(p).mem.cells|
            && StartsWith(BlockOf(Rung(InitState(p), 1, Transfer(WRITE, b).(cid := NextCid(h.cmdId))).ctrl.storage, Target(a)), [y])
  {
    hide InStep, Configured, SlotCmd, SparesQueues, SlotsSpare, BlockOf, StartsWith, Transfer, Target, AfterOp, Rung, Posted, Overlay,
      Prepare, Exchanged, Turn, Advance, SetReady, NextCid, Load;
    var first, second, next := Put(a, [x]), Put(b, [y]), NextIndices(h);
    var v := AfterOp(w, h, n, first);
    OpOutcome(w, h, n, first, Target(a));
    OverlayStarts([x], DataBlock(w.mem));
    StepIndices(w, h, n);
    InStepConfigured(v, next, n + 1);
    FirstSlotHolds(w, h, n, first);
    PreparedInStep(v, next, n + 1, second);
    var p := Prepare(v, second);
    StepConfigured(p, next, n + 1);
    PreparedSlots(v, second, 0);
    ReplayOverwrites(p, a, h.cmdId, b, NextCid(h.cmdId));
    OverlayStarts([y], DataBlock(v.mem));
  }

  lemma FirstSlotHolds(w: World, h: Indices, n: nat, op: Op)
    requires InStep(w, h, n) && n % QUEUE_SIZE == 0 && op.Fits()
    ensures SlotCmd(AfterOp(w, h, n, op).mem, 0) == op.Cmd().(cid := h.cmdId)
  {
    hide InStep, SlotCmd, SparesQueues, Prepare, Exchanged, Transfer;
    PreparedInStep(w, h, n, op);
    TransferSparesQueues(if op.Put? then WRITE else READ, op.lba, 0);
    assert Transfer(if op.Put? then WRITE else READ, op.lba).(cid := 0) == op.Cmd() by { CmdCid(op); }
    ExchangedSlots(Prepare(w, op), h, n, op.Cmd(), 0);
  }

  lemma CmdCid(op: Op)
    ensures op.Cmd().(cid := 0) == op.Cmd()
  {}

  /** The two turns of that doorbell. */
  lemma ReplayOverwrites(p: World, a: BlockAddress, stale: bv16, b: BlockAddress, cid: bv16)
    requires Configured(p) && SlotCmd(p.mem, 0) == Transfer(WRITE, a).(cid := stale)
    requires Target(a) < NUM_BLOCKS && Target(a) != Target(b)
    ensures SQ_IOVA + CMD_SIZE + CMD_SIZE <= |p.mem.cells| && DATA_IOVA + DATA_SIZE <= |p.mem.cells|
    ensures BlockOf(Rung(InitState(p), 1, Transfer(WRITE, b).(cid := cid)).ctrl.storage, Target(a)) == DataBlock(p.mem)
  {
    hide Configured, SlotCmd, SparesQueues, BlockOf, Transfer, Target, Rung, Posted, Turn, SetReady, Load;
    var cmd := Transfer(WRITE, b).(cid := cid);
    TransferSparesQueues(WRITE, a, stale);
    TransferSparesQueues(WRITE, b, cid);
    SlotRoom(p, 1);
    PostedCatching(p, 1, cmd);
    DoorbellAdvances(p, 1, cmd);
    InitConfigured(p);
    PostSparesPage(InitState(p), 1, cmd);
    var q := Posted(InitState(p), 1, cmd);
    TwoTurns(q);
    TurnWritesPage(q, 0, a, stale, Target(a));
    CatchUp(q, 0);
    TurnWritesPage(Turn(q), 1, b, cid, Target(a));
  }

  lemma TwoTurns(q: World)
    ensures Advance(q, 2) == Turn(Turn(q))
  {
    hide Turn;
    assert Advance(q, 2) == Advance(Turn(q), 1);
  }

  lemma PostSparesPage(w: World, slot: nat, cmd: Command)
    requires Configured(w) && slot < QUEUE_SIZE
    ensures SQ_IOVA + slot * CMD_SIZE + CMD_SIZE <= |w.mem.cells|
    ensures DATA_IOVA + DATA_SIZE <= |w.mem.cells| && DATA_IOVA + DATA_SIZE <= |Posted(w, slot, cmd).mem.cells|
    ensures DataBlock(Posted(w, slot, cmd).mem) == DataBlock(w.mem)
  {
    hide DmaMapped, Load, Read, CanRead, CanWrite, Posted;
    DataInside(w.mem);
    PostSparesData(w, slot, cmd, BLOCK_SIZE);
    var m := Posted(w, slot, cmd).mem;
    DataInside(m);
    MappedPart(m, DATA_IOVA, BLOCK_SIZE);
    LoadIsRead(m, DATA_IOVA, BLOCK_SIZE);
  }
}
