/** The driver class of the NVMe test program, in closed loop with the controller. */
module NvmeDriver {
  import opened Bytes
  import opened GuestMemory
  import opened NvmeDevice
  import opened NvmeQueues
  import opened NvmeStore
  import opened NvmeHost
  import opened NvmeSession

  lemma DoorbellWrite(w: World, slot: nat)
    requires slot < QUEUE_SIZE
    ensures Low16(SlotWord(slot)) == slot && OnWrite(w, NVME_SQ0TDBL, SlotWord(slot)) == Submit(w, slot)
  {
    hide Submit;
  }

  lemma HeadWrite(w: World, slot: nat)
    requires slot < QUEUE_SIZE
    ensures OnWrite(w, NVME_CQ0HDBL, SlotWord(slot)) == w.(ctrl := w.ctrl.(cqHead := slot))
  {}

  lemma ConfiguredSlot(w: World, slot: nat)
    requires Configured(w) && slot < QUEUE_SIZE
    ensures SQ_IOVA + slot * CMD_SIZE + CMD_SIZE <= |w.mem.cells|
  {
    SlotMapped(w.mem, slot);
  }

  lemma IdleInStep(w: World, h: Indices, n: nat)
    requires InStep(w, h, n)
    ensures Configured(w) && w.ctrl.sqHead == w.ctrl.sqTail == h.sqTail < QUEUE_SIZE
  {
    hide Configured, LapPhase;
  }

  class NvmeController {
    const drive: NvmeDrive
    var sqTail: nat
    var cqHead: nat
    var cmdId: bv16
    /** Interrupts already read from the event counter. */
    var seen: nat
    ghost var exchanged: nat

    ghost function Mine(): Indices
      reads this
    {
      Indices(sqTail, cqHead, cmdId, seen)
    }

    ghost predicate Ready()
      reads this, drive, drive.bus, drive.storage
    {
      drive.Valid() && InStep(drive.State(), Mine(), exchanged)
    }

    constructor (drive: NvmeDrive)
      ensures this.drive == drive && Mine() == Indices(0, 0, 1, |drive.bus.raised|)
    {
      this.drive := drive;
      sqTail, cqHead, cmdId, seen := 0, 0, 1, |drive.bus.raised|;
      exchanged := 0;
    }

    /** Configure the queues and enable; the ready bit answers at once. */
    method Init() returns (ok: bool)
      requires drive.Valid()
      modifies this`exchanged, drive, drive.storage, drive.bus`mem, drive.bus`raised
      ensures ok && drive.Valid() && drive.State() == InitState(old(drive.State())) && exchanged == 0
      ensures DmaMapped(drive.bus.mem) && drive.bus.msixEnabled ==>
                (Ready() <==> sqTail == 0 == cqHead && seen == |drive.bus.raised|)
      ensures old(Ready()) ==> (Ready() <==> old(exchanged) % QUEUE_SIZE == 0)
    {
      hide OnWrite, InStep, DmaMapped;
      if Ready() {
        StepIndices(drive.State(), Mine(), exchanged);
      }
      InitReaches(drive.State());
      drive.WriteRegister(NVME_AQA, AQA_WORD);
      drive.WriteRegister(NVME_ASQ, SQ_WORD);
      drive.WriteRegister(NVME_ASQ + 4, 0);
      drive.WriteRegister(NVME_ACQ, CQ_WORD);
      drive.WriteRegister(NVME_ACQ + 4, 0);
      drive.WriteRegister(NVME_CC, CC_WORD);
      ok := drive.csts & 1 != 0;
      exchanged := 0;
      if DmaMapped(drive.bus.mem) && drive.bus.msixEnabled {
        InitInStep(old(drive.State()), Mine());
      }
    }

    method SubmitCmd(cmd: Command)
      requires drive.Valid() && Configured(drive.State()) && sqTail < QUEUE_SIZE
      modifies this`sqTail, this`cmdId, drive, drive.storage, drive.bus`mem, drive.bus`raised
      ensures SQ_IOVA + old(sqTail) * CMD_SIZE + CMD_SIZE <= |old(drive.bus.mem).cells|
      ensures drive.Valid() && drive.State() == Rung(old(drive.State()), old(sqTail), cmd.(cid := old(cmdId)))
      ensures sqTail == NextSlot(old(sqTail)) && cmdId == NextCid(old(cmdId))
    {
      hide EncodeCommand, Configured, Submit, DrainEnds, SqSize, OnWrite, Store, SlotWord;
      ghost var w := drive.State();
      var mine := cmd.(cid := cmdId);
      cmdId := NextCid(cmdId);
      ConfiguredSlot(w, sqTail);
      drive.bus.HostStore(SQ_IOVA + sqTail * CMD_SIZE, EncodeCommand(mine));
      assert drive.State() == w.(mem := Posted(w, sqTail, mine).mem);
      DoorbellEnds(w, sqTail);
      sqTail := NextSlot(sqTail);
      DoorbellWrite(drive.State(), sqTail);
      drive.WriteRegister(NVME_SQ0TDBL, SlotWord(sqTail));
    }

    /** Without a pending interrupt the wait times out. */
    method WaitCompletion() returns (ok: bool, entry: seq<byte>)
      requires drive.Valid() && cqHead < QUEUE_SIZE && CQ_IOVA + QUEUE_SIZE * CQE_SIZE <= |drive.bus.mem.cells|
      modifies this`cqHead, this`seen, drive, drive.storage, drive.bus`mem, drive.bus`raised
      ensures drive.Valid() && |entry| == CQE_SIZE
      ensures ok == (old(seen) < |old(drive.bus.raised)|)
      ensures ok ==>
                && entry == Load(old(drive.bus.mem), CQ_IOVA + old(cqHead) * CQE_SIZE, CQE_SIZE)
                && cqHead == NextSlot(old(cqHead)) && seen == |old(drive.bus.raised)|
                && drive.State() == Acknowledged(old(drive.State()), old(Mine()))
      ensures !ok ==> cqHead == old(cqHead) && seen == old(seen) && drive.State() == old(drive.State())
    {
      hide OnWrite, SlotWord;
      entry := seq(CQE_SIZE, _ => 0);
      ok := seen < |drive.bus.raised|;
      if ok {
        seen := |drive.bus.raised|;
        entry := Load(drive.bus.mem, CQ_IOVA + cqHead * CQE_SIZE, CQE_SIZE);
        cqHead := NextSlot(cqHead);
        HeadWrite(drive.State(), cqHead);
        drive.WriteRegister(NVME_CQ0HDBL, SlotWord(cqHead));
      }
    }

    /** Submit, then wait: how every operation of the class begins. Host and device come out in
        step, and the completion read answers the command just submitted. */
    method Exchange(cmd: Command) returns (ok: bool, entry: seq<byte>)
      requires Ready() && SparesCq(cmd)
      modifies this, drive, drive.storage, drive.bus`mem, drive.bus`raised
      ensures SQ_IOVA + old(sqTail) * CMD_SIZE + CMD_SIZE <= |old(drive.bus.mem).cells|
      ensures ok && Ready() && exchanged == old(exchanged) + 1 && |entry| == CQE_SIZE
      ensures drive.State() == Exchanged(old(drive.State()), old(Mine()), cmd) && Mine() == NextIndices(old(Mine()))
      ensures var mine := cmd.(cid := old(cmdId));
              AnswersTo(entry, Posted(old(drive.State()), old(sqTail), mine).mem, mine, old(exchanged))
    {
      hide EncodeCommand, DmaMapped, Submitted, Rung, Posted, Configured, LapPhase, AnswersTo, Load, SparesCq;
      ghost var w, h := drive.State(), Mine();
      ghost var mine := cmd.(cid := cmdId);
      SparesWhatever(cmd, cmdId);
      InStepConfigured(w, h, exchanged);
      ExchangeKeepsStep(w, h, exchanged, mine);
      IdleInStep(w, h, exchanged);
      DoorbellFetchesIt(w, sqTail, mine);
      SubmitCmd(cmd);
      InStepConfigured(Acknowledged(drive.State(), h), NextIndices(h), exchanged + 1);
      ok, entry := WaitCompletion();
      exchanged := exchanged + 1;
    }

    /** write_data: stores one block, the data followed by whatever the buffer held. */
    method WriteData(lba: BlockAddress, data: seq<byte>) returns (ok: bool)
      requires Ready() && Put(lba, data).Fits()
      modifies this, drive, drive.storage, drive.bus`mem, drive.bus`raised
      ensures Ready() && exchanged == old(exchanged) + 1
      ensures drive.State() == AfterOp(old(drive.State()), old(Mine()), old(exchanged), Put(lba, data))
      ensures Mine() == NextIndices(old(Mine()))
      ensures ok <==> Target(lba) < NUM_BLOCKS
    {
      hide Submitted, Posted, Configured, AnswersTo, SparesCq, InStep, Store, Transfer, Succeeded, Target, DmaMapped, Exchanged;
      ghost var w, h, n := drive.State(), Mine(), exchanged;
      PreparedInStep(w, h, n, Put(lba, data));
      drive.bus.HostStore(DATA_IOVA, data);
      ghost var p := drive.State();
      TransferSpares(WRITE, lba);
      InStepConfigured(p, h, n);
      WriteOutcome(p, h.sqTail, lba, h.cmdId, 0);
      var answered, entry := Exchange(Transfer(WRITE, lba));
      ok := answered && Succeeded(StatusOf(entry));
      AnswerTells(entry, Posted(p, h.sqTail, Transfer(WRITE, lba).(cid := h.cmdId)).mem, Transfer(WRITE, lba).(cid := h.cmdId), n);
    }

    /** read_data: clears the buffer, reads one block into it and copies len bytes out. */
    method ReadData(lba: BlockAddress, len: nat) returns (ok: bool, data: seq<byte>)
      requires Ready() && Get(lba, len).Fits()
      modifies this, drive, drive.storage, drive.bus`mem, drive.bus`raised
      ensures Ready() && exchanged == old(exchanged) + 1
      ensures drive.State() == AfterOp(old(drive.State()), old(Mine()), old(exchanged), Get(lba, len))
      ensures Mine() == NextIndices(old(Mine()))
      ensures ok <==> Target(lba) < NUM_BLOCKS
      ensures data == if ok then Returned(old(drive.State()).ctrl.storage, lba, len) else seq(len, _ => 0)
    {
      hide Submitted, Posted, Configured, AnswersTo, Load, SparesCq, InStep, Store, BlockOf, Delivered, DataPages, Transfer,
        Succeeded, Target, DmaMapped;
      ghost var w, h, n := drive.State(), Mine(), exchanged;
      PreparedInStep(w, h, n, Get(lba, len));
      InStepConfigured(w, h, n);
      ClearsPages(drive.bus.mem, len);
      drive.bus.HostStore(DATA_IOVA, seq(len, _ => 0));
      ghost var p := drive.State();
      TransferSpares(READ, lba);
      InStepConfigured(p, h, n);
      ReadOutcome(p, h.sqTail, lba, h.cmdId);
      var answered, entry := Exchange(Transfer(READ, lba));
      data := Load(drive.bus.mem, DATA_IOVA, len);
      ok := answered && Succeeded(StatusOf(entry));
      AnswerTells(entry, Posted(p, h.sqTail, Transfer(READ, lba).(cid := h.cmdId)).mem, Transfer(READ, lba).(cid := h.cmdId), n);
      PagesStart(drive.bus.mem, len);
      if ok {
        DeliveredStarts(BlockOf(p.ctrl.storage, Target(lba)), DataPages(p.mem), len);
      }
    }
  }

  // ---------- The buffer ----------

  lemma ClearsPages(m: Memory, len: nat)
    requires DmaMapped(m) && len <= DATA_SIZE
    ensures var v := Store(m, DATA_IOVA, seq(len, _ => 0));
            DmaMapped(v) && DATA_IOVA + DATA_SIZE <= |v.cells| && DataPages(v)[..len] == seq(len, _ => 0)
  {
    StoreKeepsMapped(m, DATA_IOVA, seq(len, _ => 0));
  }

  lemma PagesStart(m: Memory, len: nat)
    requires len <= DATA_SIZE && DATA_IOVA + DATA_SIZE <= |m.cells|
    ensures Load(m, DATA_IOVA, len) == DataPages(m)[..len]
  {}

  lemma DeliveredStarts(block: Block, under: seq<byte>, len: nat)
    requires |under| == DATA_SIZE && len <= DATA_SIZE
    ensures Delivered(block, under)[..len] == Delivered(block, under[..len])
  {}
}
