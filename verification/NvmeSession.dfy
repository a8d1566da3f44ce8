/** Sessions of the host driver with the controller: any number of exchanges and of block writes
    and reads, by the effect of each on the world. */
module NvmeSession {
  import opened Bytes
  import opened Modular
  import opened GuestMemory
  import Numbers
  import opened NvmeDevice
  import opened NvmeQueues
  import opened NvmeConsumer
  import opened NvmeStore
  import opened NvmeHost

  /** The host's test of a completion status, which looks at the low byte. */
  predicate Succeeded(status: bv16) {
    status & 0xFF == 0
  }

  /** Of the statuses the controller reports, the low byte tells success from each failure. */
  lemma SuccessExactly(m: Memory, cmd: Command, phase: byte)
    ensures Succeeded(WithPhase(StatusCode(m, cmd), phase)) <==> StatusCode(m, cmd) == OK
  {
    StatusCodes(m, cmd);
    LowByte(StatusCode(m, cmd), phase);
    hide StatusCode, WithPhase, Succeeded;
  }

  lemma LowByte(code: bv16, phase: byte)
    requires code in {OK, BAD_OPCODE, BAD_LBA, BAD_TRANSFER}
    ensures Succeeded(WithPhase(code, phase)) <==> code == OK
  {}

  lemma AnswerTells(entry: seq<byte>, m: Memory, cmd: Command, n: nat)
    requires |entry| == CQE_SIZE && AnswersTo(entry, m, cmd, n)
    ensures Succeeded(StatusOf(entry)) <==> StatusCode(m, cmd) == OK
  {
    SuccessExactly(m, cmd, LapPhase(n, QUEUE_SIZE));
    hide LapPhase, StatusCode, Succeeded, StatusOf, CidOf;
  }

  // ---------- What being in step gives ----------

  lemma InStepConfigured(w: World, h: Indices, n: nat)
    requires InStep(w, h, n)
    ensures Configured(w) && DmaMapped(w.mem) && DATA_IOVA + DATA_SIZE <= |w.mem.cells|
    ensures h.sqTail < QUEUE_SIZE && h.cqHead < QUEUE_SIZE && w.ctrl.cqTail < QUEUE_SIZE
  {
    hide LapPhase;
    DataInside(w.mem);
    hide DmaMapped;
  }

  /** The host may store to its buffers between exchanges. */
  lemma StaysInStep(w: World, v: World, h: Indices, n: nat)
    requires InStep(w, h, n) && v == w.(mem := v.mem) && DmaMapped(v.mem)
    ensures InStep(v, h, n)
  {
    hide DmaMapped, LapPhase;
  }

  lemma TransferSpares(opcode: byte, lba: BlockAddress)
    requires opcode == READ || opcode == WRITE
    ensures SparesCq(Transfer(opcode, lba))
  {
    TransferFields(opcode, lba, 0);
    hide Command.Prp1, Command.Bytes;
  }

  lemma SparesWhatever(cmd: Command, cid: bv16)
    ensures SparesCq(cmd.(cid := cid)) == SparesCq(cmd)
  {
    SameBuffer(cmd, cid);
    hide Command.Prp1, Command.Bytes;
  }

  lemma SameBuffer(cmd: Command, cid: bv16)
    ensures cmd.(cid := cid).Prp1() == cmd.Prp1() && cmd.(cid := cid).Bytes() == cmd.Bytes()
  {
    assert cmd.(cid := cid).Prp1() == cmd.Prp1();
    assert cmd.(cid := cid).Nlb() == cmd.Nlb() by { hide BlockCount; }
    hide Command.Nlb, Command.Prp1;
  }

  // ---------- Any number of exchanges ----------

  /** What an exchange makes of the world. */
  ghost function Exchanged(w: World, h: Indices, cmd: Command): World
    requires SQ_IOVA + h.sqTail * CMD_SIZE + CMD_SIZE <= |w.mem.cells|
  {
    Acknowledged(Submitted(w, h.sqTail, cmd.(cid := h.cmdId)), h)
  }

  /** The entry the host reads in it. */
  ghost function PickedUp(w: World, h: Indices, cmd: Command): (entry: seq<byte>)
    requires SQ_IOVA + h.sqTail * CMD_SIZE + CMD_SIZE <= |w.mem.cells|
    requires CQ_IOVA + h.cqHead * CQE_SIZE + CQE_SIZE <= |Exchanged(w, h, cmd).mem.cells|
    ensures |entry| == CQE_SIZE
  {
    Load(Exchanged(w, h, cmd).mem, CQ_IOVA + h.cqHead * CQE_SIZE, CQE_SIZE)
  }

  ghost predicate AllSpare(cmds: seq<Command>) {
    forall cmd | cmd in cmds :: SparesCq(cmd)
  }

  lemma ExchangedInStep(w: World, h: Indices, n: nat, cmd: Command)
    requires InStep(w, h, n) && SparesCq(cmd)
    ensures SQ_IOVA + h.sqTail * CMD_SIZE + CMD_SIZE <= |w.mem.cells|
    ensures var v := Exchanged(w, h, cmd);
            && InStep(v, NextIndices(h), n + 1) && CQ_IOVA + h.cqHead * CQE_SIZE + CQE_SIZE <= |v.mem.cells|
            && CidOf(PickedUp(w, h, cmd)) == h.cmdId
  {
    hide Submitted, Posted, LapPhase, Configured, Load, CidOf, StatusOf, SparesCq, WithPhase, StatusCode;
    SparesWhatever(cmd, h.cmdId);
    ExchangeKeepsStep(w, h, n, cmd.(cid := h.cmdId));
  }

  /** The i-th identifier from cid on. */
  function CidFrom(cid: bv16, i: nat): bv16
    decreases i
  {
    if i == 0 then cid else CidFrom(NextCid(cid), i - 1)
  }

  /** The identifiers the host picks up over a session, and where it ends. */
  ghost function Session(w: World, h: Indices, n: nat, cmds: seq<Command>): (r: (World, Indices, seq<bv16>))
    requires InStep(w, h, n) && AllSpare(cmds)
    decreases |cmds|
  {
    if cmds == [] then (w, h, [])
    else
      ExchangedInStep(w, h, n, cmds[0]);
      var (v, k, ids) := Session(Exchanged(w, h, cmds[0]), NextIndices(h), n + 1, cmds[1..]);
      (v, k, [CidOf(PickedUp(w, h, cmds[0]))] + ids)
  }

  /** After any number of exchanges, over any number of laps of the queues and of the identifiers,
      host and device indices agree, and every completion carried the identifier just submitted. */
  lemma {:induction false} SessionInStep(w: World, h: Indices, n: nat, cmds: seq<Command>)
    requires InStep(w, h, n) && AllSpare(cmds)
    ensures var (v, k, ids) := Session(w, h, n, cmds);
            && InStep(v, k, n + |cmds|) && |ids| == |cmds|
            && k.cmdId == CidFrom(h.cmdId, |cmds|)
            && forall i: nat | i < |cmds| :: ids[i] == CidFrom(h.cmdId, i)
    decreases |cmds|
  {
    hide Exchanged, InStep, PickedUp, SparesCq, CidOf, NextCid;
    if cmds != [] {
      ExchangedInStep(w, h, n, cmds[0]);
      SessionInStep(Exchanged(w, h, cmds[0]), NextIndices(h), n + 1, cmds[1..]);
      var ids := Session(Exchanged(w, h, cmds[0]), NextIndices(h), n + 1, cmds[1..]).2;
      forall i: nat | i < |cmds|
        ensures ([CidOf(PickedUp(w, h, cmds[0]))] + ids)[i] == CidFrom(h.cmdId, i)
      {
        if i > 0 {
          assert ids[i - 1] == CidFrom(NextCid(h.cmdId), i - 1);
        }
      }
    }
  }

  /** x counted up n times in 16 bits. */
  function CountedUp(x: nat, n: nat): nat {
    (x + n) % 65536
  }

  lemma NextCidNumber(cid: bv16)
    ensures NextCid(cid) as nat == CountedUp(cid as nat, 1)
  {
    assert NextCid(cid) == Numbers.SuccHalfword(cid);
    hide NextCid, CountedUp, Numbers.SuccHalfword;
    Numbers.NextHalfword(cid);
    CountedOnce(cid as nat);
  }

  lemma CountedOnce(x: nat)
    requires x < 65536
    ensures CountedUp(x, 1) == if x == 65535 then 0 else x + 1
    ensures CountedUp(x, 0) == x
  {}

  lemma CountedOn(x: nat, n: nat)
    requires n > 0
    ensures CountedUp(CountedUp(x, 1), n - 1) == CountedUp(x, n)
  {
    AddMod(x + 1, n - 1, 65536);
  }

  lemma {:induction false} CidNumber(cid: bv16, i: nat)
    ensures CidFrom(cid, i) as nat == CountedUp(cid as nat, i)
    decreases i
  {
    hide NextCid, CountedUp;
    if i == 0 {
      CountedOnce(cid as nat);
    } else {
      CidNumber(NextCid(cid), i - 1);
      NextCidNumber(cid);
      CountedOn(cid as nat, i);
    }
  }

  /** As numbers the identifiers count up from the host's first and come round after 65535. */
  lemma SessionIdentifiers(w: World, h: Indices, n: nat, cmds: seq<Command>, i: nat)
    requires InStep(w, h, n) && AllSpare(cmds) && i < |cmds|
    ensures var ids := Session(w, h, n, cmds).2;
            |ids| == |cmds| && ids[i] as nat == CountedUp(h.cmdId as nat, i)
  {
    hide InStep, Session, SparesCq, CidFrom;
    SessionInStep(w, h, n, cmds);
    CidNumber(h.cmdId, i);
  }

  // ---------- Block writes and reads ----------

  datatype Op = Put(lba: BlockAddress, data: seq<byte>) | Get(lba: BlockAddress, len: nat) {
    /** The bytes fit the data pages. */
    predicate Fits() {
      match this
      case Put(_, data) => |data| <= DATA_SIZE
      case Get(_, len) => len <= DATA_SIZE
    }

    /** What the host puts into its data pages before the command. */
    function Prepared(): seq<byte> {
      match this
      case Put(_, data) => data
      case Get(_, len) => seq(len, _ => 0)
    }

    function Cmd(): Command {
      Transfer(if Put? then WRITE else READ, lba)
    }

    /** It writes block b. */
    predicate Puts(b: nat) {
      Put? && Target(lba) == b
    }
  }

  function Prepare(w: World, op: Op): World
    requires op.Fits() && DATA_IOVA + DATA_SIZE <= |w.mem.cells|
  {
    w.(mem := Store(w.mem, DATA_IOVA, op.Prepared()))
  }

  lemma PreparedInStep(w: World, h: Indices, n: nat, op: Op)
    requires InStep(w, h, n) && op.Fits()
    ensures DATA_IOVA + DATA_SIZE <= |w.mem.cells| && InStep(Prepare(w, op), h, n)
    ensures SQ_IOVA + h.sqTail * CMD_SIZE + CMD_SIZE <= |Prepare(w, op).mem.cells|
    ensures op.Put? ==> DATA_IOVA + DATA_SIZE <= |Prepare(w, op).mem.cells| &&
                        DataBlock(Prepare(w, op).mem) == Overlay(op.data, DataBlock(w.mem))
  {
    InStepConfigured(w, h, n);
    StoreKeepsMapped(w.mem, DATA_IOVA, op.Prepared());
    StaysInStep(w, Prepare(w, op), h, n);
    InStepConfigured(Prepare(w, op), h, n);
    if op.Put? {
      StoreOverlays(w.mem, op.data);
    }
    hide InStep, Store, DmaMapped, Configured, Overlay, Load;
  }

  ghost function AfterOp(w: World, h: Indices, n: nat, op: Op): World
    requires InStep(w, h, n) && op.Fits()
  {
    PreparedInStep(w, h, n, op);
    Exchanged(Prepare(w, op), h, op.Cmd())
  }

  /** What one operation does: the sides stay in step, and a write to a block of the store
      replaces that block by the data, followed by what the buffer held, and no other block. */
  lemma OpOutcome(w: World, h: Indices, n: nat, op: Op, b: nat)
    requires InStep(w, h, n) && op.Fits() && b < NUM_BLOCKS
    ensures DATA_IOVA + DATA_SIZE <= |w.mem.cells|
    ensures var v := AfterOp(w, h, n, op);
            && InStep(v, NextIndices(h), n + 1)
            && BlockOf(v.ctrl.storage, b) == if op.Puts(b) then Overlay(op.data, DataBlock(w.mem)) else BlockOf(w.ctrl.storage, b)
  {
    hide InStep, Store, DmaMapped, Configured, Overlay, Load, Transfer, Submitted, BlockOf, Target, StatusCode, Posted,
      DataPages, Delivered;
    PreparedInStep(w, h, n, op);
    var p := Prepare(w, op);
    InStepConfigured(p, h, n);
    TransferSpares(if op.Put? then WRITE else READ, op.lba);
    ExchangedInStep(p, h, n, op.Cmd());
    if op.Put? {
      WriteOutcome(p, h.sqTail, op.lba, h.cmdId, b);
    } else {
      ReadOutcome(p, h.sqTail, op.lba, h.cmdId);
    }
  }

  // ---------- Any number of them ----------

  ghost predicate AllFit(ops: seq<Op>) {
    forall op | op in ops :: op.Fits()
  }

  ghost function Script(w: World, h: Indices, n: nat, ops: seq<Op>): World
    requires InStep(w, h, n) && AllFit(ops)
    decreases |ops|
  {
    if ops == [] then w
    else
      OpOutcome(w, h, n, ops[0], 0);
      Script(AfterOp(w, h, n, ops[0]), NextIndices(h), n + 1, ops[1..])
  }

  /** Operation i is the last of ops that writes block b. */
  ghost predicate LastPut(ops: seq<Op>, i: nat, b: nat) {
    i < |ops| && ops[i].Puts(b) && forall j: nat | i < j < |ops| :: !ops[j].Puts(b)
  }

  ghost predicate NoPut(ops: seq<Op>, b: nat) {
    forall op | op in ops :: !op.Puts(b)
  }

  /** The block begins with the data, as far as data of a write goes into it. */
  predicate StartsWith(block: Block, data: seq<byte>) {
    var n := if |data| < BLOCK_SIZE then |data| else BLOCK_SIZE;
    block[..n] == data[..n]
  }

  lemma OverlayStarts(data: seq<byte>, under: Block)
    ensures StartsWith(Overlay(data, under), data)
  {}

  lemma {:induction false} UnwrittenStays(w: World, h: Indices, n: nat, ops: seq<Op>, b: nat)
    requires InStep(w, h, n) && AllFit(ops) && b < NUM_BLOCKS && NoPut(ops, b)
    ensures BlockOf(Script(w, h, n, ops).ctrl.storage, b) == BlockOf(w.ctrl.storage, b)
    decreases |ops|
  {
    hide InStep, AfterOp, BlockOf, Op.Puts, Op.Fits, Overlay, Load;
    if ops != [] {
      OpOutcome(w, h, n, ops[0], 0);
      OpOutcome(w, h, n, ops[0], b);
      UnwrittenStays(AfterOp(w, h, n, ops[0]), NextIndices(h), n + 1, ops[1..], b);
    }
  }

  /** The block that write i brings: its data, then what its turn found in the buffer behind them. */
  ghost function Brought(w: World, h: Indices, n: nat, ops: seq<Op>, i: nat): Block
    requires InStep(w, h, n) && AllFit(ops) && i < |ops| && ops[i].Put?
    decreases i
  {
    OpOutcome(w, h, n, ops[0], 0);
    if i == 0 then Overlay(ops[0].data, DataBlock(w.mem))
    else Brought(AfterOp(w, h, n, ops[0]), NextIndices(h), n + 1, ops[1..], i - 1)
  }

  lemma {:induction false} BroughtStarts(w: World, h: Indices, n: nat, ops: seq<Op>, i: nat)
    requires InStep(w, h, n) && AllFit(ops) && i < |ops| && ops[i].Put?
    ensures StartsWith(Brought(w, h, n, ops, i), ops[i].data)
    decreases i
  {
    hide InStep, AfterOp, Op.Fits, Overlay, Load, StartsWith;
    OpOutcome(w, h, n, ops[0], 0);
    if i == 0 {
      OverlayStarts(ops[0].data, DataBlock(w.mem));
    } else {
      BroughtStarts(AfterOp(w, h, n, ops[0]), NextIndices(h), n + 1, ops[1..], i - 1);
    }
  }

  /** After any writes and reads a block holds what the last write to it brought. */
  lemma {:induction false} LastPutStands(w: World, h: Indices, n: nat, ops: seq<Op>, i: nat, b: nat)
    requires InStep(w, h, n) && AllFit(ops) && b < NUM_BLOCKS && LastPut(ops, i, b)
    ensures BlockOf(Script(w, h, n, ops).ctrl.storage, b) == Brought(w, h, n, ops, i)
    decreases |ops|
  {
    hide InStep, AfterOp, BlockOf, Op.Fits, Overlay, Load, Target;
    OpOutcome(w, h, n, ops[0], 0);
    OpOutcome(w, h, n, ops[0], b);
    var v := AfterOp(w, h, n, ops[0]);
    if i == 0 {
      UnwrittenStays(v, NextIndices(h), n + 1, ops[1..], b);
    } else {
      LastPutStands(v, NextIndices(h), n + 1, ops[1..], i - 1, b);
    }
  }

  /** What read_data returns for an address in the store. */
  function Returned(storage: Storage, lba: BlockAddress, len: nat): (s: seq<byte>)
    requires Target(lba) < NUM_BLOCKS
    ensures |s| == len
  {
    Delivered(BlockOf(storage, Target(lba)), seq(len, _ => 0))
  }

  /** After any writes and reads a read returns the bytes last written to its block, as many as
      fit a block, whatever was written elsewhere in between. */
  lemma ReadsLastWrite(w: World, h: Indices, n: nat, ops: seq<Op>, i: nat, lba: BlockAddress, len: nat)
    requires InStep(w, h, n) && AllFit(ops) && Target(lba) < NUM_BLOCKS && LastPut(ops, i, Target(lba))
    requires len <= |ops[i].data| && len <= BLOCK_SIZE
    ensures Returned(Script(w, h, n, ops).ctrl.storage, lba, len) == ops[i].data[..len]
  {
    LastPutStands(w, h, n, ops, i, Target(lba));
    BroughtStarts(w, h, n, ops, i);
    hide Brought, InStep, Script, BlockOf, Op.Fits, Op.Puts, LastPut, Target, Delivered, StartsWith;
    var block := BlockOf(Script(w, h, n, ops).ctrl.storage, Target(lba));
    DeliversStart(block, len);
    StartOfStart(block, ops[i].data, len);
  }

  lemma DeliversStart(block: Block, len: nat)
    requires len <= BLOCK_SIZE
    ensures Delivered(block, seq(len, _ => 0)) == block[..len]
  {
    if len == BLOCK_SIZE {
      assert seq(len, _ => 0 as byte)[BLOCK_SIZE..] == [];
      assert block[..len] == block;
    }
  }

  lemma StartOfStart(block: Block, data: seq<byte>, len: nat)
    requires StartsWith(block, data) && len <= |data| && len <= BLOCK_SIZE
    ensures block[..len] == data[..len]
  {
    var k := if |data| < BLOCK_SIZE then |data| else BLOCK_SIZE;
    assert block[..len] == block[..k][..len] && data[..len] == data[..k][..len];
  }

  /** With every address below 2^32 the last write to the block is the last write to the address. */
  lemma AddressesAsBlocks(ops: seq<Op>, i: nat, lba: BlockAddress)
    requires lba.Value() < TWO_TO_THE_32 && forall op | op in ops :: op.lba.Value() < TWO_TO_THE_32
    ensures LastPut(ops, i, Target(lba)) <==>
            i < |ops| && ops[i].Put? && ops[i].lba == lba && forall j: nat | i < j < |ops| :: !(ops[j].Put? && ops[j].lba == lba)
  {
    hide Target, BlockAddress.Value;
    forall j: nat | j < |ops|
      ensures ops[j].Puts(Target(lba)) <==> ops[j].Put? && ops[j].lba == lba
    {
      SmallAddresses(ops[j].lba, lba);
    }
    hide Op.Puts;
  }

  predicate Congruent(a: BlockAddress, b: BlockAddress) {
    a.Value() % TWO_TO_THE_32 == b.Value() % TWO_TO_THE_32
  }

  /** Operation j is the last write to an address congruent to lba modulo 2^32. */
  ghost predicate LastCongruent(ops: seq<Op>, j: nat, lba: BlockAddress) {
    && j < |ops| && ops[j].Put? && Congruent(ops[j].lba, lba)
    && forall k: nat | j < k < |ops| :: !(ops[k].Put? && Congruent(ops[k].lba, lba))
  }

  lemma CongruentIsTarget(ops: seq<Op>, j: nat, lba: BlockAddress)
    ensures LastPut(ops, j, Target(lba)) <==> LastCongruent(ops, j, lba)
  {
    hide Target, Congruent;
    forall k: nat | k < |ops|
      ensures Target(ops[k].lba) == Target(lba) <==> Congruent(ops[k].lba, lba)
    {
      CongruentTargets(ops[k].lba, lba);
    }
  }

  lemma CongruentTargets(a: BlockAddress, b: BlockAddress)
    ensures Target(a) == Target(b) <==> Congruent(a, b)
  {
    hide Target, BlockAddress.Value;
    TargetExactly(a, b);
  }

  /** When a read returns the bytes of some write to its address, over all 64-bit addresses: exactly
      when the last write to a congruent address brought the same bytes there. */
  lemma AddressLawExactly(w: World, h: Indices, n: nat, ops: seq<Op>, i: nat, j: nat, lba: BlockAddress, len: nat)
    requires InStep(w, h, n) && AllFit(ops) && Target(lba) < NUM_BLOCKS
    requires i < |ops| && ops[i].Put? && ops[i].lba == lba && len <= |ops[i].data| && len <= BLOCK_SIZE
    requires LastCongruent(ops, j, lba)
    ensures Returned(Script(w, h, n, ops).ctrl.storage, lba, len) == ops[i].data[..len]
            <==> Brought(w, h, n, ops, j)[..len] == ops[i].data[..len]
    ensures len <= |ops[j].data| ==> Brought(w, h, n, ops, j)[..len] == ops[j].data[..len]
  {
    hide InStep, Script, BlockOf, Op.Fits, Op.Puts, LastPut, LastCongruent, Target, Delivered, StartsWith, Brought;
    CongruentIsTarget(ops, j, lba);
    IsPut(ops, j, lba);
    LastPutStands(w, h, n, ops, j, Target(lba));
    BroughtStarts(w, h, n, ops, j);
    DeliversStart(Brought(w, h, n, ops, j), len);
    if len <= |ops[j].data| {
      StartOfStart(Brought(w, h, n, ops, j), ops[j].data, len);
    }
  }

  lemma IsPut(ops: seq<Op>, j: nat, lba: BlockAddress)
    requires LastCongruent(ops, j, lba)
    ensures j < |ops| && ops[j].Put?
  {}

  lemma SmallAddresses(a: BlockAddress, b: BlockAddress)
    requires a.Value() < TWO_TO_THE_32 && b.Value() < TWO_TO_THE_32
    ensures Target(a) == Target(b) <==> a == b
  {
    hide BlockAddress.Value;
    HighZero(a);
    HighZero(b);
    if Target(a) == Target(b) {
      SameWord(a.lo, b.lo);
    }
  }

  lemma HighZero(a: BlockAddress)
    requires a.Value() < TWO_TO_THE_32
    ensures a.hi == 0
  {
    assert a.hi as nat == 0;
    SameWord(a.hi, 0);
  }

  lemma SameWord(x: bv32, y: bv32)
    requires x as nat == y as nat
    ensures x == y
  {
    assert (x as nat) as bv32 == x && (y as nat) as bv32 == y;
  }

  /** Without that bound the law fails: a write to address 2^32 comes back from address 0. */
  lemma AliasedWriteComesBack(w: World, h: Indices, n: nat, x: byte, y: byte)
    requires InStep(w, h, n) && x != y
    ensures var zero, far := BlockAddress(0, 0), BlockAddress(0, 1);
            AllFit([Put(zero, [x]), Put(far, [y])]) && Target(zero) < NUM_BLOCKS &&
            Returned(Script(w, h, n, [Put(zero, [x]), Put(far, [y])]).ctrl.storage, zero, 1) == [y] != [x]
  {
    hide InStep, Script, Returned;
    var zero, far := BlockAddress(0, 0), BlockAddress(0, 1);
    BeyondReachesZero();
    var ops := [Put(zero, [x]), Put(far, [y])];
    ReadsLastWrite(w, h, n, ops, 1, zero, 1);
  }
}
