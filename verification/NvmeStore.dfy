/** The block store against its history: after any run a block holds what the last WRITE over it
    brought, and a READ delivers exactly that. */
module NvmeStore {
  import opened Bytes
  import opened Modular
  import opened GuestMemory
  import opened NvmeDevice

  type Block = s: seq<byte> | |s| == BLOCK_SIZE witness seq(BLOCK_SIZE, _ => 0)

  function BlockOf(storage: Storage, b: nat): Block
    requires b < NUM_BLOCKS
  {
    storage[b * BLOCK_SIZE..(b + 1) * BLOCK_SIZE]
  }

  predicate Covers(cmd: Command, b: nat) {
    cmd.Lba() <= b < cmd.Lba() + cmd.Nlb()
  }

  /** The bytes of block b among those a transfer of cmd moves. */
  function PartFor(data: seq<byte>, cmd: Command, b: nat): Block
    requires Covers(cmd, b) && |data| == cmd.Bytes()
  {
    PartFits(cmd, b);
    data[(b - cmd.Lba()) * BLOCK_SIZE..(b - cmd.Lba() + 1) * BLOCK_SIZE]
  }

  lemma PartFits(cmd: Command, b: nat)
    requires Covers(cmd, b)
    ensures (b - cmd.Lba() + 1) * BLOCK_SIZE <= cmd.Bytes()
  {
    hide Command.Lba, Command.Nlb;
  }

  // ---------- The history of a block ----------

  /** The entry is a WRITE that lay in the store and covered block b. */
  predicate Wrote(d: Done, b: nat) {
    d.cmd.opcode == WRITE && d.cmd.InStore() && Covers(d.cmd, b) && |d.payload| == d.cmd.Bytes()
  }

  /** What the last WRITE over block b brought, else what was there first. */
  function LastWritten(log: seq<Done>, b: nat, first: Block): Block
    decreases |log|
  {
    if log == [] then first
    else
      var d := log[|log| - 1];
      if Wrote(d, b) then PartFor(d.payload, d.cmd, b) else LastWritten(log[..|log| - 1], b, first)
  }

  /** Some logged command strayed beyond the store. */
  ghost predicate Strayed(log: seq<Done>) {
    exists d | d in log :: Strays(d.cmd)
  }

  ghost predicate Faithful(w: World, first: Storage) {
    && (w.fault <==> Strayed(w.log))
    && forall b: nat | b < NUM_BLOCKS :: BlockOf(w.ctrl.storage, b) == LastWritten(w.log, b, BlockOf(first, b))
  }

  /** The condition of the code's range test, as its 64-bit sum computes it, against the store's
      true bounds: they disagree exactly when the sum passes 2^64 by at most the store's size. */
  lemma RangeTestExactly(cmd: Command)
    ensures cmd.InStore() ==> cmd.Accepted()
    ensures cmd.Accepted() && !cmd.InStore() <==> TWO_TO_THE_64 <= cmd.Lba() + cmd.Nlb() <= TWO_TO_THE_64 + NUM_BLOCKS
  {
    LbaBound(cmd);
    var lba, nlb := cmd.Lba(), cmd.Nlb();
    hide Command.Lba, Command.Nlb;
    if lba + nlb < TWO_TO_THE_64 {
      SmallMod(lba + nlb, TWO_TO_THE_64);
    } else {
      ModOf(lba + nlb, 1, lba + nlb - TWO_TO_THE_64, TWO_TO_THE_64);
    }
  }

  lemma LbaBound(cmd: Command)
    ensures cmd.Lba() < TWO_TO_THE_64 && 1 <= cmd.Nlb() <= TWO_TO_THE_16
  {}

  /** Such a command: one block at the last 64-bit address. */
  lemma RangeTestFooled(cmd: Command)
    requires cmd.opcode == READ && cmd.cdw10 == cmd.cdw11 == 0xFFFFFFFF && cmd.cdw12 == 0
    ensures Strays(cmd)
  {
    assert cmd.Lba() == TWO_TO_THE_64 - 1 && cmd.Nlb() == 1;
    RangeTestExactly(cmd);
  }

  // ---------- One command ----------

  lemma BlockWithBytes(storage: Storage, data: seq<byte>, cmd: Command, b: nat)
    requires cmd.InStore() && |data| == cmd.Bytes() && b < NUM_BLOCKS
    ensures cmd.Lba() * BLOCK_SIZE + |data| <= STORAGE_SIZE
    ensures BlockOf(WithBytes(storage, cmd.Lba() * BLOCK_SIZE, data), b) ==
            if Covers(cmd, b) then PartFor(data, cmd, b) else BlockOf(storage, b)
  {
    InStoreFits(cmd);
    var lba := cmd.Lba();
    hide Command.Lba, Command.Nlb;
    if Covers(cmd, b) {
      PartFits(cmd, b);
    } else if b < lba {
      assert (b + 1) * BLOCK_SIZE <= lba * BLOCK_SIZE;
    }
  }

  // The extent of a transfer, in the numbers of its fields.

  function FirstBlock(cmd: Command): nat {
    cmd.cdw11 as nat * 0x1_0000_0000 + cmd.cdw10 as nat
  }

  function LastBlock(cmd: Command): nat {
    FirstBlock(cmd) + cmd.cdw12 as nat % 65536
  }

  function Buffer(cmd: Command): nat {
    cmd.prp1Hi as nat * 0x1_0000_0000 + cmd.prp1Lo as nat
  }

  lemma Extent(cmd: Command)
    ensures cmd.Lba() == FirstBlock(cmd) && cmd.Prp1() == Buffer(cmd)
    ensures cmd.Lba() + cmd.Nlb() == LastBlock(cmd) + 1
  {
    BlockCounts(cmd);
    hide Command.Nlb;
  }

  /** A WRITE in the store replaces the blocks from cdw11 * 2^32 + cdw10 on, cdw12 % 65536 more
      than one, by what lies at its buffer, 512 bytes each, leaves every other block, and reports success
      exactly when the whole buffer can be read. */
  lemma WriteReplaces(w: World, cmd: Command, b: nat)
    requires cmd.opcode == 1 && LastBlock(cmd) < 2048 && b < 2048
    ensures var v, first := ProcessCmd(w, cmd), FirstBlock(cmd);
            && BlockOf(v.ctrl.storage, b) ==
               (if first <= b <= LastBlock(cmd) then Read(w.mem, Buffer(cmd) + (b - first) * 512, 512) else BlockOf(w.ctrl.storage, b))
            && v.mem == Write(w.mem, CqAddr(w.ctrl, w.ctrl.cqTail), EncodeCqe(Completion(w, cmd)))
            && (StatusCode(w.mem, cmd) == 0 <==> CanRead(w.mem, Buffer(cmd), (LastBlock(cmd) + 1 - first) * 512))
  {
    hide FirstBlock, LastBlock, Buffer;
    Extent(cmd);
    RangeTestExactly(cmd);
    hide Read, Write, CanRead, EncodeCqe, WithPhase, WithBytes, Command.Lba, Command.Nlb, Command.Prp1, NextTail, NextPhase, CqSize;
    BlockWithBytes(w.ctrl.storage, Read(w.mem, cmd.Prp1(), cmd.Bytes()), cmd, b);
    if Covers(cmd, b) {
      PartFits(cmd, b);
      ReadPart(w.mem, cmd.Prp1(), cmd.Bytes(), cmd.Prp1() + (b - cmd.Lba()) * BLOCK_SIZE, BLOCK_SIZE);
    }
  }

  lemma BlockWithin(storage: Storage, cmd: Command, b: nat)
    requires cmd.InStore() && b < NUM_BLOCKS && Covers(cmd, b)
    ensures |InStoreBytes(storage, cmd)| == cmd.Bytes() && PartFor(InStoreBytes(storage, cmd), cmd, b) == BlockOf(storage, b)
  {
    InStoreFits(cmd);
    hide Command.Lba, Command.Nlb;
    BlockOfRange(storage, cmd.Lba(), cmd.Nlb(), b);
  }

  lemma BlockOfRange(s: seq<byte>, lba: nat, nlb: nat, b: nat)
    requires lba <= b < lba + nlb && lba * BLOCK_SIZE + nlb * BLOCK_SIZE <= |s|
    ensures s[lba * BLOCK_SIZE..lba * BLOCK_SIZE + nlb * BLOCK_SIZE][(b - lba) * BLOCK_SIZE..(b - lba + 1) * BLOCK_SIZE]
            == s[b * BLOCK_SIZE..(b + 1) * BLOCK_SIZE]
  {
    var i := (b - lba) * BLOCK_SIZE;
    SliceOfSlice(s, lba * BLOCK_SIZE, lba * BLOCK_SIZE + nlb * BLOCK_SIZE, i, i + BLOCK_SIZE);
  }

  lemma SliceOfSlice(s: seq<byte>, lo: nat, hi: nat, i: nat, j: nat)
    requires lo <= hi <= |s| && i <= j <= hi - lo
    ensures s[lo..hi][i..j] == s[lo + i..lo + j]
  {
    var t, u := s[lo..hi][i..j], s[lo + i..lo + j];
    assert |t| == |u|;
    forall k | 0 <= k < |t|
      ensures t[k] == u[k]
    {
      assert s[lo..hi][i + k] == s[lo + (i + k)];
    }
  }

  /** A READ in the store into a granted buffer clear of its completion slot delivers every block
      from cdw11 * 2^32 + cdw10 on, cdw12 % 65536 more than one, and reports success. */
  lemma ReadDelivers(w: World, cmd: Command, b: nat)
    requires cmd.opcode == 2 && FirstBlock(cmd) <= b <= LastBlock(cmd) < 2048
    requires var n := (LastBlock(cmd) + 1 - FirstBlock(cmd)) * 512;
             && CanWrite(w.mem, Buffer(cmd), n) && CanRead(w.mem, Buffer(cmd), n)
             && Disjoint(Buffer(cmd), n, CqAddr(w.ctrl, w.ctrl.cqTail), 16)
    ensures var v := ProcessCmd(w, cmd);
            && Read(v.mem, Buffer(cmd) + (b - FirstBlock(cmd)) * 512, 512) == BlockOf(w.ctrl.storage, b)
            && StatusCode(w.mem, cmd) == 0
  {
    hide FirstBlock, LastBlock, Buffer, Read, CanRead, CanWrite, ProcessCmd, InStoreBytes, BlockOf, StatusCode,
      Command.Lba, Command.Nlb, Command.Prp1, CqAddr;
    Extent(cmd);
    ReadArrives(w, cmd);
    PartFits(cmd, b);
    BlockWithin(w.ctrl.storage, cmd, b);
    ReadPart(ProcessCmd(w, cmd).mem, cmd.Prp1(), cmd.Bytes(), cmd.Prp1() + (b - cmd.Lba()) * BLOCK_SIZE, BLOCK_SIZE);
  }

  lemma ReadArrives(w: World, cmd: Command)
    requires cmd.opcode == READ && cmd.InStore()
    requires CanWrite(w.mem, cmd.Prp1(), cmd.Bytes()) && CanRead(w.mem, cmd.Prp1(), cmd.Bytes())
    requires Disjoint(cmd.Prp1(), cmd.Bytes(), CqAddr(w.ctrl, w.ctrl.cqTail), CQE_SIZE)
    ensures Read(ProcessCmd(w, cmd).mem, cmd.Prp1(), cmd.Bytes()) == InStoreBytes(w.ctrl.storage, cmd)
    ensures StatusCode(w.mem, cmd) == OK
  {
    RangeTestExactly(cmd);
    InStoreFits(cmd);
    hide Read, Write, CanRead, CanWrite, EncodeCqe, Completion, Command.Lba, Command.Nlb, Command.Prp1, NextTail, NextPhase, CqSize, CqAddr;
    var data := InStoreBytes(w.ctrl.storage, cmd);
    ReadBack(w.mem, cmd.Prp1(), data);
    ReadElsewhere(Write(w.mem, cmd.Prp1(), data), CqAddr(w.ctrl, w.ctrl.cqTail), EncodeCqe(Completion(w, cmd)),
                  cmd.Prp1(), cmd.Bytes());
  }

  /** A transfer the range test refuses changes no block and no memory but its completion slot,
      and reports 0x8002. */
  lemma OutOfRangeRefused(w: World, cmd: Command)
    requires Transfers(cmd) && !cmd.Accepted()
    ensures var v := ProcessCmd(w, cmd);
            && v.ctrl.storage == w.ctrl.storage
            && v.mem == Write(w.mem, CqAddr(w.ctrl, w.ctrl.cqTail), EncodeCqe(Completion(w, cmd)))
            && Completion(w, cmd).status == WithPhase(0x8002, w.ctrl.phase)
  {
    hide Write, EncodeCqe, WithPhase, Command.Accepted, NextTail, NextPhase, CqSize;
  }

  // ---------- Whole runs ----------

  lemma LastWrittenAppend(log: seq<Done>, d: Done, b: nat, first: Block)
    ensures LastWritten(log + [d], b, first) == if Wrote(d, b) then PartFor(d.payload, d.cmd, b) else LastWritten(log, b, first)
  {
    assert (log + [d])[..|log|] == log;
    hide Wrote, PartFor;
  }

  lemma StrayedAppend(log: seq<Done>, d: Done)
    ensures Strayed(log + [d]) <==> Strayed(log) || Strays(d.cmd)
  {
    hide Strays;
    assert forall e :: e in log + [d] <==> e in log || e == d;
  }

  lemma CommandKeeps(w: World, cmd: Command, first: Storage)
    requires Faithful(w, first)
    ensures Faithful(ProcessCmd(w, cmd), first)
  {
    RangeTestExactly(cmd);
    hide Write, Read, EncodeCqe, Completion, MemoryAfter, WithBytes, Strayed, Strays, NextTail, NextPhase, CqSize, BlockOf, PartFor,
      Command.Accepted, Command.InStore, Command.Lba, Command.Nlb, Command.Prp1;
    var v := ProcessCmd(w, cmd);
    var d := v.log[|w.log|];
    StrayedAppend(w.log, d);
    forall b: nat | b < NUM_BLOCKS
      ensures BlockOf(v.ctrl.storage, b) == LastWritten(v.log, b, BlockOf(first, b))
    {
      LastWrittenAppend(w.log, d, b, BlockOf(first, b));
      assert BlockOf(w.ctrl.storage, b) == LastWritten(w.log, b, BlockOf(first, b));
      if cmd.opcode == WRITE && cmd.InStore() {
        BlockWithBytes(w.ctrl.storage, d.payload, cmd, b);
      }
    }
  }

  lemma TurnKeeps(w: World, first: Storage)
    requires Faithful(w, first)
    ensures Faithful(Turn(w), first)
  {
    CommandKeeps(w, Fetched(w), first);
    hide ProcessCmd, Fetched, LastWritten, BlockOf, Strayed, NextHead, SqSize;
  }

  lemma {:induction false} AdvanceKeeps(w: World, n: nat, first: Storage)
    requires Faithful(w, first)
    ensures Faithful(Advance(w, n), first)
    decreases n
  {
    hide Turn, Faithful;
    if n > 0 {
      TurnKeeps(w, first);
      AdvanceKeeps(Turn(w), n - 1, first);
    }
  }

  /** What happens to a drive: a register write, or the host (or another device) changing memory. */
  datatype Event = Register(addr: nat, val: bv32) | Memory(mem: Memory)

  ghost function Apply(w: World, e: Event): World {
    match e
    case Register(addr, val) => OnWrite(w, addr, val)
    case Memory(mem) => w.(mem := mem)
  }

  ghost function Run(w: World, es: seq<Event>): World
    decreases |es|
  {
    if es == [] then w else Run(Apply(w, es[0]), es[1..])
  }

  /** Every doorbell of the run finds the submission loop able to end. */
  ghost predicate Returns(w: World, es: seq<Event>)
    decreases |es|
  {
    es == [] ||
    (&& (es[0].Register? && es[0].addr == NVME_SQ0TDBL ==> DrainEnds(w.ctrl.sqHead, Low16(es[0].val), SqSize(w.ctrl.aqa)))
     && Returns(Apply(w, es[0]), es[1..]))
  }

  lemma EventKeeps(w: World, e: Event, first: Storage)
    requires Faithful(w, first)
    ensures Faithful(Apply(w, e), first)
  {
    hide Advance, TurnsTo, SqSize, LastWritten, BlockOf, Strayed, Enables, SetReady, ClearReady, WithLow, WithHigh, Low16;
    if e.Register? && e.addr == NVME_SQ0TDBL {
      var w' := w.(ctrl := w.ctrl.(sqTail := Low16(e.val)));
      var c := w'.ctrl;
      assert Faithful(w', first);
      AdvanceKeeps(w', TurnsTo(c.sqHead, c.sqTail, SqSize(c.aqa)), first);
    }
  }

  /** In every run that returns, with whatever commands, buffers and queue addresses, also when
      buffers overlap the queues: as long as no command has strayed beyond the store, each block
      holds what the last WRITE over it brought. */
  lemma {:induction false} StoreFollowsHistory(w: World, es: seq<Event>, b: nat)
    requires w.log == [] && !w.fault && b < NUM_BLOCKS && Returns(w, es)
    ensures var v := Run(w, es);
            && (v.fault <==> Strayed(v.log))
            && (!v.fault ==> BlockOf(v.ctrl.storage, b) == LastWritten(v.log, b, BlockOf(w.ctrl.storage, b)))
  {
    hide Run, Returns, LastWritten, BlockOf;
    NothingWritten(w);
    RunKeeps(w, es, w.ctrl.storage);
  }

  lemma {:induction false} RunKeeps(w: World, es: seq<Event>, first: Storage)
    requires Faithful(w, first)
    ensures Faithful(Run(w, es), first)
    decreases |es|
  {
    hide Faithful, Apply;
    if es != [] {
      EventKeeps(w, es[0], first);
      RunKeeps(Apply(w, es[0]), es[1..], first);
    }
  }

  /** The next command is a READ of block b, in the store, into a granted buffer clear of its
      completion slot. */
  ghost predicate AboutToRead(v: World, b: nat) {
    var cmd := Fetched(v);
    && b < NUM_BLOCKS && cmd.opcode == READ && cmd.InStore() && Covers(cmd, b)
    && CanWrite(v.mem, cmd.Prp1(), cmd.Bytes()) && CanRead(v.mem, cmd.Prp1(), cmd.Bytes())
    && Disjoint(cmd.Prp1(), cmd.Bytes(), CqAddr(v.ctrl, v.ctrl.cqTail), CQE_SIZE)
  }

  /** The state in which a doorbell for tail t comes to its turn n. */
  ghost function AtTurn(w: World, t: nat, n: nat): World {
    Advance(w.(ctrl := w.ctrl.(sqTail := t)), n)
  }

  lemma {:induction false} AdvanceSplits(w: World, a: nat, b: nat)
    ensures Advance(w, a + b) == Advance(Advance(w, a), b)
    decreases a
  {
    hide Turn;
    if a > 0 {
      AdvanceSplits(Turn(w), a - 1, b);
    }
  }

  /** Turn n is one of the doorbell's own, and the doorbell goes on from it. */
  lemma DoorbellTurn(w: World, t: nat, n: nat)
    requires n < TurnsTo(w.ctrl.sqHead, t, SqSize(w.ctrl.aqa))
    ensures Submit(w, t) == Advance(Turn(AtTurn(w, t, n)), TurnsTo(w.ctrl.sqHead, t, SqSize(w.ctrl.aqa)) - n - 1)
  {
    hide Turn, SqSize, TurnsTo;
    var total := TurnsTo(w.ctrl.sqHead, t, SqSize(w.ctrl.aqa));
    var p := w.(ctrl := w.ctrl.(sqTail := t));
    AdvanceSplits(p, n, total - n);
    assert Advance(AtTurn(w, t, n), total - n) == Advance(Turn(AtTurn(w, t, n)), total - n - 1);
  }

  /** After any run that returns, let a doorbell return too. If the command of its turn n is a READ
      in the store into a good buffer, that turn delivers for each of the READ's blocks what the last
      WRITE before it brought, those of the same doorbell included, as long as none has strayed. */
  lemma ReadDeliversLastWrite(w: World, es: seq<Event>, val: bv32, n: nat, b: nat)
    requires w.log == [] && !w.fault && Returns(w, es)
    requires var c := Run(w, es).ctrl;
             DrainEnds(c.sqHead, Low16(val), SqSize(c.aqa)) && n < TurnsTo(c.sqHead, Low16(val), SqSize(c.aqa))
    requires AboutToRead(AtTurn(Run(w, es), Low16(val), n), b)
    ensures var c, v := Run(w, es).ctrl, AtTurn(Run(w, es), Low16(val), n);
            var cmd := Fetched(v);
            && Apply(Run(w, es), Register(NVME_SQ0TDBL, val))
               == Advance(Turn(v), TurnsTo(c.sqHead, Low16(val), SqSize(c.aqa)) - n - 1)
            && (!v.fault ==>
                  Read(Turn(v).mem, cmd.Prp1() + (b - cmd.Lba()) * BLOCK_SIZE, BLOCK_SIZE)
                  == LastWritten(v.log, b, BlockOf(w.ctrl.storage, b)))
  {
    hide Run, Returns, Advance, Submit, LastWritten, BlockOf, Strayed, Fetched, ProcessCmd, Read, Low16,
      FirstBlock, LastBlock, Buffer, CanRead, CanWrite, Command.Lba, Command.Nlb, Command.Prp1, NextHead, SqSize, TurnsTo, CqAddr;
    var u := Run(w, es);
    NothingWritten(w);
    RunKeeps(w, es, w.ctrl.storage);
    assert Faithful(u.(ctrl := u.ctrl.(sqTail := Low16(val))), w.ctrl.storage);
    AdvanceKeeps(u.(ctrl := u.ctrl.(sqTail := Low16(val))), n, w.ctrl.storage);
    DoorbellTurn(u, Low16(val), n);
    var v := AtTurn(u, Low16(val), n);
    Extent(Fetched(v));
    ReadDelivers(v, Fetched(v), b);
  }

  lemma NothingWritten(w: World)
    requires w.log == [] && !w.fault
    ensures Faithful(w, w.ctrl.storage)
  {}
}
