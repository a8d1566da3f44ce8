/** Both queues at work: a host that posts commands into submission slots, rings the doorbell for
    any number of them, and looks for completions by their phase bit alone. */
module NvmePair {
  import opened Modular
  import opened Bytes
  import opened GuestMemory
  import opened NvmeDevice
  import opened NvmeQueues
  import opened NvmeConsumer

  /** Device and consumer, and every command posted so far. */
  datatype Pair = Pair(s: System, posted: seq<Command>)

  /** The host posts a command, rings the doorbell for the first count commands, looks at its
      completion head, or memory changes beside the queues. */
  datatype Action = Post(cmd: Command) | Doorbell(count: nat) | Look | Elsewhere(mem: Memory)

  /** The number of submission slots, from AQA as a number. */
  function Slots(w: World): (n: nat)
    ensures 1 <= n <= 4096 && n == SqSize(w.ctrl.aqa)
  {
    QueueSizes(w.ctrl.aqa);
    w.ctrl.aqa as nat % 4096 + 1
  }

  /** The command standing in submission slot k. */
  function SqCmd(w: World, k: nat): Command {
    DecodeCommand(Read(w.mem, SqAddr(w.ctrl, k), CMD_SIZE))
  }

  /** The submission queue lies in memory the device may read, apart from the completion queue. */
  ghost predicate SqMapped(c: Controller, m: Memory) {
    var n := SqSize(c.aqa) * CMD_SIZE;
    && c.asq + n <= TWO_TO_THE_64 && c.asq + n <= |m.cells| && CanRead(m, c.asq, n)
    && Disjoint(c.asq, n, c.acq, CqSize(c.aqa) * CQE_SIZE)
  }

  /** The data a command moves into memory stays clear of both queues. */
  predicate ClearOfQueues(w: World, cmd: Command) {
    var n := SqSize(w.ctrl.aqa) * CMD_SIZE;
    && ClearOfCq(w, cmd)
    && (cmd.opcode == IDENTIFY ==> Disjoint(cmd.Prp1(), 4096, w.ctrl.asq, n))
    && (cmd.opcode == READ ==> Disjoint(cmd.Prp1(), cmd.Bytes(), w.ctrl.asq, n))
  }

  /** The host keeps one submission slot free, and announces no more than it has completion slots
      left to take. */
  ghost predicate Permitted(p: Pair, a: Action) {
    var w := p.s.w;
    match a
    case Post(cmd) => |p.posted| + 1 < |w.log| + Slots(w) && ClearOfQueues(w, cmd)
    case Doorbell(count) => |w.log| <= count <= |p.posted| && count <= p.s.taken + Size(p.s)
    case Look => true
    case Elsewhere(mem) => Allowed(p.s, Change(mem)) && SqMapped(w.ctrl, mem) && SameSlots(w, w.(mem := mem))
  }

  ghost predicate SameSlots(w: World, v: World) {
    forall k: nat | k < Slots(w) :: SqCmd(v, k) == SqCmd(w, k)
  }

  ghost predicate Room(p: Pair) {
    SqMapped(p.s.w.ctrl, p.s.w.mem)
  }

  ghost function Act(p: Pair, a: Action): Pair
    requires Room(p)
  {
    var w := p.s.w;
    match a
    case Post(cmd) =>
      SlotInside(w.ctrl, w.mem, |p.posted| % Slots(w));
      Pair(p.s.(w := w.(mem := Store(w.mem, SqAddr(w.ctrl, |p.posted| % Slots(w)), EncodeCommand(cmd)))), p.posted + [cmd])
    case Doorbell(count) => p.(s := p.s.(w := Submit(w, count % Slots(w))))
    case Look => p.(s := Apply(p.s, Poll))
    case Elsewhere(mem) => p.(s := Apply(p.s, Change(mem)))
  }

  lemma SlotInside(c: Controller, m: Memory, k: nat)
    requires SqMapped(c, m) && k < SqSize(c.aqa)
    ensures SqAddr(c, k) == c.asq + k * CMD_SIZE && c.asq <= SqAddr(c, k)
    ensures SqAddr(c, k) + CMD_SIZE <= c.asq + SqSize(c.aqa) * CMD_SIZE <= |m.cells|
    ensures CanRead(m, SqAddr(c, k), CMD_SIZE)
  {
    hide SqSize, CqSize;
    assert (k + 1) * CMD_SIZE <= SqSize(c.aqa) * CMD_SIZE;
    SmallMod(c.asq + k * CMD_SIZE, TWO_TO_THE_64);
  }

  // ---------- The invariant ----------

  /** The head is the residue of the number of commands fetched; less than a lap is waiting. */
  ghost predicate HeadInStep(p: Pair) {
    var w, n := p.s.w, |p.s.w.log|;
    SqMapped(w.ctrl, w.mem) && w.ctrl.sqHead == n % Slots(w) && n <= |p.posted| < n + Slots(w)
  }

  /** Commands not fetched yet stand in their slots as posted. */
  ghost predicate Waiting(p: Pair) {
    forall i: nat | |p.s.w.log| <= i < |p.posted| ::
      SqCmd(p.s.w, i % Slots(p.s.w)) == p.posted[i] && ClearOfQueues(p.s.w, p.posted[i])
  }

  /** Completion i answers posted command i. */
  ghost predicate InOrder(p: Pair) {
    |p.s.w.log| <= |p.posted| &&
    forall i: nat | i < |p.s.w.log| :: p.s.w.log[i].cmd == p.posted[i] && p.s.w.log[i].cqe.cid == p.posted[i].cid
  }

  ghost predicate PairInv(p: Pair) {
    Inv(p.s) && HeadInStep(p) && Waiting(p) && InOrder(p)
  }

  /** Between host actions the device has nothing left to fetch. */
  ghost predicate Idle(p: Pair) {
    p.s.w.ctrl.sqTail == p.s.w.ctrl.sqHead
  }

  // ---------- One turn of the submission loop ----------

  /** A turn is the consumer's event for the command it fetches. */
  lemma TurnIsHandle(s: System)
    ensures var w := s.w;
            s.(w := Turn(w)) ==
            Apply(s, Handle(Fetched(w), NextHead(w.ctrl.sqHead, SqSize(w.ctrl.aqa)), w.ctrl.sqTail))
  {
    hide ProcessCmd, Fetched, SqSize, NextHead;
    ProcessCmdKeeps(s.w, Fetched(s.w));
  }

  /** Processing a command leaves the submission slots as they are. */
  lemma CommandKeepsSlot(w: World, cmd: Command, k: nat)
    requires SqMapped(w.ctrl, w.mem) && CqMapped(w.ctrl, w.mem) && w.ctrl.cqTail < CqSize(w.ctrl.aqa)
    requires ClearOfQueues(w, cmd) && k < Slots(w)
    ensures var v := ProcessCmd(w, cmd);
            SqCmd(v, k) == SqCmd(w, k) && SqMapped(v.ctrl, v.mem)
  {
    hide Read, Write, CanRead, CanWrite, DecodeCommand, EncodeCqe, Completion, MemoryAfter, StorageAfter, Payload, NextTail, NextPhase,
      CqSize, SqSize, Strays, ClearOfQueues, CqAddr, SqAddr;
    var c := w.ctrl;
    var m, a := MemoryAfter(w.mem, c.storage, cmd), SqAddr(c, k);
    var n := SqSize(c.aqa) * CMD_SIZE;
    var entry := EncodeCqe(Completion(w, cmd));
    SlotInside(c, w.mem, k);
    CqSlot(c, w.mem, c.cqTail);
    DataMissesSq(w, cmd, a, CMD_SIZE);
    DataMissesSq(w, cmd, c.asq, n);
    ReadElsewhere(m, CqAddr(c, c.cqTail), entry, a, CMD_SIZE);
    WriteKeepsAccess(m, CqAddr(c, c.cqTail), entry, c.asq, n);
    SameSize(m, CqAddr(c, c.cqTail), entry);
    ProcessCmdKeeps(w, cmd);
    assert SqAddr(ProcessCmd(w, cmd).ctrl, k) == a by { SameAddress(c, ProcessCmd(w, cmd).ctrl, k); }
  }

  lemma SameAddress(c: Controller, d: Controller, k: nat)
    requires c.asq == d.asq
    ensures SqAddr(c, k) == SqAddr(d, k)
  {}

  lemma SameSize(m: Memory, a: nat, data: seq<byte>)
    ensures |Write(m, a, data).cells| == |m.cells|
  {}

  lemma DataMissesSq(w: World, cmd: Command, a: nat, n: nat)
    requires ClearOfQueues(w, cmd) && w.ctrl.asq <= a && a + n <= w.ctrl.asq + SqSize(w.ctrl.aqa) * CMD_SIZE
    ensures var m := MemoryAfter(w.mem, w.ctrl.storage, cmd);
            Read(m, a, n) == Read(w.mem, a, n) && CanRead(m, a, n) == CanRead(w.mem, a, n) && |m.cells| == |w.mem.cells|
  {
    hide Read, Write, CanRead, CanWrite, IdentifyPage, CqSize, SqSize, Command.Prp1, Command.Lba, Command.Nlb;
    if cmd.opcode == IDENTIFY {
      ReadElsewhere(w.mem, cmd.Prp1(), IdentifyPage(), a, n);
      WriteKeepsAccess(w.mem, cmd.Prp1(), IdentifyPage(), a, n);
      SameSize(w.mem, cmd.Prp1(), IdentifyPage());
    } else if cmd.opcode == READ && cmd.Accepted() && cmd.InStore() {
      var data := InStoreBytes(w.ctrl.storage, cmd);
      ReadElsewhere(w.mem, cmd.Prp1(), data, a, n);
      WriteKeepsAccess(w.mem, cmd.Prp1(), data, a, n);
      SameSize(w.mem, cmd.Prp1(), data);
    }
  }

  /** What a turn leaves of the submission side. */
  lemma TurnKeepsSlots(w: World, k: nat)
    requires SqMapped(w.ctrl, w.mem) && CqMapped(w.ctrl, w.mem) && w.ctrl.cqTail < CqSize(w.ctrl.aqa)
    requires ClearOfQueues(w, Fetched(w)) && k < Slots(w)
    ensures var v := Turn(w);
            && SqCmd(v, k) == SqCmd(w, k) && SqMapped(v.ctrl, v.mem)
            && v.ctrl.aqa == w.ctrl.aqa && v.ctrl.asq == w.ctrl.asq && v.ctrl.acq == w.ctrl.acq && v.ctrl.sqTail == w.ctrl.sqTail
            && v.ctrl.sqHead == NextHead(w.ctrl.sqHead, SqSize(w.ctrl.aqa))
  {
    hide Read, DecodeCommand, ProcessCmd, CqSize, SqSize, ClearOfQueues, Fetched, NextHead, CanRead;
    CommandKeepsSlot(w, Fetched(w), k);
    ProcessCmdKeeps(w, Fetched(w));
  }

  lemma FetchesHead(w: World)
    ensures Fetched(w) == SqCmd(w, w.ctrl.sqHead)
  {
    hide Read, DecodeCommand, SqAddr;
  }

  lemma SameClear(w: World, v: World, cmd: Command)
    requires w.ctrl.aqa == v.ctrl.aqa && w.ctrl.asq == v.ctrl.asq && w.ctrl.acq == v.ctrl.acq
    ensures ClearOfQueues(w, cmd) == ClearOfQueues(v, cmd)
  {
    hide SqSize, CqSize, Command.Prp1, Command.Bytes;
  }

  lemma TurnKeepsWaiting(p: Pair)
    requires HeadInStep(p) && Waiting(p) && |p.s.w.log| < |p.posted|
    requires CqMapped(p.s.w.ctrl, p.s.w.mem) && p.s.w.ctrl.cqTail < CqSize(p.s.w.ctrl.aqa)
    ensures var q := p.(s := p.s.(w := Turn(p.s.w)));
            |q.s.w.log| == |p.s.w.log| + 1 && Slots(q.s.w) == Slots(p.s.w) && HeadInStep(q) && Waiting(q)
  {
    hide Slots, SqCmd, SqMapped, CqMapped, ClearOfQueues, SqSize, CqSize, Turn, Fetched, NextHead, Answers;
    var w, n, size := p.s.w, |p.s.w.log|, Slots(p.s.w);
    FetchesHead(w);
    assert SqCmd(w, n % size) == p.posted[n];
    TurnLogs(w);
    NextMod(n, size);
    StepOfHead(n % size, size);
    TurnKeepsSlots(w, 0);
    var q := p.(s := p.s.(w := Turn(w)));
    forall i: nat | n + 1 <= i < |p.posted|
      ensures SqCmd(q.s.w, i % size) == p.posted[i] && ClearOfQueues(q.s.w, p.posted[i])
    {
      TurnKeepsSlots(w, i % size);
      SameClear(w, q.s.w, p.posted[i]);
    }
  }

  /** A turn with a command waiting and room for its completion: it is the next posted one. */
  lemma TurnKeepsPair(p: Pair)
    requires PairInv(p) && |p.s.w.log| < |p.posted| && |p.s.w.log| < p.s.taken + Size(p.s)
    ensures var q := p.(s := p.s.(w := Turn(p.s.w)));
            PairInv(q) && |q.s.w.log| == |p.s.w.log| + 1 && Size(q.s) == Size(p.s)
            && q.s.w.ctrl.sqTail == p.s.w.ctrl.sqTail && Slots(q.s.w) == Slots(p.s.w)
  {
    hide Slots, Inv, SqCmd, SqMapped, ClearOfQueues, ClearOfCq, SqSize, CqSize, Turn, Fetched, NextHead, Answers;
    var w, n := p.s.w, |p.s.w.log|;
    ConsumerSide(p.s);
    TurnKeepsWaiting(p);
    FetchesHead(w);
    assert SqCmd(w, n % Slots(w)) == p.posted[n];
    ClearImplies(w, p.posted[n]);
    TurnIsHandle(p.s);
    HandleKeeps(p.s, Fetched(w), NextHead(w.ctrl.sqHead, SqSize(w.ctrl.aqa)), w.ctrl.sqTail);
    TurnKeepsSlots(w, 0);
    TurnLogs(w);
    AnswersNamed(w, Turn(w).log[n]);
  }

  lemma ClearImplies(w: World, cmd: Command)
    requires ClearOfQueues(w, cmd)
    ensures ClearOfCq(w, cmd)
  {}

  lemma AnswersNamed(w: World, d: Done)
    requires Answers(d, w)
    ensures d.cmd == Fetched(w) && d.cqe.cid == d.cmd.cid
  {}

  lemma ConsumerSide(s: System)
    requires Inv(s)
    ensures CqMapped(s.w.ctrl, s.w.mem) && s.w.ctrl.cqTail < CqSize(s.w.ctrl.aqa)
    ensures s.taken <= |s.w.log| <= s.taken + Size(s)
  {
    hide CqMapped, CqSize, LapPhase;
  }

  lemma {:induction false} AdvanceKeepsPair(p: Pair, n: nat)
    requires PairInv(p) && |p.s.w.log| + n <= |p.posted| && |p.s.w.log| + n <= p.s.taken + Size(p.s)
    ensures var q := p.(s := p.s.(w := Advance(p.s.w, n)));
            PairInv(q) && |q.s.w.log| == |p.s.w.log| + n && q.s.w.ctrl.sqTail == p.s.w.ctrl.sqTail && Slots(q.s.w) == Slots(p.s.w)
    decreases n
  {
    hide PairInv, Turn, SqSize, CqSize;
    if n > 0 {
      TurnKeepsPair(p);
      AdvanceKeepsPair(p.(s := p.s.(w := Turn(p.s.w))), n - 1);
    }
  }

  // ---------- Host actions ----------

  /** The doorbell for the first count commands runs those of them not run before, and stops. */
  lemma DoorbellKeeps(p: Pair, count: nat)
    requires PairInv(p) && Permitted(p, Doorbell(count))
    ensures Room(p)
    ensures var q := Act(p, Doorbell(count));
            PairInv(q) && Idle(q) && |q.s.w.log| == count
  {
    hide Slots, Size, Inv, SqCmd, SqMapped, ClearOfQueues, SqSize, CqSize, Advance, Entry;
    var w, n, size := p.s.w, |p.s.w.log|, Slots(p.s.w);
    var w' := w.(ctrl := w.ctrl.(sqTail := count % size));
    var start := p.(s := p.s.(w := w'));
    RetailKeeps(p, count % size);
    LapBetween(n, count, size);
    TurnsBetween(n % size, count % size, size);
    AdvanceKeepsPair(start, count - n);
  }

  /** The turns a doorbell makes are the steps from head to tail round the ring. */
  lemma TurnsBetween(head: nat, tail: nat, size: nat)
    requires head < size && tail < size
    ensures TurnsTo(head, tail, size) == if head <= tail then tail - head else tail + size - head
  {}

  lemma RetailKeeps(p: Pair, tail: nat)
    requires PairInv(p)
    ensures PairInv(p.(s := p.s.(w := p.s.w.(ctrl := p.s.w.ctrl.(sqTail := tail)))))
  {
    hide Slots, SqMapped, CqMapped, ClearOfQueues, SqSize, CqSize, Entry, Read, DecodeCommand, SqCmd, LapPhase;
    var w := p.s.w;
    var v := w.(ctrl := w.ctrl.(sqTail := tail));
    var q := p.(s := p.s.(w := v));
    RetailSame(w, tail);
    forall i: nat | |w.log| <= i < |p.posted|
      ensures SqCmd(v, i % Slots(v)) == p.posted[i] && ClearOfQueues(v, p.posted[i])
    {
      SameSlot(w, v, i % Slots(v));
      SameClear(w, v, p.posted[i]);
    }
    forall k: nat
      ensures Entry(v, k) == Entry(w, k)
    {
      SameEntry(w, v, k);
    }
    forall i: nat | i < |w.log|
      ensures Phased(q.s, i) == Phased(p.s, i)
    {}
  }

  lemma SameSlot(w: World, v: World, k: nat)
    requires w.mem == v.mem && w.ctrl.asq == v.ctrl.asq
    ensures SqCmd(w, k) == SqCmd(v, k)
  {
    hide Read, DecodeCommand;
  }

  lemma RetailSame(w: World, tail: nat)
    ensures var v := w.(ctrl := w.ctrl.(sqTail := tail));
            SqMapped(v.ctrl, v.mem) == SqMapped(w.ctrl, w.mem) && CqMapped(v.ctrl, v.mem) == CqMapped(w.ctrl, w.mem)
  {
    hide SqSize, CqSize, CanRead, CanWrite;
  }

  /** A post fills its own slot, no other, and nothing of the completion queue. */
  lemma SlotsAfterPost(p: Pair, cmd: Command, k: nat)
    requires HeadInStep(p) && CqMapped(p.s.w.ctrl, p.s.w.mem) && k < Slots(p.s.w)
    ensures Room(p)
    ensures var v := Act(p, Post(cmd)).s.w;
            && SqCmd(v, k) == (if k == |p.posted| % Slots(p.s.w) then cmd else SqCmd(p.s.w, k))
            && SqMapped(v.ctrl, v.mem) && CqMapped(v.ctrl, v.mem)
  {
    hide Slots, Read, DecodeCommand, EncodeCommand, Store, CanRead, CanWrite, SqSize, CqSize, SqAddr;
    var w, h := p.s.w, |p.posted| % Slots(p.s.w);
    var c, a, bytes := w.ctrl, SqAddr(w.ctrl, h), EncodeCommand(cmd);
    SlotInside(c, w.mem, h);
    SlotInside(c, w.mem, k);
    StoreKeepsAccess(w.mem, a, bytes, c.asq, SqSize(c.aqa) * CMD_SIZE);
    StoreKeepsAccess(w.mem, a, bytes, c.acq, CqSize(c.aqa) * CQE_SIZE);
    if k == h {
      ReadStored(w.mem, a, bytes);
      DecodeEncodeCommand(cmd);
    } else {
      assert Disjoint(c.asq + h * CMD_SIZE, CMD_SIZE, c.asq + k * CMD_SIZE, CMD_SIZE);
      ReadBesideStore(w.mem, a, bytes, SqAddr(c, k), CMD_SIZE);
    }
  }

  lemma EntriesAfterPost(p: Pair, cmd: Command)
    requires HeadInStep(p) && CqMapped(p.s.w.ctrl, p.s.w.mem)
    ensures Room(p) && SameEntries(p.s.w, Act(p, Post(cmd)).s.w)
  {
    hide Read, EncodeCommand, Store, CanRead, CanWrite, SqSize, CqSize, SqAddr, CqAddr;
    var w, h := p.s.w, |p.posted| % Slots(p.s.w);
    SlotInside(w.ctrl, w.mem, h);
    forall k: nat | k < CqSize(w.ctrl.aqa)
      ensures Entry(Act(p, Post(cmd)).s.w, k) == Entry(w, k)
    {
      CqSlot(w.ctrl, w.mem, k);
      ReadBesideStore(w.mem, SqAddr(w.ctrl, h), EncodeCommand(cmd), CqAddr(w.ctrl, k), CQE_SIZE);
    }
  }

  lemma PostKeeps(p: Pair, cmd: Command)
    requires PairInv(p) && Idle(p) && Permitted(p, Post(cmd))
    ensures Room(p) && PairInv(Act(p, Post(cmd))) && Idle(Act(p, Post(cmd)))
    ensures |Act(p, Post(cmd)).s.w.log| == |p.s.w.log|
  {
    hide Slots, Inv, SqCmd, SqMapped, CqMapped, ClearOfQueues, SqSize, CqSize, SameEntries, EncodeCommand, Store, SqAddr;
    ConsumerSide(p.s);
    var w, n, m, size := p.s.w, |p.s.w.log|, |p.posted|, Slots(p.s.w);
    var q := Act(p, Post(cmd));
    SlotsAfterPost(p, cmd, 0);
    EntriesAfterPost(p, cmd);
    ChangeKeeps(p.s, q.s.w.mem);
    forall i: nat | n <= i < m + 1
      ensures SqCmd(q.s.w, i % size) == q.posted[i] && ClearOfQueues(q.s.w, q.posted[i])
    {
      SlotsAfterPost(p, cmd, i % size);
      SameClear(w, q.s.w, q.posted[i]);
      if i < m {
        ModDistinct(i, m, size);
      }
    }
  }

  lemma LookKeeps(p: Pair)
    requires PairInv(p) && Idle(p)
    ensures Room(p) && PairInv(Act(p, Look)) && Idle(Act(p, Look))
    ensures |Act(p, Look).s.w.log| == |p.s.w.log|
  {
    hide Inv, SqCmd, SqMapped, ClearOfQueues, SqSize, CqSize, Fresh;
    PollKeeps(p.s);
  }

  lemma ElsewhereKeeps(p: Pair, mem: Memory)
    requires PairInv(p) && Idle(p) && Permitted(p, Elsewhere(mem))
    ensures Room(p) && PairInv(Act(p, Elsewhere(mem))) && Idle(Act(p, Elsewhere(mem)))
    ensures |Act(p, Elsewhere(mem)).s.w.log| == |p.s.w.log|
  {
    hide Inv, SqCmd, SqMapped, ClearOfQueues, SqSize, CqSize, Allowed;
    ChangeKeeps(p.s, mem);
    var w, q := p.s.w, Act(p, Elsewhere(mem));
    forall i: nat | |w.log| <= i < |p.posted|
      ensures SqCmd(q.s.w, i % Slots(w)) == p.posted[i] && ClearOfQueues(q.s.w, p.posted[i])
    {
      SameClear(w, q.s.w, p.posted[i]);
    }
  }

  // ---------- Runs ----------

  ghost predicate PermittedRun(p: Pair, acts: seq<Action>)
    decreases |acts|
  {
    acts == [] || (Room(p) && Permitted(p, acts[0]) && PermittedRun(Act(p, acts[0]), acts[1..]))
  }

  ghost function After(p: Pair, acts: seq<Action>): Pair
    requires PermittedRun(p, acts)
    decreases |acts|
  {
    if acts == [] then p else After(Act(p, acts[0]), acts[1..])
  }

  /** The number of commands the last doorbell of the run announced. */
  function Announced(acts: seq<Action>, before: nat): nat {
    if acts == [] then before
    else if acts[|acts| - 1].Doorbell? then acts[|acts| - 1].count
    else Announced(acts[..|acts| - 1], before)
  }

  lemma {:induction false} AnnouncedFirst(acts: seq<Action>, before: nat)
    requires acts != []
    ensures Announced(acts, before) == Announced(acts[1..], if acts[0].Doorbell? then acts[0].count else before)
  {
    if |acts| > 1 && !acts[|acts| - 1].Doorbell? {
      var init := acts[..|acts| - 1];
      AnnouncedFirst(init, before);
      assert init[1..] == acts[1..][..|acts[1..]| - 1];
    }
  }

  lemma {:induction false} RunKeepsPair(p: Pair, acts: seq<Action>)
    requires PairInv(p) && Idle(p) && PermittedRun(p, acts)
    ensures var q := After(p, acts);
            PairInv(q) && Idle(q) && |q.s.w.log| == Announced(acts, |p.s.w.log|)
    decreases |acts|
  {
    hide PairInv, Idle, Act, Permitted, Room;
    if acts != [] {
      match acts[0] {
        case Post(cmd) => PostKeeps(p, cmd);
        case Doorbell(count) => DoorbellKeeps(p, count);
        case Look => LookKeeps(p);
        case Elsewhere(mem) => ElsewhereKeeps(p, mem);
      }
      RunKeepsPair(Act(p, acts[0]), acts[1..]);
      AnnouncedFirst(acts, |p.s.w.log|);
    }
  }

  /** From enable on, in every run of posts, doorbells and looks that keeps to the queue sizes, with
      any number of commands outstanding and AQA % 4096 + 1 submission slots beside AQA / 65536 + 1
      completion slots: the commands announced have been run, in posting order and each once; what
      the host has taken are their completions in that order, each with the identifier of its own
      command; and the phase bit says exactly whether another is there. */
  lemma EveryPostAnsweredOnce(w: World, acts: seq<Action>)
    requires Started(w) && SqMapped(w.ctrl, w.mem) && w.ctrl.sqHead == w.ctrl.sqTail == 0
    requires PermittedRun(Pair(System(w, 0, []), []), acts)
    ensures var q := After(Pair(System(w, 0, []), []), acts);
            var n := Announced(acts, 0);
            && |q.s.w.log| == n <= |q.posted| && q.s.taken == |q.s.seen| <= n
            && (forall i: nat | i < n :: q.s.w.log[i].cmd == q.posted[i])
            && (forall i: nat | i < q.s.taken :: |q.s.seen[i]| == CQE_SIZE && CidOf(q.s.seen[i]) == q.posted[i].cid)
            && (Fresh(q.s) <==> q.s.taken < n)
            && (Fresh(q.s) ==> CidOf(AtHead(q.s)) == q.posted[q.s.taken].cid)
  {
    hide PermittedRun, After, Entry, CqMapped, SqMapped, Fresh, AtHead, CqSize, SqSize, LapPhase, CidOf, EncodeCqe, Announced;
    var p := Pair(System(w, 0, []), []);
    StartsInv(w);
    AnnouncedNone();
    SmallMod(0, Slots(w));
    assert PairInv(p);
    RunKeepsPair(p, acts);
    var q := After(p, acts);
    FreshExactly(q.s);
    forall i: nat | i < q.s.taken
      ensures |q.s.seen[i]| == CQE_SIZE && CidOf(q.s.seen[i]) == q.posted[i].cid
    {
      CqeFields(q.s.w.log[i].cqe);
    }
    if Fresh(q.s) {
      CqeFields(q.s.w.log[q.s.taken].cqe);
    }
  }

  lemma StartsInv(w: World)
    requires Started(w)
    ensures Inv(System(w, 0, [])) && w.log == []
  {
    hide Entry, CqMapped, CqSize, LapPhase;
    SmallMod(0, CqSize(w.ctrl.aqa));
    FirstLaps(0, CqSize(w.ctrl.aqa));
  }

  lemma AnnouncedNone()
    ensures forall before: nat :: Announced([], before) == before
  {}
}
