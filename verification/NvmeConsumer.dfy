/** A consumer of the completion queue that looks at nothing but the phase bit at its own head:
    it takes every completion, once, in order. */
module NvmeConsumer {
  import opened Bytes
  import opened Modular
  import opened GuestMemory
  import opened NvmeDevice
  import opened NvmeQueues

  /** The phase bit of a status halfword, where the program puts it. */
  function PhaseOf(status: bv16): byte {
    if status & 0x100 != 0 then 1 else 0
  }

  lemma PhaseShows(m: Memory, cmd: Command, phase: byte)
    requires phase == 0 || phase == 1
    ensures PhaseOf(WithPhase(StatusCode(m, cmd), phase)) == phase
  {
    StatusCodes(m, cmd);
    PhaseOverCode(StatusCode(m, cmd), phase);
    hide StatusCode, WithPhase, PhaseOf;
  }

  lemma StatusCodes(m: Memory, cmd: Command)
    ensures StatusCode(m, cmd) in {OK, BAD_OPCODE, BAD_LBA, BAD_TRANSFER}
  {}

  lemma PhaseOverCode(code: bv16, phase: byte)
    requires code in {OK, BAD_OPCODE, BAD_LBA, BAD_TRANSFER} && (phase == 0 || phase == 1)
    ensures PhaseOf(WithPhase(code, phase)) == phase
  {}

  /** The completion queue lies in granted memory. */
  ghost predicate CqMapped(c: Controller, m: Memory) {
    var n := CqSize(c.aqa) * CQE_SIZE;
    && CqSize(c.aqa) < TWO_TO_THE_16
    && c.acq + n <= TWO_TO_THE_64 && CanRead(m, c.acq, n) && CanWrite(m, c.acq, n)
  }

  /** The bytes in slot k of the completion queue. */
  function Entry(w: World, k: nat): (s: seq<byte>)
    ensures |s| == CQE_SIZE
  {
    Read(w.mem, CqAddr(w.ctrl, k), CQE_SIZE)
  }

  /** The data a command moves into guest memory stays clear of the completion queue. */
  predicate ClearOfCq(w: World, cmd: Command) {
    var n := CqSize(w.ctrl.aqa) * CQE_SIZE;
    && (cmd.opcode == IDENTIFY ==> Disjoint(cmd.Prp1(), 4096, w.ctrl.acq, n))
    && (cmd.opcode == READ ==> Disjoint(cmd.Prp1(), cmd.Bytes(), w.ctrl.acq, n))
  }

  lemma CqSlot(c: Controller, m: Memory, k: nat)
    requires CqMapped(c, m) && k < CqSize(c.aqa)
    ensures CqAddr(c, k) == c.acq + k * CQE_SIZE && c.acq <= CqAddr(c, k)
    ensures CqAddr(c, k) + CQE_SIZE <= c.acq + CqSize(c.aqa) * CQE_SIZE
    ensures CanRead(m, CqAddr(c, k), CQE_SIZE) && CanWrite(m, CqAddr(c, k), CQE_SIZE)
  {
    hide CqSize;
    assert (k + 1) * CQE_SIZE <= CqSize(c.aqa) * CQE_SIZE;
    SmallMod(c.acq + k * CQE_SIZE, TWO_TO_THE_64);
  }

  lemma CqSlotsApart(c: Controller, j: nat, k: nat)
    requires j != k
    ensures Disjoint(c.acq + j * CQE_SIZE, CQE_SIZE, c.acq + k * CQE_SIZE, CQE_SIZE)
  {}

  /** A command leaves its completion in the slot at the tail, and every other slot as it was. */
  lemma EntriesAfter(w: World, cmd: Command, k: nat)
    requires CqMapped(w.ctrl, w.mem) && w.ctrl.cqTail < CqSize(w.ctrl.aqa) && k < CqSize(w.ctrl.aqa) && ClearOfCq(w, cmd)
    ensures var v := ProcessCmd(w, cmd);
            && Entry(v, k) == (if k == w.ctrl.cqTail then EncodeCqe(Completion(w, cmd)) else Entry(w, k))
            && CqMapped(v.ctrl, v.mem)
  {
    hide Read, Write, CanRead, CanWrite, EncodeCqe, Completion, StorageAfter, CqSize, IdentifyPage, NextTail, NextPhase;
    var c, t := w.ctrl, w.ctrl.cqTail;
    var n := CqSize(c.aqa) * CQE_SIZE;
    var m := MemoryAfter(w.mem, c.storage, cmd);
    CqSlot(c, w.mem, t);
    CqSlot(c, w.mem, k);
    DataElsewhere(w, cmd, CqAddr(c, k), CQE_SIZE);
    DataElsewhere(w, cmd, CqAddr(c, t), CQE_SIZE);
    DataElsewhere(w, cmd, c.acq, n);
    WriteKeepsAccess(m, CqAddr(c, t), EncodeCqe(Completion(w, cmd)), c.acq, n);
    if k == t {
      ReadBack(m, CqAddr(c, t), EncodeCqe(Completion(w, cmd)));
    } else {
      CqSlotsApart(c, t, k);
      ReadElsewhere(m, CqAddr(c, t), EncodeCqe(Completion(w, cmd)), CqAddr(c, k), CQE_SIZE);
    }
  }

  lemma DataElsewhere(w: World, cmd: Command, a: nat, n: nat)
    requires ClearOfCq(w, cmd) && w.ctrl.acq <= a && a + n <= w.ctrl.acq + CqSize(w.ctrl.aqa) * CQE_SIZE
    ensures var m := MemoryAfter(w.mem, w.ctrl.storage, cmd);
            Read(m, a, n) == Read(w.mem, a, n) && CanRead(m, a, n) == CanRead(w.mem, a, n) && CanWrite(m, a, n) == CanWrite(w.mem, a, n)
  {
    hide Read, Write, CanRead, CanWrite, IdentifyPage, CqSize, Command.Prp1, Command.Lba, Command.Nlb;
    if cmd.opcode == IDENTIFY {
      ReadElsewhere(w.mem, cmd.Prp1(), IdentifyPage(), a, n);
      WriteKeepsAccess(w.mem, cmd.Prp1(), IdentifyPage(), a, n);
    } else if cmd.opcode == READ && cmd.Accepted() && cmd.InStore() {
      var data := InStoreBytes(w.ctrl.storage, cmd);
      ReadElsewhere(w.mem, cmd.Prp1(), data, a, n);
      WriteKeepsAccess(w.mem, cmd.Prp1(), data, a, n);
    }
  }

  // ---------- Device and consumer ----------

  /** The device with a consumer: how many completions it has taken, and what it saw. */
  datatype System = System(w: World, taken: nat, seen: seq<seq<byte>>)

  /** The device processes a command, whatever becomes of its submission indices (a turn of the
      submission loop is one such step), memory changes other than in the completion queue (the
      host posting commands, or anything else), or the consumer looks at its head slot. */
  datatype Event = Handle(cmd: Command, head: nat, tail: nat) | Change(mem: Memory) | Poll

  /** The number of completion slots, from AQA as a number. */
  function Size(s: System): (n: nat)
    ensures n > 0 && n == CqSize(s.w.ctrl.aqa)
  {
    QueueSizes(s.w.ctrl.aqa);
    s.w.ctrl.aqa as nat / 65536 + 1
  }

  ghost predicate Allowed(s: System, e: Event) {
    match e
    case Handle(cmd, _, _) => |s.w.log| < s.taken + Size(s) && ClearOfCq(s.w, cmd)
    case Change(mem) => CqMapped(s.w.ctrl, mem) && SameEntries(s.w, s.w.(mem := mem))
    case Poll => true
  }

  ghost predicate SameEntries(w: World, v: World) {
    forall k: nat | k < CqSize(w.ctrl.aqa) :: Entry(v, k) == Entry(w, k)
  }

  function AtHead(s: System): (entry: seq<byte>)
    ensures |entry| == CQE_SIZE
  {
    Entry(s.w, s.taken % Size(s))
  }

  /** The phase bit at the head is the one the consumer's own lap calls for. */
  predicate Fresh(s: System) {
    PhaseOf(StatusOf(AtHead(s))) == LapPhase(s.taken, Size(s))
  }

  function Apply(s: System, e: Event): System {
    match e
    case Handle(cmd, head, tail) =>
      var v := ProcessCmd(s.w, cmd);
      s.(w := v.(ctrl := v.ctrl.(sqHead := head, sqTail := tail)))
    case Change(mem) => s.(w := s.w.(mem := mem))
    case Poll => if Fresh(s) then s.(taken := s.taken + 1, seen := s.seen + [AtHead(s)]) else s
  }

  ghost predicate Counters(s: System) {
    var c, n, size := s.w.ctrl, |s.w.log|, Size(s);
    && CqMapped(c, s.w.mem) && s.taken <= n <= s.taken + size
    && c.cqTail == n % size && c.phase == LapPhase(n, size)
  }

  /** Completion i carries the phase of its lap. */
  predicate Phased(s: System, i: nat)
    requires i < |s.w.log|
  {
    PhaseOf(s.w.log[i].cqe.status) == LapPhase(i, Size(s))
  }

  /** The last lap of completions stands in the slots. */
  ghost predicate Standing(s: System) {
    var n, size := |s.w.log|, Size(s);
    forall i: nat | i < n && n <= i + size :: Entry(s.w, i % size) == EncodeCqe(s.w.log[i].cqe) && Phased(s, i)
  }

  /** Slots not reached yet are still zero. */
  ghost predicate Untouched(s: System) {
    forall k: nat | |s.w.log| <= k < Size(s) :: Entry(s.w, k) == seq(CQE_SIZE, _ => 0)
  }

  ghost predicate Taken(s: System) {
    |s.seen| == s.taken <= |s.w.log| && forall i: nat | i < s.taken :: s.seen[i] == EncodeCqe(s.w.log[i].cqe)
  }

  ghost predicate Inv(s: System) {
    Counters(s) && Standing(s) && Untouched(s) && Taken(s)
  }

  lemma LapPhases(n: nat, size: nat)
    requires size > 0
    ensures LapPhase(n, size) == 0 || LapPhase(n, size) == 1
    ensures LapPhase(n + size, size) == Flip(LapPhase(n, size)) != LapPhase(n, size)
  {
    var q, r := n / size, n % size;
    NextMultiple(q, size);
    QuotientUnique(q + 1, r, (n + size) / size, (n + size) % size, size);
    Alternates(q);
  }

  /** The phase bit tells the consumer exactly whether a new completion stands at its head, and
      that completion is the next one. */
  lemma FreshExactly(s: System)
    requires Inv(s)
    ensures Fresh(s) <==> s.taken < |s.w.log|
    ensures Fresh(s) ==> AtHead(s) == EncodeCqe(s.w.log[s.taken].cqe)
  {
    hide Entry, EncodeCqe, CqMapped, LapPhase, StatusOf, PhaseOf, CqSize;
    var n, size, t := |s.w.log|, Size(s), s.taken;
    if t < n {
      CqeFields(s.w.log[t].cqe);
      assert Phased(s, t);
    } else if n < size {
      SmallMod(t, size);
      ZeroEntry();
      FirstLaps(t, size);
    } else {
      var i := n - size;
      AddSize(i, size);
      LapPhases(i, size);
      CqeFields(s.w.log[i].cqe);
      assert Phased(s, i);
    }
  }

  lemma ZeroEntry()
    ensures PhaseOf(StatusOf(seq(CQE_SIZE, _ => 0))) == 0
  {
    var z := seq(CQE_SIZE, _ => 0);
    assert z[14..16] == [0, 0];
  }

  lemma FirstLaps(n: nat, size: nat)
    requires n < size
    ensures LapPhase(n, size) == 1
  {
    QuotientUnique(0, n, n / size, n % size, size);
  }

  lemma HandleLogs(w: World, cmd: Command)
    requires w.ctrl.cqTail < CqSize(w.ctrl.aqa) < TWO_TO_THE_16
    ensures var v, size := ProcessCmd(w, cmd), CqSize(w.ctrl.aqa);
            && v.log == w.log + [Done(w.ctrl.sqHead, cmd, Completion(w, cmd), Payload(w.mem, cmd))]
            && v.ctrl.aqa == w.ctrl.aqa && v.ctrl.acq == w.ctrl.acq
            && v.ctrl.cqTail == (if w.ctrl.cqTail + 1 == size then 0 else w.ctrl.cqTail + 1)
            && v.ctrl.phase == (if w.ctrl.cqTail + 1 == size then Flip(w.ctrl.phase) else w.ctrl.phase)
  {
    hide StorageAfter, MemoryAfter, Payload, Completion, EncodeCqe, CqSize, Strays, Flip, NextPhase, NextTail;
    StepOfTail(w.ctrl.cqTail, CqSize(w.ctrl.aqa));
    NoWrap(w.ctrl.cqTail, w.ctrl.phase, CqSize(w.ctrl.aqa));
  }

  /** What handling a command does to the log and the slots. */
  lemma HandleEntries(s: System, cmd: Command, head: nat, tail: nat)
    requires Counters(s) && ClearOfCq(s.w, cmd)
    ensures var t, n, size := Apply(s, Handle(cmd, head, tail)), |s.w.log|, Size(s);
            && Size(t) == size && CqMapped(t.w.ctrl, t.w.mem)
            && |t.w.log| == n + 1 && s.w.log <= t.w.log && t.w.log[n].cqe == Completion(s.w, cmd)
            && forall k: nat | k < size :: Entry(t.w, k) == if k == n % size then EncodeCqe(Completion(s.w, cmd)) else Entry(s.w, k)
  {
    hide Entry, EncodeCqe, CqMapped, LapPhase, Completion, Payload, ProcessCmd, CqSize, ClearOfCq, Flip;
    var n, size, w := |s.w.log|, Size(s), s.w;
    var t := Apply(s, Handle(cmd, head, tail));
    CqMappedSize(w.ctrl, w.mem);
    HandleLogs(w, cmd);
    EntriesAfter(w, cmd, 0);
    SameEntry(ProcessCmd(w, cmd), t.w, 0);
    forall k: nat | k < size
      ensures Entry(t.w, k) == if k == n % size then EncodeCqe(Completion(w, cmd)) else Entry(w, k)
    {
      EntriesAfter(w, cmd, k);
      SameEntry(ProcessCmd(w, cmd), t.w, k);
    }
  }

  lemma HandleKeepsStanding(s: System, cmd: Command, head: nat, tail: nat)
    requires Counters(s) && Standing(s) && ClearOfCq(s.w, cmd)
    ensures Standing(Apply(s, Handle(cmd, head, tail)))
  {
    hide Entry, EncodeCqe, CqMapped, LapPhase, Completion, Payload, ProcessCmd, CqSize, ClearOfCq, PhaseOf, Apply;
    var n, size := |s.w.log|, Size(s);
    var t := Apply(s, Handle(cmd, head, tail));
    HandleEntries(s, cmd, head, tail);
    LapPhases(n, size);
    PhaseShows(s.w.mem, cmd, s.w.ctrl.phase);
    CompletionStatus(s.w, cmd);
    forall i: nat | i < n + 1 && n + 1 <= i + size
      ensures Entry(t.w, i % size) == EncodeCqe(t.w.log[i].cqe) && Phased(t, i)
    {
      if i < n {
        ModDistinct(i, n, size);
        assert Phased(s, i);
      }
    }
  }

  lemma HandleKeepsUntouched(s: System, cmd: Command, head: nat, tail: nat)
    requires Counters(s) && Untouched(s) && ClearOfCq(s.w, cmd)
    ensures Untouched(Apply(s, Handle(cmd, head, tail)))
  {
    hide Entry, EncodeCqe, CqMapped, LapPhase, Completion, Payload, CqSize, ClearOfCq, Apply;
    var n, size := |s.w.log|, Size(s);
    var t := Apply(s, Handle(cmd, head, tail));
    HandleEntries(s, cmd, head, tail);
    forall k: nat | n + 1 <= k < size
      ensures Entry(t.w, k) == seq(CQE_SIZE, _ => 0)
    {
      SmallMod(n, size);
    }
  }

  lemma HandleKeepsCounters(s: System, cmd: Command, head: nat, tail: nat)
    requires Counters(s) && Allowed(s, Handle(cmd, head, tail))
    ensures Counters(Apply(s, Handle(cmd, head, tail)))
  {
    hide Entry, EncodeCqe, CqMapped, LapPhase, Completion, Payload, ProcessCmd, CqSize, ClearOfCq, Flip;
    var n, size, w := |s.w.log|, Size(s), s.w;
    CqMappedSize(w.ctrl, w.mem);
    HandleLogs(w, cmd);
    HandleEntries(s, cmd, head, tail);
    NextMod(n, size);
    LapPhaseFlips(n, size);
  }

  lemma HandleKeeps(s: System, cmd: Command, head: nat, tail: nat)
    requires Inv(s) && Allowed(s, Handle(cmd, head, tail))
    ensures Inv(Apply(s, Handle(cmd, head, tail)))
  {
    hide Counters, Standing, Untouched, Entry, EncodeCqe, Completion, ProcessCmd, CqSize, ClearOfCq;
    HandleKeepsCounters(s, cmd, head, tail);
    HandleKeepsStanding(s, cmd, head, tail);
    HandleKeepsUntouched(s, cmd, head, tail);
    HandleEntries(s, cmd, head, tail);
    HandleHost(s, cmd, head, tail);
  }

  lemma HandleHost(s: System, cmd: Command, head: nat, tail: nat)
    ensures var t := Apply(s, Handle(cmd, head, tail)); t.taken == s.taken && t.seen == s.seen
  {
    hide ProcessCmd;
  }

  /** The bound on unread completions is needed: one more on top of a full queue overwrites the
      oldest unread one, and its phase bit makes the consumer see nothing at all. */
  lemma OverrunBlinds(s: System, cmd: Command, head: nat, tail: nat)
    requires Inv(s) && |s.w.log| == s.taken + Size(s) && ClearOfCq(s.w, cmd)
    ensures var t := Apply(s, Handle(cmd, head, tail));
            && t.taken < |t.w.log| && !Fresh(t)
            && AtHead(t) == EncodeCqe(t.w.log[t.taken + Size(t)].cqe)
  {
    hide Entry, EncodeCqe, CqMapped, LapPhase, Completion, Payload, ProcessCmd, CqSize, ClearOfCq, PhaseOf, StatusOf;
    var n, size, w := |s.w.log|, Size(s), s.w;
    var t := Apply(s, Handle(cmd, head, tail));
    CqMappedSize(w.ctrl, w.mem);
    HandleLogs(w, cmd);
    AddSize(s.taken, size);
    LapPhases(s.taken, size);
    EntriesAfter(w, cmd, n % size);
    SameEntry(ProcessCmd(w, cmd), t.w, n % size);
    CompletionStatus(w, cmd);
    LapPhases(n, size);
    PhaseShows(w.mem, cmd, w.ctrl.phase);
    CqeFields(Completion(w, cmd));
  }

  lemma CqMappedSize(c: Controller, m: Memory)
    requires CqMapped(c, m)
    ensures CqSize(c.aqa) < TWO_TO_THE_16
  {}

  lemma CompletionStatus(w: World, cmd: Command)
    ensures Completion(w, cmd).status == WithPhase(StatusCode(w.mem, cmd), w.ctrl.phase)
  {}

  lemma SameEntry(w: World, v: World, k: nat)
    requires w.mem == v.mem && w.ctrl.acq == v.ctrl.acq && w.ctrl.aqa == v.ctrl.aqa
    ensures Entry(w, k) == Entry(v, k) && CqMapped(w.ctrl, w.mem) == CqMapped(v.ctrl, v.mem)
  {
    hide Read, CqSize, CanRead, CanWrite;
  }

  lemma ChangeKeeps(s: System, mem: Memory)
    requires Inv(s) && Allowed(s, Change(mem))
    ensures Inv(Apply(s, Change(mem)))
  {
    hide Entry, EncodeCqe, CqMapped, LapPhase, CqSize, PhaseOf;
  }

  lemma PollKeeps(s: System)
    requires Inv(s)
    ensures Inv(Apply(s, Poll))
    ensures Apply(s, Poll).taken == if s.taken < |s.w.log| then s.taken + 1 else s.taken
  {
    hide Entry, EncodeCqe, CqMapped, LapPhase, Fresh, CqSize, Phased;
    FreshExactly(s);
    PhasedSame(s, Apply(s, Poll));
  }

  lemma PhasedSame(s: System, t: System)
    requires s.w == t.w
    ensures forall i: nat | i < |s.w.log| :: Phased(s, i) == Phased(t, i)
  {}

  // ---------- Runs ----------

  ghost predicate AllowedRun(s: System, es: seq<Event>)
    decreases |es|
  {
    es == [] || (Allowed(s, es[0]) && AllowedRun(Apply(s, es[0]), es[1..]))
  }

  ghost function Run(s: System, es: seq<Event>): System
    decreases |es|
  {
    if es == [] then s else Run(Apply(s, es[0]), es[1..])
  }

  lemma {:induction false} RunKeeps(s: System, es: seq<Event>)
    requires Inv(s) && AllowedRun(s, es)
    ensures Inv(Run(s, es))
    decreases |es|
  {
    hide Inv, Apply, Allowed;
    if es != [] {
      match es[0] {
        case Handle(cmd, head, tail) => HandleKeeps(s, cmd, head, tail);
        case Change(mem) => ChangeKeeps(s, mem);
        case Poll => PollKeeps(s);
      }
      RunKeeps(Apply(s, es[0]), es[1..]);
    }
  }

  /** Just enabled, with the completion queue zeroed. */
  ghost predicate Started(w: World) {
    && CqMapped(w.ctrl, w.mem) && w.ctrl.cqTail == 0 && w.ctrl.phase == 1 && w.log == []
    && forall k: nat | k < CqSize(w.ctrl.aqa) :: Entry(w, k) == seq(CQE_SIZE, _ => 0)
  }

  /** From enable on zeroed memory, in every run with at most a queueful unread: what a consumer
      going by the phase bit has taken is exactly the completions so far, in order and each once,
      up to the unread ones; the unread remain visible to it, and nothing else ever looks new. */
  lemma ConsumerSeesEachOnce(w: World, es: seq<Event>)
    requires Started(w) && AllowedRun(System(w, 0, []), es)
    ensures var t := Run(System(w, 0, []), es);
            && |t.seen| == t.taken <= |t.w.log|
            && (forall i: nat | i < t.taken :: t.seen[i] == EncodeCqe(t.w.log[i].cqe))
            && (Fresh(t) <==> t.taken < |t.w.log|)
            && (Fresh(t) ==> AtHead(t) == EncodeCqe(t.w.log[t.taken].cqe))
  {
    hide AllowedRun, Run, Entry, CqMapped, Fresh, AtHead, CqSize, LapPhase;
    var s := System(w, 0, []);
    SmallMod(0, Size(s));
    FirstLaps(0, Size(s));
    assert Inv(s);
    RunKeeps(s, es);
    FreshExactly(Run(s, es));
  }
}
