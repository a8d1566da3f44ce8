/** Host and device sharing a descriptor ring: in every run the ring is a bounded FIFO. */
module RingFifo {
  import opened Bytes
  import opened Modular
  import opened GuestMemory
  import opened RingDevice
  import opened RingRuns

  // ---------- One descriptor, whatever memory holds ----------

  /** The ring lies in memory the device may read and write, without passing the top of the
      address space. */
  ghost predicate Mapped(r: Ring, m: Memory) {
    var n := r.size * DESC_SIZE;
    r.addr + n <= TWO_TO_THE_64 && r.addr + n <= |m.cells| && CanRead(m, r.addr, n) && CanWrite(m, r.addr, n)
  }

  /** The destination of d stays clear of the ring. */
  predicate Clear(r: Ring, d: Descriptor) {
    Disjoint(d.Dst(), d.Len(), r.addr, r.size * DESC_SIZE)
  }

  lemma SlotInRing(r: Ring, m: Memory, k: nat)
    requires Mapped(r, m) && k < r.size
    ensures SlotAddr(r, k) == r.addr + k * DESC_SIZE && StatusAddr(r, k) == r.addr + k * DESC_SIZE + STATUS_OFFSET
    ensures r.addr <= SlotAddr(r, k) && SlotAddr(r, k) + DESC_SIZE <= r.addr + r.size * DESC_SIZE
    ensures CanRead(m, SlotAddr(r, k), DESC_SIZE) && CanWrite(m, SlotAddr(r, k), DESC_SIZE)
  {
    assert (k + 1) * DESC_SIZE <= r.size * DESC_SIZE;
    SmallMod(r.addr + k * DESC_SIZE, TWO_TO_THE_64);
    SmallMod(r.addr + k * DESC_SIZE + STATUS_OFFSET, TWO_TO_THE_64);
  }

  lemma SlotsApart(r: Ring, j: nat, k: nat)
    requires j != k
    ensures Disjoint(r.addr + j * DESC_SIZE, DESC_SIZE, r.addr + k * DESC_SIZE, DESC_SIZE)
  {}

  /** Writing the status word of a slot changes that field of its descriptor and no other. */
  lemma StatusWritten(m: Memory, a: nat, status: bv32)
    requires CanWrite(m, a, DESC_SIZE) && CanRead(m, a, DESC_SIZE)
    ensures var v := Write(m, a + STATUS_OFFSET, Bytes32(status));
            Decode(Read(v, a, DESC_SIZE)) == Decode(Read(m, a, DESC_SIZE)).(status := status)
  {
    hide Write, Value32, Bytes32;
    var v := Write(m, a + STATUS_OFFSET, Bytes32(status));
    var s, t := Read(m, a, DESC_SIZE), Read(v, a, DESC_SIZE);
    assert CanWrite(m, a + STATUS_OFFSET, 4) && CanRead(m, a + STATUS_OFFSET, 4);
    ReadBack(m, a + STATUS_OFFSET, Bytes32(status));
    ReadElsewhere(m, a + STATUS_OFFSET, Bytes32(status), a, STATUS_OFFSET);
    ReadElsewhere(m, a + STATUS_OFFSET, Bytes32(status), a + 28, 4);
    RoundTrip32(status);
    Fields(m, a);
    Fields(v, a);
    hide Read;
    assert Read(m, a, 24) == Read(v, a, 24);
  }

  /** The fields of a descriptor, read as separate pieces. */
  lemma Fields(m: Memory, a: nat)
    ensures var s := Read(m, a, DESC_SIZE);
            && s[..24] == Read(m, a, 24)
            && s[24..28] == Read(m, a + 24, 4)
            && s[28..32] == Read(m, a + 28, 4)
            && s[0..4] == Read(m, a, 24)[0..4] && s[4..8] == Read(m, a, 24)[4..8]
            && s[8..12] == Read(m, a, 24)[8..12] && s[12..16] == Read(m, a, 24)[12..16]
            && s[16..20] == Read(m, a, 24)[16..20] && s[20..24] == Read(m, a, 24)[20..24]
  {
    ReadPart(m, a, DESC_SIZE, a, 24);
    ReadPart(m, a, DESC_SIZE, a + 24, 4);
    ReadPart(m, a, DESC_SIZE, a + 28, 4);
    hide ByteAt;
    var s, t := Read(m, a, DESC_SIZE), Read(m, a, 24);
    assert t == s[..24];
  }

  /** A consumed descriptor leaves its status in its slot, and every other slot as it was. */
  lemma SlotsAfterTurn(w: World, k: nat)
    requires InRange(w.ring) && Mapped(w.ring, w.mem) && k < w.ring.size && !Stalled(w)
    requires Clear(w.ring, SlotDesc(w, w.ring.head))
    ensures var d := SlotDesc(w, w.ring.head);
            SlotDesc(ProcessOne(w), k) == if k == w.ring.head then d.(status := Outcome(w.mem, d)) else SlotDesc(w, k)
  {
    hide Stalled, Decode, Bytes32, Outcome, CanRead, CanWrite, Read, Write, Transferred, ProcessOne, Mapped, Clear;
    var r, h, m := w.ring, w.ring.head, w.mem;
    var d := SlotDesc(w, h);
    var status := Outcome(m, d);
    var t := Transferred(m, d);
    TurnWrites(w);
    SlotInRing(r, m, h);
    SlotInRing(r, m, k);
    TransferClearOfSlot(r, m, d, h);
    TransferClearOfSlot(r, m, d, k);
    if k == h {
      StatusWritten(t, SlotAddr(r, h), status);
    } else {
      SlotsApart(r, h, k);
      ReadElsewhere(t, StatusAddr(r, h), Bytes32(status), SlotAddr(r, k), DESC_SIZE);
    }
  }

  lemma TurnWrites(w: World)
    requires w.ring.size > 0 && !Stalled(w)
    ensures var r, m, v := w.ring, w.mem, ProcessOne(w);
            var d := SlotDesc(w, r.head);
            && v.mem == Write(Transferred(m, d), StatusAddr(r, r.head), Bytes32(Outcome(m, d)))
            && v.ring.addr == r.addr
  {
    hide Stalled, SlotDesc, Outcome, Transferred, Bytes32, Write, StatusAddr;
  }

  lemma TransferClearOfSlot(r: Ring, m: Memory, d: Descriptor, k: nat)
    requires Mapped(r, m) && k < r.size && Clear(r, d)
    ensures var t, a := Transferred(m, d), SlotAddr(r, k);
            && Read(t, a, DESC_SIZE) == Read(m, a, DESC_SIZE)
            && CanRead(t, a, DESC_SIZE) && CanWrite(t, a, DESC_SIZE)
  {
    hide Transferred, Read, CanRead, CanWrite, Mapped, SlotAddr;
    SlotInRing(r, m, k);
    TransferElsewhere(m, d, SlotAddr(r, k), DESC_SIZE);
  }

  lemma TransferElsewhere(m: Memory, d: Descriptor, a: nat, n: nat)
    requires Disjoint(d.Dst(), d.Len(), a, n)
    ensures var t := Transferred(m, d);
            Read(t, a, n) == Read(m, a, n) && CanRead(t, a, n) == CanRead(m, a, n) && CanWrite(t, a, n) == CanWrite(m, a, n)
  {
    var data := Read(m, d.Src(), d.Len());
    if CanRead(m, d.Src(), d.Len()) {
      ReadElsewhere(m, d.Dst(), data, a, n);
      WriteKeepsAccess(m, d.Dst(), data, a, n);
    }
  }

  // ---------- Host and device ----------

  /** The engine with what the host knows: every descriptor posted so far, and how many of them
      the last doorbell announced. Both counters are unbounded; the registers hold residues. */
  datatype System = System(w: World, posted: seq<Descriptor>, rung: nat)

  /** What the host does. A post stores a descriptor in the next slot without ringing; a change is
      whatever else happens to memory, such as the filling of data buffers. */
  datatype Event = Post(d: Descriptor) | Announce(count: nat) | Enable(on: bool) | Change(mem: Memory)

  /** What the host must respect: at most size - 1 descriptors in flight, destinations clear of
      the ring, doorbells that announce posted descriptors and never retract, other changes of
      memory beside the ring. */
  ghost predicate Allowed(s: System, e: Event) {
    match e
    case Post(d) => |s.posted| < |s.w.done| + s.w.ring.size - 1 && Clear(s.w.ring, d)
    case Announce(count) => s.rung <= count <= |s.posted|
    case Enable(_) => true
    case Change(mem) => Mapped(s.w.ring, mem) && SameSlots(s.w, s.w.(mem := mem))
  }

  ghost predicate SameSlots(w: World, v: World) {
    forall k: nat | k < w.ring.size :: SlotDesc(v, k) == SlotDesc(w, k)
  }

  ghost predicate Ready(s: System) {
    s.w.ring.size > 0 && Mapped(s.w.ring, s.w.mem)
  }

  ghost function Apply(s: System, e: Event): System
    requires Ready(s)
  {
    var size := s.w.ring.size;
    match e
    case Post(d) =>
      SlotInRing(s.w.ring, s.w.mem, |s.posted| % size);
      s.(w := s.w.(mem := Store(s.w.mem, SlotAddr(s.w.ring, |s.posted| % size), Encode(d))), posted := s.posted + [d])
    case Announce(count) => s.(w := Doorbell(s.w, count % size), rung := count)
    case Enable(on) => s.(w := Control(s.w, on))
    case Change(mem) => s.(w := s.w.(mem := mem))
  }

  // ---------- The invariant ----------

  ghost predicate Registers(s: System) {
    var r, n := s.w.ring, |s.w.done|;
    && r.size > 0 && Mapped(r, s.w.mem)
    && n <= s.rung <= |s.posted| < n + r.size
    && r.head == n % r.size && r.tail == s.rung % r.size
  }

  /** Descriptors in flight sit in their slots as posted, and were posted clear of the ring. */
  ghost predicate Queued(s: System)
    requires s.w.ring.size > 0
  {
    forall i: nat | |s.w.done| <= i < |s.posted| ::
      SlotDesc(s.w, i % s.w.ring.size) == s.posted[i] && Clear(s.w.ring, s.posted[i])
  }

  /** The history of completions is the history of posts as far as it goes. */
  ghost predicate InOrder(s: System)
    requires s.w.ring.size > 0 && |s.w.done| <= |s.posted|
  {
    forall i: nat | i < |s.w.done| ::
      s.w.done[i].desc == s.posted[i] && s.w.done[i].slot == i % s.w.ring.size && Final(s.w.done[i].status)
  }

  predicate Final(status: bv32) {
    status == STATUS_COMPLETE || status == STATUS_ERROR
  }

  /** A completed descriptor's slot shows its status until the slot is posted again. */
  ghost predicate Reported(s: System)
    requires s.w.ring.size > 0 && |s.w.done| <= |s.posted|
  {
    forall i: nat | i < |s.w.done| && |s.posted| <= i + s.w.ring.size ::
      SlotDesc(s.w, i % s.w.ring.size) == s.w.done[i].desc.(status := s.w.done[i].status)
  }

  /** One notification of vector 1 for every completed descriptor that asked for one. */
  function Notifications(done: seq<Completion>): seq<nat> {
    if done == [] then []
    else
      var rest := Notifications(done[..|done| - 1]);
      if done[|done| - 1].desc.flags as nat % 4 >= 2 then rest + [1] else rest
  }

  ghost predicate Notified(w: World) {
    w.msix ==> w.raised == Notifications(w.done)
  }

  ghost predicate Inv(s: System) {
    Registers(s) && Queued(s) && InOrder(s) && Reported(s) && Notified(s.w)
  }

  /** An enabled ring is drained as far as it can be. */
  ghost predicate Settled(s: System) {
    s.w.ring.enabled ==> |s.w.done| == s.rung || Stalled(s.w)
  }

  // ---------- Every turn keeps it ----------

  lemma HeadAndTail(s: System)
    requires Registers(s)
    ensures InRange(s.w.ring) && Pending(s.w.ring) == s.rung - |s.w.done|
  {
    var n, size := |s.w.done|, s.w.ring.size;
    if s.rung > n {
      ModDistinct(n, s.rung, size);
    }
    LapBetween(n, s.rung, size);
  }

  lemma HeadStalls(s: System)
    requires Registers(s) && Queued(s) && |s.w.done| < |s.posted|
    ensures SlotDesc(s.w, s.w.ring.head) == s.posted[|s.w.done|] && Clear(s.w.ring, s.posted[|s.w.done|])
    ensures Stalled(s.w) <==> !s.posted[|s.w.done|].IsValid()
  {
    HeadAndTail(s);
    SlotInRing(s.w.ring, s.w.mem, s.w.ring.head);
    assert SlotDesc(s.w, |s.w.done| % s.w.ring.size) == s.posted[|s.w.done|];
    hide SlotDesc;
  }

  lemma TurnKeepsRegisters(s: System)
    requires Registers(s) && |s.w.done| < s.rung && !Stalled(s.w)
    ensures Registers(s.(w := ProcessOne(s.w)))
  {
    hide Stalled, SlotDesc, Mapped;
    HeadAndTail(s);
    ProcessOneKeeps(s.w);
    TurnKeepsMapped(s.w);
    TurnConsumes(s.w);
    NextMod(|s.w.done|, s.w.ring.size);
    hide ProcessOne;
  }

  lemma TurnKeepsQueued(s: System)
    requires Registers(s) && Queued(s) && |s.w.done| < s.rung && !Stalled(s.w)
    ensures ProcessOne(s.w).ring.size > 0 && Queued(s.(w := ProcessOne(s.w)))
  {
    hide Stalled, SlotDesc, Mapped, Clear, Outcome, ProcessOne;
    var n, size := |s.w.done|, s.w.ring.size;
    var v := ProcessOne(s.w);
    HeadAndTail(s);
    HeadStalls(s);
    ProcessOneKeeps(s.w);
    TurnConsumes(s.w);
    forall i: nat | |v.done| <= i < |s.posted|
      ensures SlotDesc(v, i % size) == s.posted[i] && Clear(v.ring, s.posted[i])
    {
      ModDistinct(n, i, size);
      SlotsAfterTurn(s.w, i % size);
      ClearOfSameRing(s.w.ring, v.ring, s.posted[i]);
    }
  }

  lemma ClearOfSameRing(r: Ring, q: Ring, d: Descriptor)
    requires r.addr == q.addr && r.size == q.size
    ensures Clear(r, d) == Clear(q, d)
  {}

  /** The completion a turn appends. */
  lemma TurnRecords(w: World)
    requires InRange(w.ring) && !Stalled(w)
    ensures var d := SlotDesc(w, w.ring.head);
            var v := ProcessOne(w);
            && v.done == w.done + [Completion(w.ring.head, d, Outcome(w.mem, d))]
            && v.raised == if d.WantsInterrupt() && w.msix then w.raised + [RING_VECTOR] else w.raised
  {
    hide Stalled, SlotDesc, Outcome;
  }

  lemma TurnKeepsInOrder(s: System)
    requires Registers(s) && Queued(s) && InOrder(s) && |s.w.done| < s.rung && !Stalled(s.w)
    ensures var v := ProcessOne(s.w);
            v.ring.size > 0 && |v.done| <= |s.posted| && InOrder(s.(w := v))
  {
    hide Stalled, SlotDesc, Mapped, Clear, Outcome, ProcessOne;
    HeadAndTail(s);
    HeadStalls(s);
    ProcessOneKeeps(s.w);
    TurnRecords(s.w);
    OutcomeFinal(s.w.mem, SlotDesc(s.w, s.w.ring.head));
  }

  lemma OutcomeFinal(m: Memory, d: Descriptor)
    ensures Final(Outcome(m, d))
  {}

  lemma TurnKeepsReported(s: System)
    requires Registers(s) && Queued(s) && Reported(s) && |s.w.done| < s.rung && !Stalled(s.w)
    ensures var v := ProcessOne(s.w);
            v.ring.size > 0 && |v.done| <= |s.posted| && Reported(s.(w := v))
  {
    hide Stalled, SlotDesc, Mapped, Clear, Outcome, ProcessOne;
    var n, size := |s.w.done|, s.w.ring.size;
    var v := ProcessOne(s.w);
    HeadAndTail(s);
    HeadStalls(s);
    ProcessOneKeeps(s.w);
    TurnRecords(s.w);
    forall i: nat | i < |v.done| && |s.posted| <= i + size
      ensures SlotDesc(v, i % size) == v.done[i].desc.(status := v.done[i].status)
    {
      SlotsAfterTurn(s.w, i % size);
      if i < n {
        ModDistinct(i, n, size);
      }
    }
  }

  lemma TurnKeepsNotified(w: World)
    requires InRange(w.ring) && Notified(w) && !Stalled(w)
    ensures Notified(ProcessOne(w))
  {
    hide Stalled, SlotDesc, Outcome, ProcessOne;
    TurnRecords(w);
    FlagBits(SlotDesc(w, w.ring.head));
    ProcessOneKeeps(w);
    assert ProcessOne(w).done[..|w.done|] == w.done;
  }

  /** At every notification, and after every other turn, the invariant holds: in particular each
      descriptor consumed so far shows its status. */
  lemma TurnKeeps(s: System)
    requires Inv(s) && |s.w.done| < s.rung && !Stalled(s.w)
    ensures Inv(s.(w := ProcessOne(s.w)))
  {
    hide Stalled, Registers, Queued, InOrder, Reported, Notified, ProcessOne;
    HeadAndTail(s);
    TurnKeepsRegisters(s);
    TurnKeepsQueued(s);
    TurnKeepsInOrder(s);
    TurnKeepsReported(s);
    TurnKeepsNotified(s.w);
  }

  /** A notification comes at the end of a turn, for the descriptor of that turn and no other; by
      then every descriptor consumed so far whose slot is not in use again shows COMPLETE or ERROR. */
  lemma NotificationFinds(s: System)
    requires Inv(s) && |s.w.done| < s.rung && !Stalled(s.w) && s.w.msix
    ensures var v, n := ProcessOne(s.w), |s.w.done|;
            && |v.done| == n + 1
            && v.raised == (if s.posted[n].WantsInterrupt() then s.w.raised + [RING_VECTOR] else s.w.raised)
            && forall i: nat | i <= n && |s.posted| <= i + s.w.ring.size ::
                 SlotDesc(v, i % s.w.ring.size).status == v.done[i].status && Final(v.done[i].status)
  {
    hide Stalled, SlotDesc, Outcome, ProcessOne, Mapped, Clear, Final;
    HeadAndTail(s);
    HeadStalls(s);
    TurnRecords(s.w);
    ProcessOneKeeps(s.w);
    TurnKeepsInOrder(s);
    TurnKeepsReported(s);
  }

  lemma TurnKeepsMapped(w: World)
    requires w.ring.size > 0 && Mapped(w.ring, w.mem)
    ensures Mapped(ProcessOne(w).ring, ProcessOne(w).mem)
  {
    hide Stalled, SlotDesc, Bytes32, CanRead, CanWrite, Write, Outcome;
    if !Stalled(w) {
      var d := SlotDesc(w, w.ring.head);
      var t := Transferred(w.mem, d);
      var data := Read(w.mem, d.Src(), d.Len());
      var n := w.ring.size * DESC_SIZE;
      WriteKeepsAccess(w.mem, d.Dst(), data, w.ring.addr, n);
      WriteKeepsAccess(t, StatusAddr(w.ring, w.ring.head), Bytes32(Outcome(w.mem, d)), w.ring.addr, n);
      ProcessOneKeeps(w);
    }
  }

  lemma {:induction false} AdvanceKeepsInv(s: System, k: nat)
    requires Inv(s) && |s.w.done| + k <= s.rung
    ensures var t := s.(w := Advance(s.w, k));
            && Inv(t) && s.w.done <= t.w.done
            && (|t.w.done| == |s.w.done| + k || Stalled(t.w))
    decreases k
  {
    hide ProcessOne, Stalled, Inv, Registers;
    InvRegisters(s);
    HeadAndTail(s);
    if k > 0 {
      if Stalled(s.w) {
        AdvanceStalled(s.w, k);
      } else {
        TurnKeeps(s);
        TurnConsumes(s.w);
        AdvanceKeepsInv(s.(w := ProcessOne(s.w)), k - 1);
      }
    }
  }

  lemma InvRegisters(s: System)
    requires Inv(s)
    ensures Registers(s) && s.w.ring.size > 0
  {}

  // ---------- Every event keeps it ----------

  /** A drain of an enabled ring keeps the invariant and settles the ring. */
  lemma ProcessKeeps(s: System)
    requires Inv(s) && s.w.ring.enabled
    ensures var t := s.(w := Process(s.w));
            Inv(t) && Settled(t) && s.w.done <= t.w.done && t.w.ring.size > 0
  {
    hide ProcessOne, Stalled, Inv, Registers, Drain, Advance;
    InvRegisters(s);
    HeadAndTail(s);
    DrainAdvances(s.w, s.w.ring.size);
    AdvanceKeepsInv(s, Pending(s.w.ring));
    AdvanceKeeps(s.w, Pending(s.w.ring));
  }

  /** Switching the engine on or off, or moving the tail, without draining. */
  lemma RetargetKeeps(s: System, count: nat, on: bool)
    requires Inv(s) && s.rung <= count <= |s.posted|
    ensures var r := s.w.ring.(tail := count % s.w.ring.size, enabled := on);
            Inv(s.(w := s.w.(ring := r), rung := count))
  {
    var size := s.w.ring.size;
    var r := s.w.ring.(tail := count % size, enabled := on);
    var t := s.(w := s.w.(ring := r), rung := count);
    hide Mapped, Clear, SlotDesc, Notified;
    MappedSame(s.w.ring, r, s.w.mem);
    NotifiedSame(s.w, t.w);
    forall i: nat | |t.w.done| <= i < |t.posted|
      ensures SlotDesc(t.w, i % size) == t.posted[i] && Clear(t.w.ring, t.posted[i])
    {
      SlotSame(s.w, t.w, i % size);
      ClearOfSameRing(s.w.ring, r, t.posted[i]);
    }
    forall i: nat | i < |t.w.done| && |t.posted| <= i + size
      ensures SlotDesc(t.w, i % size) == t.w.done[i].desc.(status := t.w.done[i].status)
    {
      SlotSame(s.w, t.w, i % size);
    }
  }

  lemma SlotSame(w: World, v: World, k: nat)
    requires w.mem == v.mem && w.ring.addr == v.ring.addr
    ensures SlotDesc(w, k) == SlotDesc(v, k)
  {
    hide Decode, Read;
  }

  lemma NotifiedSame(w: World, v: World)
    requires Notified(w) && w.msix == v.msix && w.raised == v.raised && w.done == v.done
    ensures Notified(v)
  {}

  lemma MappedSame(r: Ring, q: Ring, m: Memory)
    requires Mapped(r, m) && r.addr == q.addr && r.size == q.size
    ensures Mapped(q, m)
  {}

  lemma RingKeeps(s: System, count: nat)
    requires Inv(s) && Allowed(s, Announce(count))
    ensures Ready(s) && Inv(Apply(s, Announce(count))) && Settled(Apply(s, Announce(count)))
    ensures s.w.done <= Apply(s, Announce(count)).w.done
  {
    hide Inv, Process, Settled, Registers;
    InvRegisters(s);
    RegistersReady(s);
    var size := s.w.ring.size;
    SmallMod(count % size, size);
    RetargetKeeps(s, count, s.w.ring.enabled);
    var t := s.(w := s.w.(ring := s.w.ring.(tail := count % size)), rung := count);
    assert t == s.(w := s.w.(ring := s.w.ring.(tail := count % size, enabled := s.w.ring.enabled)), rung := count);
    if s.w.ring.enabled {
      ProcessKeeps(t);
    } else {
      OffIsSettled(t);
    }
  }

  lemma OffIsSettled(s: System)
    requires !s.w.ring.enabled
    ensures Settled(s)
  {}

  lemma RegistersReady(s: System)
    requires Registers(s)
    ensures Ready(s) && s.w.ring.tail == s.rung % s.w.ring.size && s.rung <= |s.posted|
  {}

  lemma EnableKeeps(s: System, on: bool)
    requires Inv(s)
    ensures Ready(s) && Inv(Apply(s, Enable(on))) && Settled(Apply(s, Enable(on)))
    ensures s.w.done <= Apply(s, Enable(on)).w.done
  {
    hide Inv, Process, Settled, Registers;
    InvRegisters(s);
    RegistersReady(s);
    RetargetKeeps(s, s.rung, on);
    var t := s.(w := s.w.(ring := s.w.ring.(enabled := on)));
    assert t == s.(w := s.w.(ring := s.w.ring.(tail := s.rung % s.w.ring.size, enabled := on)), rung := s.rung);
    if !on {
      OffIsSettled(t);
    } else if t.w.ring.head != t.w.ring.tail {
      ProcessKeeps(t);
    } else {
      InvRegisters(t);
      EmptyIsSettled(t);
    }
  }

  lemma EmptyIsSettled(s: System)
    requires Registers(s) && s.w.ring.head == s.w.ring.tail
    ensures Settled(s)
  {
    HeadAndTail(s);
  }

  /** A post fills its own slot and no other. */
  lemma SlotsAfterPost(s: System, d: Descriptor, k: nat)
    requires Registers(s) && k < s.w.ring.size
    ensures Ready(s)
    ensures SlotDesc(Apply(s, Post(d)).w, k) == if k == |s.posted| % s.w.ring.size then d else SlotDesc(s.w, k)
    ensures Mapped(s.w.ring, Apply(s, Post(d)).w.mem)
  {
    RegistersReady(s);
    hide Decode, Encode, Registers, Read, Store;
    var r, m, h := s.w.ring, s.w.mem, |s.posted| % s.w.ring.size;
    var bytes := Encode(d);
    SlotInRing(r, m, h);
    SlotInRing(r, m, k);
    StoreKeepsAccess(m, SlotAddr(r, h), bytes, r.addr, r.size * DESC_SIZE);
    if k == h {
      ReadStored(m, SlotAddr(r, h), bytes);
      DecodeEncode(d);
    } else {
      SlotsApart(r, h, k);
      ReadBesideStore(m, SlotAddr(r, h), bytes, SlotAddr(r, k), DESC_SIZE);
    }
  }

  lemma PostKeepsRegisters(s: System, d: Descriptor)
    requires Registers(s) && Allowed(s, Post(d))
    ensures Ready(s) && Registers(Apply(s, Post(d)))
  {
    RegistersReady(s);
    hide Mapped, Encode, Store;
    SlotsAfterPost(s, d, s.w.ring.head);
  }

  lemma PostKeeps(s: System, d: Descriptor)
    requires Inv(s) && Settled(s) && Allowed(s, Post(d))
    ensures Ready(s) && Inv(Apply(s, Post(d))) && Settled(Apply(s, Post(d)))
    ensures s.w.done == Apply(s, Post(d)).w.done
  {
    hide Mapped, SlotDesc, Clear, Notified, Stalled, Encode, Store;
    RegistersReady(s);
    PostKeepsRegisters(s, d);
    var n, p, size := |s.w.done|, |s.posted|, s.w.ring.size;
    var t := Apply(s, Post(d));
    forall i: nat | n <= i < p + 1
      ensures SlotDesc(t.w, i % size) == t.posted[i] && Clear(t.w.ring, t.posted[i])
    {
      SlotsAfterPost(s, d, i % size);
      if i < p {
        ModDistinct(i, p, size);
      }
    }
    forall i: nat | i < n && p + 1 <= i + size
      ensures SlotDesc(t.w, i % size) == t.w.done[i].desc.(status := t.w.done[i].status)
    {
      SlotsAfterPost(s, d, i % size);
      ModDistinct(i, p, size);
    }
    NotifiedSame(s.w, t.w);
    if n < p {
      HeadStalls(s);
      HeadStalls(t);
    }
  }

  lemma ChangeKeeps(s: System, mem: Memory)
    requires Inv(s) && Settled(s) && Allowed(s, Change(mem))
    ensures Ready(s) && Inv(Apply(s, Change(mem))) && Settled(Apply(s, Change(mem)))
    ensures s.w.done == Apply(s, Change(mem)).w.done
  {
    hide Mapped, SlotDesc, Clear, Notified, Stalled;
    RegistersReady(s);
    var t := Apply(s, Change(mem));
    NotifiedSame(s.w, t.w);
    if |s.w.done| < |s.posted| {
      HeadStalls(s);
      HeadStalls(t);
    }
  }

  // ---------- Runs ----------

  ghost predicate AllowedRun(s: System, es: seq<Event>)
    decreases |es|
  {
    es == [] || (Ready(s) && Allowed(s, es[0]) && AllowedRun(Apply(s, es[0]), es[1..]))
  }

  ghost function Run(s: System, es: seq<Event>): System
    requires AllowedRun(s, es)
    decreases |es|
  {
    if es == [] then s else Run(Apply(s, es[0]), es[1..])
  }

  lemma {:induction false} RunKeeps(s: System, es: seq<Event>)
    requires Inv(s) && Settled(s) && AllowedRun(s, es)
    ensures Inv(Run(s, es)) && Settled(Run(s, es)) && s.w.done <= Run(s, es).w.done
    decreases |es|
  {
    hide Inv, Settled, Apply, Ready;
    if es != [] {
      match es[0] {
        case Post(d) => PostKeeps(s, d);
        case Announce(count) => RingKeeps(s, count);
        case Enable(on) => EnableKeeps(s, on);
        case Change(mem) => ChangeKeeps(s, mem);
      }
      RunKeeps(Apply(s, es[0]), es[1..]);
    }
  }

  /** The ring as setup leaves it: sized, nothing posted, nothing done. */
  ghost predicate Fresh(w: World) {
    w.ring.size > 0 && Mapped(w.ring, w.mem) && w.ring.head == w.ring.tail == 0 && w.done == [] && w.raised == []
  }

  /** In every run of posts, doorbells, enables, disables and other work in memory, completed
      descriptors are a prefix of the posted ones, in order and each once; completed plus pending
      is what was announced; an enabled engine stops short of that only at a descriptor that was
      posted with even flags; statuses stand in their slots until reuse; and vector 1 was
      raised once for each completed descriptor that asked for it. */
  lemma RingIsFifo(w: World, es: seq<Event>)
    requires Fresh(w) && AllowedRun(System(w, [], 0), es)
    ensures var t := Run(System(w, [], 0), es);
            var n := |t.w.done|;
            && n <= t.rung <= |t.posted|
            && (forall i: nat | i < n :: t.w.done[i].desc == t.posted[i])
            && InRange(t.w.ring) && n + Pending(t.w.ring) == t.rung
            && (t.w.ring.enabled ==> n == t.rung || t.posted[n].flags as nat % 2 == 0)
            && Reported(t)
            && (t.w.msix ==> t.w.raised == Notifications(t.w.done))
  {
    var s := System(w, [], 0);
    hide AllowedRun, Run, Mapped, Stalled, SlotDesc;
    SmallMod(0, w.ring.size);
    assert Inv(s) && Settled(s);
    RunKeeps(s, es);
    var t := Run(s, es);
    HeadAndTail(t);
    if |t.w.done| < |t.posted| {
      HeadStalls(t);
      FlagBits(t.posted[|t.w.done|]);
    }
  }
}
