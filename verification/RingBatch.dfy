/** What becomes of the data: one transfer exactly, and whole batches with separate buffers. */
module RingBatch {
  import opened Bytes
  import opened Modular
  import opened GuestMemory
  import opened RingDevice
  import opened RingRuns
  import opened RingFifo

  // ---------- One transfer ----------

  /** Destination byte i holds the source byte read when the descriptor was processed. */
  predicate Arrived(w: World, d: Descriptor, after: Memory, i: nat) {
    d.Dst() + i < |after.cells| && after.cells[d.Dst() + i] == ByteAt(w.mem, d.Src() + i)
  }

  ghost predicate Delivered(w: World, d: Descriptor)
    requires w.ring.size > 0
  {
    forall i: nat | i < d.Len() :: Arrived(w, d, ProcessOne(w).mem, i)
  }

  /** Destination byte i can be written, or holds the right value already. */
  predicate Deliverable(w: World, d: Descriptor, i: nat) {
    && d.Dst() + i < |w.mem.cells|
    && (Writable(w.mem, d.Dst() + i) || w.mem.cells[d.Dst() + i] == ByteAt(w.mem, d.Src() + i))
  }

  /** The status says whether the source could be read, nothing more: the result of the write to
      the destination is not looked at. An error leaves every byte outside the status word alone. */
  lemma StatusMeaning(w: World)
    requires InRange(w.ring) && !Stalled(w)
    ensures var d := SlotDesc(w, w.ring.head);
            var v := ProcessOne(w);
            var status := v.done[|w.done|].status;
            && |v.done| == |w.done| + 1
            && (status == STATUS_COMPLETE <==> CanRead(w.mem, d.Src(), d.Len()))
            && (status == STATUS_ERROR <==> !CanRead(w.mem, d.Src(), d.Len()))
            && (status == STATUS_ERROR ==> v.mem == Write(w.mem, StatusAddr(w.ring, w.ring.head), Bytes32(STATUS_ERROR)))
  {
    hide Stalled, SlotDesc, Write, Bytes32;
    TurnRecords(w);
  }

  /** A completed descriptor with its destination clear of the ring has delivered its data exactly
      when each destination byte could be written or held the right value already. */
  lemma DeliveredExactly(w: World)
    requires InRange(w.ring) && Mapped(w.ring, w.mem) && !Stalled(w)
    requires var d := SlotDesc(w, w.ring.head);
             Clear(w.ring, d) && Outcome(w.mem, d) == STATUS_COMPLETE
    ensures var d := SlotDesc(w, w.ring.head);
            Delivered(w, d) <==> forall i: nat | i < d.Len() :: Deliverable(w, d, i)
  {
    hide SlotDesc, Stalled, ProcessOne, Arrived, Deliverable, Mapped, Clear, Outcome;
    var d := SlotDesc(w, w.ring.head);
    forall i: nat | i < d.Len()
      ensures Arrived(w, d, ProcessOne(w).mem, i) == Deliverable(w, d, i)
    {
      ByteDelivered(w, i);
    }
  }

  lemma ByteDelivered(w: World, i: nat)
    requires InRange(w.ring) && Mapped(w.ring, w.mem) && !Stalled(w)
    requires var d := SlotDesc(w, w.ring.head);
             Clear(w.ring, d) && Outcome(w.mem, d) == STATUS_COMPLETE && i < d.Len()
    ensures var d := SlotDesc(w, w.ring.head);
            Arrived(w, d, ProcessOne(w).mem, i) == Deliverable(w, d, i)
  {
    hide SlotDesc, Stalled, ProcessOne, ByteAt, Mapped, Clear, Outcome;
    ProcessOneKeeps(w);
    if SlotDesc(w, w.ring.head).Dst() + i < |w.mem.cells| {
      DestinationByte(w, i);
    }
  }

  lemma DestinationByte(w: World, i: nat)
    requires InRange(w.ring) && Mapped(w.ring, w.mem) && !Stalled(w)
    requires var d := SlotDesc(w, w.ring.head);
             Clear(w.ring, d) && Outcome(w.mem, d) == STATUS_COMPLETE && i < d.Len() && d.Dst() + i < |w.mem.cells|
    ensures var d := SlotDesc(w, w.ring.head);
            && |ProcessOne(w).mem.cells| == |w.mem.cells|
            && ProcessOne(w).mem.cells[d.Dst() + i] ==
               if Writable(w.mem, d.Dst() + i) then ByteAt(w.mem, d.Src() + i) else w.mem.cells[d.Dst() + i]
  {
    hide SlotDesc, Stalled, Bytes32, ByteAt, CanRead, CanWrite, Write, ProcessOne, Mapped, StatusAddr, SlotAddr,
      Descriptor.Src, Descriptor.Dst, Descriptor.Len, Writable;
    var r, m := w.ring, w.mem;
    var d := SlotDesc(w, r.head);
    SlotInRing(r, m, r.head);
    TurnWrites(w);
    var data := Read(m, d.Src(), d.Len());
    CellAfterWrite(m, d.Dst(), data, d.Dst() + i);
    CellAfterWrite(Write(m, d.Dst(), data), StatusAddr(r, r.head), Bytes32(STATUS_COMPLETE), d.Dst() + i);
  }

  /** A ring of two slots with one byte to copy beyond it, to a destination the device may not
      write. */
  function Undeliverable(): World {
    World(Ring(0, 2, 0, 1, true), Memory(Encode(BadDestination()) + seq(32, _ => 0) + [7, 0], {}, {65}, _ => 0), false, [], [])
  }

  function BadDestination(): Descriptor {
    Descriptor(64, 0, 65, 0, 1, 1, 0, 0)
  }

  lemma BadDestinationFields()
    ensures var d := BadDestination();
            d.Src() == 64 && d.Dst() == 65 && d.Len() == 1 && d.IsValid()
  {}

  lemma UndeliverableMemory()
    ensures var w := Undeliverable();
            && |w.mem.cells| == 66 && w.mem.cells[64] == 7 && w.mem.cells[65] == 0 && Mapped(w.ring, w.mem)
            && CanRead(w.mem, 64, 1) && !Writable(w.mem, 65)
  {
    hide Encode;
  }

  lemma BadDestinationAt()
    ensures SlotDesc(Undeliverable(), 0) == BadDestination() && CanRead(Undeliverable().mem, 0, DESC_SIZE)
  {
    hide Encode, Decode, BadDestination;
    DecodeEncode(BadDestination());
    UndeliverableMemory();
    var w := Undeliverable();
    SmallMod(0, TWO_TO_THE_64);
    assert SlotAddr(w.ring, 0) == 0;
    assert Read(w.mem, 0, DESC_SIZE) == Encode(BadDestination());
  }

  /** COMPLETE without delivery, on a mapped ring with both buffers clear of it. */
  lemma CompleteUndelivered()
    ensures var w := Undeliverable();
            && InRange(w.ring) && Mapped(w.ring, w.mem) && !Stalled(w)
            && Clear(w.ring, BadDestination())
            && ProcessOne(w).done == [Completion(0, BadDestination(), STATUS_COMPLETE)]
            && !Delivered(w, BadDestination())
  {
    hide Encode, Decode, SlotDesc, Mapped, Descriptor.Src, Descriptor.Dst, Descriptor.Len, ProcessOne, Delivered;
    var w := Undeliverable();
    BadDestinationAt();
    BadDestinationFields();
    UndeliverableMemory();
    TurnRecords(w);
    DeliveredExactly(w);
    assert !Deliverable(w, BadDestination(), 0);
  }

  // ---------- Batches ----------

  /** Slot i of the batch that starts at the head. */
  function BatchSlot(r: Ring, i: nat): nat
    requires r.size > 0
  {
    (r.head + i) % r.size
  }

  /** ds waits in the slots from the head on, valid, with all buffers mapped and apart. */
  ghost predicate Batch(w: World, ds: seq<Descriptor>) {
    && InRange(w.ring) && Mapped(w.ring, w.mem) && |ds| < w.ring.size
    && (forall i: nat | i < |ds| :: SlotDesc(w, BatchSlot(w.ring, i)) == ds[i] && ds[i].IsValid())
    && (forall d | d in ds :: Buffers(w.ring, w.mem, d))
    && (forall i: nat, j: nat | i < |ds| && j < |ds| && i != j :: Apart(ds[i], ds[j]))
  }

  /** Both buffers of d are mapped and clear of the ring. */
  ghost predicate Buffers(r: Ring, m: Memory, d: Descriptor) {
    && Clear(r, d) && Disjoint(d.Src(), d.Len(), r.addr, r.size * DESC_SIZE)
    && CanRead(m, d.Src(), d.Len()) && CanWrite(m, d.Dst(), d.Len()) && CanRead(m, d.Dst(), d.Len())
  }

  predicate Apart(d: Descriptor, e: Descriptor) {
    Disjoint(d.Dst(), d.Len(), e.Src(), e.Len()) && Disjoint(d.Dst(), d.Len(), e.Dst(), e.Len())
  }

  /** A range clear of the ring and of the destination of the descriptor at the head. */
  lemma RangeAfterTurn(w: World, a: nat, n: nat)
    requires InRange(w.ring) && Mapped(w.ring, w.mem)
    requires Disjoint(a, n, w.ring.addr, w.ring.size * DESC_SIZE)
    requires var d := SlotDesc(w, w.ring.head); Disjoint(d.Dst(), d.Len(), a, n)
    ensures var v := ProcessOne(w);
            Read(v.mem, a, n) == Read(w.mem, a, n) && CanRead(v.mem, a, n) == CanRead(w.mem, a, n)
            && CanWrite(v.mem, a, n) == CanWrite(w.mem, a, n)
  {
    hide SlotDesc, Stalled, Bytes32, Read, Write, CanRead, CanWrite, Outcome;
    if !Stalled(w) {
      var r, m := w.ring, w.mem;
      var d := SlotDesc(w, r.head);
      var t := Transferred(m, d);
      SlotInRing(r, m, r.head);
      TransferElsewhere(m, d, a, n);
      WriteKeepsAccess(t, StatusAddr(r, r.head), Bytes32(Outcome(m, d)), a, n);
      ReadElsewhere(t, StatusAddr(r, r.head), Bytes32(Outcome(m, d)), a, n);
    }
  }

  lemma DestinationAfterTurn(w: World)
    requires InRange(w.ring) && Mapped(w.ring, w.mem) && !Stalled(w)
    requires Buffers(w.ring, w.mem, SlotDesc(w, w.ring.head))
    ensures var d := SlotDesc(w, w.ring.head);
            Read(ProcessOne(w).mem, d.Dst(), d.Len()) == Read(w.mem, d.Src(), d.Len())
  {
    hide SlotDesc, Stalled, Bytes32, Read, Write, CanRead, CanWrite;
    var r, m := w.ring, w.mem;
    var d := SlotDesc(w, r.head);
    var data := Read(m, d.Src(), d.Len());
    SlotInRing(r, m, r.head);
    ReadBack(m, d.Dst(), data);
    ReadElsewhere(Write(m, d.Dst(), data), StatusAddr(r, r.head), Bytes32(STATUS_COMPLETE), d.Dst(), d.Len());
  }

  lemma HeadReady(w: World, ds: seq<Descriptor>)
    requires Batch(w, ds) && ds != []
    ensures SlotDesc(w, w.ring.head) == ds[0] && Buffers(w.ring, w.mem, ds[0]) && !Stalled(w)
  {
    hide SlotDesc, Mapped, Apart;
    SmallMod(w.ring.head, w.ring.size);
    assert BatchSlot(w.ring, 0) == w.ring.head;
    SlotInRing(w.ring, w.mem, w.ring.head);
    assert ds[0] in ds;
  }

  lemma NextBatchSlot(w: World, i: nat)
    requires InRange(w.ring) && !Stalled(w)
    ensures ProcessOne(w).ring.size == w.ring.size
    ensures BatchSlot(ProcessOne(w).ring, i) == BatchSlot(w.ring, i + 1)
  {
    hide Stalled, ProcessOne;
    TurnMoves(w);
    AddMod(w.ring.head + 1, i, w.ring.size);
  }

  lemma BatchSlotsDiffer(r: Ring, i: nat, j: nat)
    requires InRange(r) && i < j < i + r.size
    ensures BatchSlot(r, i) != BatchSlot(r, j) && BatchSlot(r, i) < r.size
  {
    ModDistinct(r.head + i, r.head + j, r.size);
  }

  /** A turn works off the first descriptor and leaves the rest of the batch as it was. */
  lemma TurnKeepsBatch(w: World, ds: seq<Descriptor>)
    requires Batch(w, ds) && ds != []
    ensures Batch(ProcessOne(w), ds[1..])
    ensures forall d | d in ds[1..] :: Read(ProcessOne(w).mem, d.Src(), d.Len()) == Read(w.mem, d.Src(), d.Len())
  {
    hide SlotDesc, Mapped, Stalled, ProcessOne, Outcome, Read, CanRead, CanWrite;
    HeadReady(w, ds);
    TurnConsumes(w);
    ProcessOneKeeps(w);
    TurnKeepsMapped(w);
    var v := ProcessOne(w);
    var rest := ds[1..];
    forall i: nat | i < |rest|
      ensures SlotDesc(v, BatchSlot(v.ring, i)) == rest[i] && rest[i].IsValid()
    {
      NextBatchSlot(w, i);
      SmallMod(w.ring.head, w.ring.size);
      BatchSlotsDiffer(w.ring, 0, i + 1);
      BatchSlotsDiffer(w.ring, i + 1, i + 2);
      SlotsAfterTurn(w, BatchSlot(w.ring, i + 1));
    }
    forall i: nat | i < |rest|
      ensures Buffers(v.ring, v.mem, rest[i])
      ensures Read(v.mem, rest[i].Src(), rest[i].Len()) == Read(w.mem, rest[i].Src(), rest[i].Len())
    {
      var d := ds[i + 1];
      assert d in ds && Apart(ds[0], d);
      RangeAfterTurn(w, d.Src(), d.Len());
      RangeAfterTurn(w, d.Dst(), d.Len());
    }
  }

  lemma {:induction false} BatchRangeKept(w: World, ds: seq<Descriptor>, a: nat, n: nat)
    requires Batch(w, ds) && Disjoint(a, n, w.ring.addr, w.ring.size * DESC_SIZE)
    requires forall d | d in ds :: Disjoint(d.Dst(), d.Len(), a, n)
    ensures Read(Advance(w, |ds|).mem, a, n) == Read(w.mem, a, n)
    decreases |ds|
  {
    hide SlotDesc, Mapped, Stalled, ProcessOne, Read, Batch;
    if ds != [] {
      assert InRange(w.ring) && Mapped(w.ring, w.mem) by { BatchRing(w, ds); }
      HeadReady(w, ds);
      assert ds[0] in ds;
      TurnKeepsBatch(w, ds);
      ProcessOneKeeps(w);
      RangeAfterTurn(w, a, n);
      BatchRangeKept(ProcessOne(w), ds[1..], a, n);
    }
  }

  lemma BatchRing(w: World, ds: seq<Descriptor>)
    requires Batch(w, ds)
    ensures InRange(w.ring) && Mapped(w.ring, w.mem) && |ds| < w.ring.size
  {}

  lemma {:induction false} BatchSlotKept(w: World, ds: seq<Descriptor>, k: nat)
    requires Batch(w, ds) && k < w.ring.size
    requires forall i: nat | i < |ds| :: k != BatchSlot(w.ring, i)
    ensures SlotDesc(Advance(w, |ds|), k) == SlotDesc(w, k)
    decreases |ds|
  {
    hide SlotDesc, Mapped, Stalled, ProcessOne, Batch, BatchSlot;
    if ds != [] {
      BatchRing(w, ds);
      HeadReady(w, ds);
      TurnKeepsBatch(w, ds);
      ProcessOneKeeps(w);
      FirstBatchSlot(w.ring);
      assert k != BatchSlot(w.ring, 0);
      SlotsAfterTurn(w, k);
      forall i: nat | i < |ds[1..]|
        ensures k != BatchSlot(ProcessOne(w).ring, i)
      {
        NextBatchSlot(w, i);
      }
      BatchSlotKept(ProcessOne(w), ds[1..], k);
    }
  }

  lemma FirstBatchSlot(r: Ring)
    requires InRange(r)
    ensures BatchSlot(r, 0) == r.head
  {
    SmallMod(r.head, r.size);
  }

  /** d, which waited in slot k, has been worked off. */
  ghost predicate WorkedOff(w: World, v: World, d: Descriptor, k: nat) {
    && Read(v.mem, d.Dst(), d.Len()) == Read(w.mem, d.Src(), d.Len())
    && SlotDesc(v, k) == d.(status := STATUS_COMPLETE)
  }

  /** The notifications a batch asks for. */
  function Signals(ds: seq<Descriptor>): seq<nat> {
    if ds == [] then [] else Signal(ds[0]) + Signals(ds[1..])
  }

  function Signal(d: Descriptor): seq<nat> {
    if d.WantsInterrupt() then [RING_VECTOR] else []
  }

  lemma {:induction false} BatchSignals(w: World, ds: seq<Descriptor>)
    requires Batch(w, ds)
    ensures Advance(w, |ds|).raised == if w.msix then w.raised + Signals(ds) else w.raised
    decreases |ds|
  {
    hide SlotDesc, Mapped, Stalled, ProcessOne, Batch, Signal;
    BatchRing(w, ds);
    if ds != [] {
      HeadReady(w, ds);
      TurnSignals(w);
      TurnKeepsBatch(w, ds);
      BatchSignals(ProcessOne(w), ds[1..]);
      SignalsJoin(w.raised, Signal(ds[0]), Signals(ds[1..]));
    }
  }

  lemma TurnSignals(w: World)
    requires InRange(w.ring) && !Stalled(w)
    ensures var v := ProcessOne(w);
            v.msix == w.msix && v.raised == if w.msix then w.raised + Signal(SlotDesc(w, w.ring.head)) else w.raised
  {
    hide SlotDesc, Stalled, ProcessOne, Outcome, Descriptor.WantsInterrupt;
    TurnRecords(w);
    ProcessOneKeeps(w);
  }

  lemma SignalsJoin(a: seq<nat>, b: seq<nat>, c: seq<nat>)
    ensures (a + b) + c == a + (b + c)
  {}

  lemma {:induction false} BatchAdvances(w: World, ds: seq<Descriptor>)
    requires Batch(w, ds)
    ensures var v := Advance(w, |ds|);
            && |v.done| == |w.done| + |ds|
            && (forall i: nat | i < |ds| :: WorkedOff(w, v, ds[i], BatchSlot(w.ring, i)))
    decreases |ds|
  {
    hide SlotDesc, Mapped, Stalled, ProcessOne, Read, Batch, BatchSlot, WorkedOff;
    if ds != [] {
      BatchRing(w, ds);
      var w' := ProcessOne(w);
      var v := Advance(w, |ds|);
      HeadReady(w, ds);
      TurnConsumes(w);
      TurnKeepsBatch(w, ds);
      BatchAdvances(w', ds[1..]);
      FirstWorkedOff(w, ds);
      FirstBatchSlot(w.ring);
      forall i: nat | i < |ds|
        ensures WorkedOff(w, v, ds[i], BatchSlot(w.ring, i))
      {
        if i > 0 {
          NextBatchSlot(w, i - 1);
          assert ds[i] in ds[1..];
          WorkedOffEarlier(w, w', v, ds[i], BatchSlot(w.ring, i));
        }
      }
    }
  }

  lemma WorkedOffEarlier(w: World, w': World, v: World, d: Descriptor, k: nat)
    requires WorkedOff(w', v, d, k) && Read(w'.mem, d.Src(), d.Len()) == Read(w.mem, d.Src(), d.Len())
    ensures WorkedOff(w, v, d, k)
  {}

  lemma LaterApart(w: World, ds: seq<Descriptor>, e: Descriptor)
    requires Batch(w, ds) && ds != [] && e in ds[1..]
    ensures Disjoint(e.Dst(), e.Len(), ds[0].Dst(), ds[0].Len())
  {
    hide SlotDesc, Mapped, Buffers, Disjoint;
    var j :| 0 <= j < |ds[1..]| && ds[1..][j] == e;
    assert Apart(ds[j + 1], ds[0]);
  }

  /** What the first turn delivers survives the rest of the batch. */
  lemma FirstWorkedOff(w: World, ds: seq<Descriptor>)
    requires Batch(w, ds) && ds != []
    ensures WorkedOff(w, Advance(w, |ds|), ds[0], w.ring.head)
  {
    hide SlotDesc, Mapped, Stalled, ProcessOne, Read, CanRead, CanWrite, BatchSlot, Batch;
    BatchRing(w, ds);
    var w', d, rest := ProcessOne(w), ds[0], ds[1..];
    HeadReady(w, ds);
    ProcessOneKeeps(w);
    DestinationAfterTurn(w);
    SlotsAfterTurn(w, w.ring.head);
    TurnKeepsBatch(w, ds);
    forall e | e in rest
      ensures Disjoint(e.Dst(), e.Len(), d.Dst(), d.Len())
    {
      LaterApart(w, ds, e);
    }
    BatchRangeKept(w', rest, d.Dst(), d.Len());
    forall i: nat | i < |rest|
      ensures w.ring.head != BatchSlot(w'.ring, i)
    {
      NextBatchSlot(w, i);
      BatchSlotsDiffer(w.ring, 0, i + 1);
      FirstBatchSlot(w.ring);
    }
    BatchSlotKept(w', rest, w.ring.head);
  }

  /** On an enabled idle ring, ringing the bell for a batch of up to size - 1 descriptors delivers
      every one of them, marks it complete and leaves head equal to tail. */
  lemma BatchCompletes(w: World, ds: seq<Descriptor>)
    requires Batch(w, ds) && w.ring.enabled && w.ring.head == w.ring.tail
    ensures w.ring.size > 0
    ensures var v := Doorbell(w, BatchSlot(w.ring, |ds|));
            && v.ring.head == v.ring.tail == BatchSlot(w.ring, |ds|)
            && v.ring == w.ring.(head := v.ring.head, tail := v.ring.tail)
            && |v.done| == |w.done| + |ds|
            && v.raised == (if w.msix then w.raised + Signals(ds) else w.raised)
            && (forall i: nat | i < |ds| :: WorkedOff(w, v, ds[i], BatchSlot(w.ring, i)))
  {
    hide SlotDesc, Mapped, Stalled, ProcessOne, Read, Batch, WorkedOff, Doorbell, Advance;
    BatchRing(w, ds);
    var r := w.ring;
    var t := BatchSlot(r, |ds|);
    WrapHead(r.size, r.head, |ds|);
    SmallMod(t, r.size);
    DoorbellAdvances(w, t);
    BatchAdvances(w, ds);
    BatchSignals(w, ds);
    AdvanceExact(w, |ds|);
    AdvanceKeeps(w, |ds|);
    var a := Advance(w, |ds|);
    forall i: nat | i < |ds|
      ensures WorkedOff(w, Aim(a, t), ds[i], BatchSlot(r, i))
    {
      AimKeepsSlot(w, a, t, ds[i], BatchSlot(r, i));
    }
  }

  lemma AimKeepsSlot(w: World, v: World, t: nat, d: Descriptor, k: nat)
    requires WorkedOff(w, v, d, k)
    ensures WorkedOff(w, Aim(v, t), d, k)
  {
    SlotSame(v, Aim(v, t), k);
    hide SlotDesc, Read;
  }

  /** A full lap rings the bell at the slot it started from, and processes nothing. */
  lemma FullLapDoesNothing(w: World)
    requires InRange(w.ring) && w.ring.head == w.ring.tail
    ensures Doorbell(w, BatchSlot(w.ring, w.ring.size)) == w
  {
    AddSize(w.ring.head, w.ring.size);
    SmallMod(w.ring.head, w.ring.size);
    DrainTurn(w, w.ring.size);
    hide ProcessOne;
  }
}
