/** The host half of the descriptor ring, as the ring test drives it: set the ring up, fill
    slots and buffers from the current head on, ring the bell once. */
module RingHost {
  import opened Bytes
  import opened Modular
  import opened GuestMemory
  import opened RingDevice
  import opened RingRuns
  import opened RingFifo
  import opened RingBatch

  const NUM_DESCRIPTORS := 16
  const PAGE := 4096
  const RING_IOVA := 0x100000
  const DATA_IOVA := 0x200000

  function SrcAt(k: nat): nat {
    DATA_IOVA + (k * 2) * PAGE
  }

  function DstAt(k: nat): nat {
    DATA_IOVA + (k * 2 + 1) * PAGE
  }

  /** A message with its length as the 32-bit field will hold it. */
  datatype Job = Job(text: seq<byte>, length: bv32) {
    predicate Fits() {
      length as nat == |text| <= PAGE
    }
  }

  // The low words of the buffer addresses, tabulated; the high words are zero.

  function SrcWord(k: nat): (v: bv32)
    requires k < NUM_DESCRIPTORS
    ensures v as nat == SrcAt(k)
  {
    match k
    case 0 => 0x200000 case 1 => 0x202000 case 2 => 0x204000 case 3 => 0x206000
    case 4 => 0x208000 case 5 => 0x20a000 case 6 => 0x20c000 case 7 => 0x20e000
    case 8 => 0x210000 case 9 => 0x212000 case 10 => 0x214000 case 11 => 0x216000
    case 12 => 0x218000 case 13 => 0x21a000 case 14 => 0x21c000 case _ => 0x21e000
  }

  function DstWord(k: nat): (v: bv32)
    requires k < NUM_DESCRIPTORS
    ensures v as nat == DstAt(k)
  {
    match k
    case 0 => 0x201000 case 1 => 0x203000 case 2 => 0x205000 case 3 => 0x207000
    case 4 => 0x209000 case 5 => 0x20b000 case 6 => 0x20d000 case 7 => 0x20f000
    case 8 => 0x211000 case 9 => 0x213000 case 10 => 0x215000 case 11 => 0x217000
    case 12 => 0x219000 case 13 => 0x21b000 case 14 => 0x21d000 case _ => 0x21f000
  }

  /** What the host writes into slot k: every field but the reserved one. */
  function JobDescriptor(k: nat, length: bv32, interrupt: bool, reserved: bv32): Descriptor
    requires k < NUM_DESCRIPTORS
  {
    Descriptor(SrcWord(k), 0, DstWord(k), 0, length, if interrupt then 3 else 1, 0, reserved)
  }

  lemma JobFields(k: nat, length: bv32, interrupt: bool, reserved: bv32)
    requires k < NUM_DESCRIPTORS && length as nat <= PAGE
    ensures var d := JobDescriptor(k, length, interrupt, reserved);
            && d.Src() == SrcAt(k) && d.Dst() == DstAt(k) && d.Len() == length as nat && d.IsValid()
            && d.WantsInterrupt() == interrupt && d.status == STATUS_PENDING
  {
    hide SrcAt, DstAt, SrcWord, DstWord;
  }

  /** The ring page and the data buffers are mapped for the device. */
  ghost predicate HostMapped(m: Memory) {
    && DATA_IOVA + NUM_DESCRIPTORS * 2 * PAGE <= |m.cells|
    && CanRead(m, RING_IOVA, NUM_DESCRIPTORS * DESC_SIZE) && CanWrite(m, RING_IOVA, NUM_DESCRIPTORS * DESC_SIZE)
    && CanRead(m, DATA_IOVA, NUM_DESCRIPTORS * 2 * PAGE) && CanWrite(m, DATA_IOVA, NUM_DESCRIPTORS * 2 * PAGE)
  }

  function Slot(m: Memory, k: nat): Descriptor {
    Decode(Read(m, RING_IOVA + k * DESC_SIZE, DESC_SIZE))
  }

  /** Memory after the host has filled the buffers and the descriptor of slot k. */
  function PostOne(m: Memory, k: nat, job: Job, interrupt: bool): Memory
    requires k < NUM_DESCRIPTORS && job.Fits() && DATA_IOVA + NUM_DESCRIPTORS * 2 * PAGE <= |m.cells|
  {
    var m1 := Store(m, SrcAt(k), job.text);
    var m2 := Store(m1, DstAt(k), seq(PAGE, _ => 0));
    Store(m2, RING_IOVA + k * DESC_SIZE, Encode(JobDescriptor(k, job.length, interrupt, Slot(m2, k).reserved)))
  }

  /** Slot k is ready to be processed for job. */
  predicate IsPosted(m: Memory, k: nat, job: Job, interrupt: bool)
    requires k < NUM_DESCRIPTORS
  {
    && Slot(m, k) == JobDescriptor(k, job.length, interrupt, Slot(m, k).reserved)
    && Read(m, SrcAt(k), |job.text|) == job.text
  }

  lemma StoreKeepsMapped(m: Memory, a: nat, data: seq<byte>)
    requires HostMapped(m) && a + |data| <= |m.cells|
    ensures HostMapped(Store(m, a, data))
  {
    hide CanRead, CanWrite, Store;
    StoreKeepsAccess(m, a, data, RING_IOVA, NUM_DESCRIPTORS * DESC_SIZE);
    StoreKeepsAccess(m, a, data, DATA_IOVA, NUM_DESCRIPTORS * 2 * PAGE);
  }

  lemma Granted(m: Memory, k: nat)
    requires HostMapped(m) && k < NUM_DESCRIPTORS
    ensures CanRead(m, RING_IOVA + k * DESC_SIZE, DESC_SIZE) && CanRead(m, SrcAt(k), PAGE)
    ensures CanRead(m, DstAt(k), PAGE) && CanWrite(m, DstAt(k), PAGE)
  {}

  /** A store outside the slot and the source buffer of j leaves j as posted. */
  lemma StoreKeepsPosted(m: Memory, a: nat, data: seq<byte>, j: nat, job: Job, interrupt: bool)
    requires j < NUM_DESCRIPTORS && job.Fits() && a + |data| <= |m.cells| && IsPosted(m, j, job, interrupt)
    requires Disjoint(a, |data|, RING_IOVA + j * DESC_SIZE, DESC_SIZE) && Disjoint(a, |data|, SrcAt(j), PAGE)
    ensures IsPosted(Store(m, a, data), j, job, interrupt)
  {
    hide Store, Decode, Read, JobDescriptor;
    ReadBesideStore(m, a, data, RING_IOVA + j * DESC_SIZE, DESC_SIZE);
    ReadBesideStore(m, a, data, SrcAt(j), |job.text|);
  }

  lemma PostKeepsPosted(m: Memory, k: nat, job: Job, interrupt: bool, j: nat, other: Job, flag: bool)
    requires HostMapped(m) && k < NUM_DESCRIPTORS && job.Fits()
    requires j < NUM_DESCRIPTORS && j != k && other.Fits() && IsPosted(m, j, other, flag)
    ensures IsPosted(PostOne(m, k, job, interrupt), j, other, flag)
  {
    hide Store, Encode, IsPosted, HostMapped, JobDescriptor, Slot;
    assert DATA_IOVA + NUM_DESCRIPTORS * 2 * PAGE <= |m.cells| by { MappedSize(m); }
    var m1 := Store(m, SrcAt(k), job.text);
    var zeros := seq(PAGE, _ => 0);
    StoreKeepsMapped(m, SrcAt(k), job.text);
    MappedSize(m1);
    var m2 := Store(m1, DstAt(k), zeros);
    StoreKeepsMapped(m1, DstAt(k), zeros);
    MappedSize(m2);
    StoreKeepsPosted(m, SrcAt(k), job.text, j, other, flag);
    StoreKeepsPosted(m1, DstAt(k), zeros, j, other, flag);
    StoreKeepsPosted(m2, RING_IOVA + k * DESC_SIZE, Encode(JobDescriptor(k, job.length, interrupt, Slot(m2, k).reserved)),
                     j, other, flag);
  }

  lemma MappedSize(m: Memory)
    requires HostMapped(m)
    ensures DATA_IOVA + NUM_DESCRIPTORS * 2 * PAGE <= |m.cells|
  {}

  lemma PostPosts(m: Memory, k: nat, job: Job, interrupt: bool)
    requires HostMapped(m) && k < NUM_DESCRIPTORS && job.Fits()
    ensures HostMapped(PostOne(m, k, job, interrupt)) && IsPosted(PostOne(m, k, job, interrupt), k, job, interrupt)
  {
    hide Store, Encode, Decode, HostMapped, JobDescriptor, Read, CanRead, CanWrite;
    MappedSize(m);
    var m1 := Store(m, SrcAt(k), job.text);
    var zeros := seq(PAGE, _ => 0);
    StoreKeepsMapped(m, SrcAt(k), job.text);
    MappedSize(m1);
    var m2 := Store(m1, DstAt(k), zeros);
    StoreKeepsMapped(m1, DstAt(k), zeros);
    MappedSize(m2);
    var d := JobDescriptor(k, job.length, interrupt, Slot(m2, k).reserved);
    StoreKeepsMapped(m2, RING_IOVA + k * DESC_SIZE, Encode(d));
    Granted(m, k);
    Granted(m2, k);
    CanReadPart(m, SrcAt(k), PAGE, |job.text|);
    ReadStored(m, SrcAt(k), job.text);
    ReadBesideStore(m1, DstAt(k), zeros, SrcAt(k), |job.text|);
    ReadBesideStore(m2, RING_IOVA + k * DESC_SIZE, Encode(d), SrcAt(k), |job.text|);
    ReadStored(m2, RING_IOVA + k * DESC_SIZE, Encode(d));
    DecodeEncode(d);
    ReservedField(k, job.length, interrupt, Slot(m2, k).reserved);
  }

  lemma ReservedField(k: nat, length: bv32, interrupt: bool, reserved: bv32)
    requires k < NUM_DESCRIPTORS
    ensures JobDescriptor(k, length, interrupt, reserved).reserved == reserved
  {}

  lemma CanReadPart(m: Memory, a: nat, n: nat, k: nat)
    requires CanRead(m, a, n) && k <= n
    ensures CanRead(m, a, k) && (CanWrite(m, a, n) ==> CanWrite(m, a, k))
  {}

  // ---------- From posted slots to a batch ----------

  /** The slot the test uses for its job i. */
  function JobSlot(start: nat, i: nat): nat {
    (start + i) % NUM_DESCRIPTORS
  }

  /** The first n jobs are posted from slot start on, interrupt requested on the last of all. */
  ghost predicate PostedUpTo(m: Memory, start: nat, jobs: seq<Job>, n: nat)
    requires n <= |jobs|
  {
    HostMapped(m) && forall i: nat | i < n :: IsPosted(m, JobSlot(start, i), jobs[i], i == |jobs| - 1)
  }

  lemma PostNext(m: Memory, start: nat, jobs: seq<Job>, n: nat)
    requires n < |jobs| <= NUM_DESCRIPTORS && (forall job | job in jobs :: job.Fits()) && PostedUpTo(m, start, jobs, n)
    ensures PostedUpTo(PostOne(m, JobSlot(start, n), jobs[n], n == |jobs| - 1), start, jobs, n + 1)
  {
    hide PostOne, IsPosted, HostMapped;
    MappedSize(m);
    var last := n == |jobs| - 1;
    PostPosts(m, JobSlot(start, n), jobs[n], last);
    forall i: nat | i < n
      ensures IsPosted(PostOne(m, JobSlot(start, n), jobs[n], last), JobSlot(start, i), jobs[i], i == |jobs| - 1)
    {
      ModDistinct(start + i, start + n, NUM_DESCRIPTORS);
      PostKeepsPosted(m, JobSlot(start, n), jobs[n], last, JobSlot(start, i), jobs[i], i == |jobs| - 1);
    }
  }

  function JobSlots(m: Memory, start: nat, n: nat): (ds: seq<Descriptor>)
    ensures |ds| == n
  {
    seq(n, i requires 0 <= i < n => Slot(m, JobSlot(start, i)))
  }

  lemma SlotIsSlotDesc(w: World, k: nat)
    requires w.ring.addr == RING_IOVA && k < NUM_DESCRIPTORS
    ensures SlotDesc(w, k) == Slot(w.mem, k)
  {
    hide Decode, Read;
    SmallMod(RING_IOVA + k * DESC_SIZE, TWO_TO_THE_64);
  }

  /** d moves a message of at most a page between the buffers of slot k. */
  predicate UsesPages(d: Descriptor, k: nat) {
    d.Src() == SrcAt(k) && d.Dst() == DstAt(k) && d.Len() <= PAGE
  }

  lemma JobPages(m: Memory, k: nat, job: Job, interrupt: bool)
    requires k < NUM_DESCRIPTORS && job.Fits() && IsPosted(m, k, job, interrupt)
    ensures var d := Slot(m, k);
            UsesPages(d, k) && d.Len() == |job.text| && d.WantsInterrupt() == interrupt && d.IsValid()
  {
    hide Slot, SrcAt, DstAt, JobDescriptor;
    JobFields(k, job.length, interrupt, Slot(m, k).reserved);
  }

  lemma PagesApart(d: Descriptor, e: Descriptor, j: nat, k: nat)
    requires UsesPages(d, j) && UsesPages(e, k) && j != k
    ensures Apart(d, e)
  {
    hide Descriptor.Src, Descriptor.Dst, Descriptor.Len;
  }

  lemma PagesMapped(r: Ring, m: Memory, d: Descriptor, k: nat)
    requires HostMapped(m) && k < NUM_DESCRIPTORS && UsesPages(d, k)
    requires r.addr == RING_IOVA && r.size == NUM_DESCRIPTORS
    ensures Buffers(r, m, d)
  {
    hide Descriptor.Src, Descriptor.Dst, Descriptor.Len, CanRead, CanWrite, HostMapped;
    Granted(m, k);
    CanReadPart(m, SrcAt(k), PAGE, d.Len());
    CanReadPart(m, DstAt(k), PAGE, d.Len());
  }

  lemma PostedIsBatch(w: World, start: nat, jobs: seq<Job>)
    requires |jobs| < NUM_DESCRIPTORS && (forall job | job in jobs :: job.Fits()) && PostedUpTo(w.mem, start, jobs, |jobs|)
    requires InRange(w.ring) && w.ring.addr == RING_IOVA && w.ring.size == NUM_DESCRIPTORS && w.ring.head == start
    ensures Batch(w, JobSlots(w.mem, start, |jobs|))
  {
    hide Slot, SlotDesc, IsPosted, HostMapped, Buffers, UsesPages, Mapped, Apart;
    var m := w.mem;
    var ds := JobSlots(m, start, |jobs|);
    RingPageMapped(w.ring, m);
    forall i: nat | i < |ds|
      ensures SlotDesc(w, BatchSlot(w.ring, i)) == ds[i] && ds[i].IsValid() && Buffers(w.ring, m, ds[i])
    {
      SlotIsSlotDesc(w, JobSlot(start, i));
      JobPages(m, JobSlot(start, i), jobs[i], i == |jobs| - 1);
      PagesMapped(w.ring, m, ds[i], JobSlot(start, i));
    }
    forall i: nat, j: nat | i < |ds| && j < |ds| && i != j
      ensures Apart(ds[i], ds[j])
    {
      JobPages(m, JobSlot(start, i), jobs[i], i == |jobs| - 1);
      JobPages(m, JobSlot(start, j), jobs[j], j == |jobs| - 1);
      ModDistinct(start + if i < j then i else j, start + if i < j then j else i, NUM_DESCRIPTORS);
      PagesApart(ds[i], ds[j], JobSlot(start, i), JobSlot(start, j));
    }
  }

  lemma RingPageMapped(r: Ring, m: Memory)
    requires HostMapped(m) && r.addr == RING_IOVA && r.size == NUM_DESCRIPTORS
    ensures Mapped(r, m)
  {}

  /** A batch with the interrupt on its last descriptor raises vector 1 once. */
  lemma {:induction false} OneSignal(ds: seq<Descriptor>)
    requires ds != [] && forall i: nat | i < |ds| :: ds[i].WantsInterrupt() == (i == |ds| - 1)
    ensures Signals(ds) == [RING_VECTOR]
    decreases |ds|
  {
    if |ds| > 1 {
      OneSignal(ds[1..]);
    }
  }

  // ---------- The test program ----------

  /** Job i has come through: its text stands in the destination buffer, its slot says COMPLETE. */
  ghost predicate CameThrough(m: Memory, k: nat, job: Job) {
    Read(m, DstAt(k), |job.text|) == job.text && Slot(m, k).status == STATUS_COMPLETE
  }

  const RING_WORD: bv32 := 0x100000
  const NUM_WORD: bv32 := 16

  lemma SetupWrites(w: World)
    ensures OnWrite(OnWrite(OnWrite(OnWrite(w, RING_ADDR_LO, RING_WORD), RING_ADDR_HI, 0), RING_SIZE, NUM_WORD), RING_CTRL, 1)
            == w.(ring := Ring(RING_IOVA, NUM_DESCRIPTORS, 0, 0, true))
  {
    assert AcceptableSize(NUM_WORD) && NUM_WORD as nat == NUM_DESCRIPTORS;
    assert WithHigh(WithLow(w.ring.addr, RING_WORD), 0) == RING_IOVA by { BothHalves(w.ring.addr, RING_WORD, 0); }
    hide AcceptableSize, WithHigh, WithLow, Process;
  }

  /** An enabled ring of the host's, with nothing pending, and all host pages mapped. */
  ghost predicate IdleRing(w: World) {
    w.ring == Ring(RING_IOVA, NUM_DESCRIPTORS, w.ring.head, w.ring.head, true) && w.ring.head < NUM_DESCRIPTORS && HostMapped(w.mem)
  }

  predicate AllFit(jobs: seq<Job>) {
    |jobs| <= NUM_DESCRIPTORS && forall job | job in jobs :: job.Fits()
  }

  lemma PostOneSize(m: Memory, k: nat, job: Job, interrupt: bool)
    requires k < NUM_DESCRIPTORS && job.Fits() && DATA_IOVA + NUM_DESCRIPTORS * 2 * PAGE <= |m.cells|
    ensures |PostOne(m, k, job, interrupt).cells| == |m.cells|
  {
    hide Encode, Slot, JobDescriptor;
  }

  /** Memory after the first n jobs have been posted from slot start on. */
  ghost function PostAll(m: Memory, start: nat, jobs: seq<Job>, n: nat): (r: Memory)
    requires AllFit(jobs) && n <= |jobs| && DATA_IOVA + NUM_DESCRIPTORS * 2 * PAGE <= |m.cells|
    ensures |r.cells| == |m.cells|
    decreases n
  {
    if n == 0 then m
    else
      var before := PostAll(m, start, jobs, n - 1);
      PostOneSize(before, JobSlot(start, n - 1), jobs[n - 1], n == |jobs|);
      PostOne(before, JobSlot(start, n - 1), jobs[n - 1], n == |jobs|)
  }

  lemma {:induction false} PostAllPosts(m: Memory, start: nat, jobs: seq<Job>, n: nat)
    requires AllFit(jobs) && n <= |jobs| && HostMapped(m)
    ensures DATA_IOVA + NUM_DESCRIPTORS * 2 * PAGE <= |m.cells|
    ensures PostedUpTo(PostAll(m, start, jobs, n), start, jobs, n)
    decreases n
  {
    hide HostMapped, IsPosted, PostOne;
    MappedSize(m);
    if n > 0 {
      PostAllPosts(m, start, jobs, n - 1);
      PostNext(PostAll(m, start, jobs, n - 1), start, jobs, n - 1);
    }
  }

  /** The world after a batch: all jobs posted from the head on, and one doorbell. */
  ghost function Batched(w: World, jobs: seq<Job>): World
    requires AllFit(jobs) && w.ring.size == NUM_DESCRIPTORS && DATA_IOVA + NUM_DESCRIPTORS * 2 * PAGE <= |w.mem.cells|
  {
    var start := w.ring.head;
    Doorbell(w.(mem := PostAll(w.mem, start, jobs, |jobs|)), JobSlot(start, |jobs|))
  }

  ghost predicate AllCameThrough(m: Memory, start: nat, jobs: seq<Job>) {
    forall i: nat | i < |jobs| :: CameThrough(m, JobSlot(start, i), jobs[i])
  }

  lemma SameAccessMapped(m: Memory, v: Memory)
    requires HostMapped(m) && SameAccess(m, v)
    ensures HostMapped(v)
  {
    assert forall i: nat :: Readable(v, i) == Readable(m, i);
    assert forall i: nat :: Writable(v, i) == Writable(m, i);
  }

  /** A doorbell on an enabled ring changes contents of memory only. */
  lemma DoorbellKeepsAccess(w: World, val: nat)
    requires InRange(w.ring) && w.ring.enabled
    ensures SameAccess(Doorbell(w, val).mem, w.mem) && Doorbell(w, val).msix == w.msix
  {
    hide Doorbell, Advance;
    DoorbellAdvances(w, val);
    AdvanceKeeps(w, Distance(w.ring.size, w.ring.head, val % w.ring.size));
  }

  /** A batch on an idle ring leaves it idle: up to 15 jobs all come through, with one interrupt for
      them all; 16 jobs ring the bell at the head and nothing is processed. */
  lemma BatchComesThrough(w: World, jobs: seq<Job>)
    requires IdleRing(w) && AllFit(jobs)
    ensures DATA_IOVA + NUM_DESCRIPTORS * 2 * PAGE <= |w.mem.cells|
    ensures var start, v := w.ring.head, Batched(w, jobs);
            && IdleRing(v) && v.ring.head == JobSlot(start, |jobs|) && v.msix == w.msix
            && (|jobs| < NUM_DESCRIPTORS ==> |v.done| == |w.done| + |jobs| && AllCameThrough(v.mem, start, jobs))
            && (0 < |jobs| < NUM_DESCRIPTORS && w.msix ==> v.raised == w.raised + [RING_VECTOR])
            && (jobs == [] || |jobs| == NUM_DESCRIPTORS ==> v.done == w.done && v.raised == w.raised)
  {
    hide HostMapped, PostedUpTo, Doorbell, CameThrough, SameAccess, PostAll;
    MappedSize(w.mem);
    var start := w.ring.head;
    PostAllPosts(w.mem, start, jobs, |jobs|);
    var p := w.(mem := PostAll(w.mem, start, jobs, |jobs|));
    PostedMapped(p.mem, start, jobs);
    DoorbellKeepsAccess(p, JobSlot(start, |jobs|));
    SameAccessBack(p.mem, Doorbell(p, JobSlot(start, |jobs|)).mem);
    SameAccessMapped(p.mem, Doorbell(p, JobSlot(start, |jobs|)).mem);
    if |jobs| < NUM_DESCRIPTORS {
      JobsComeThrough(p, jobs);
    } else {
      FullLapDoesNothing(p);
      AddSize(start, NUM_DESCRIPTORS);
      SmallMod(start, NUM_DESCRIPTORS);
    }
    if jobs == [] {
      SmallMod(start, NUM_DESCRIPTORS);
      NothingRung(p);
    }
  }

  lemma PostedMapped(m: Memory, start: nat, jobs: seq<Job>)
    requires PostedUpTo(m, start, jobs, |jobs|)
    ensures HostMapped(m)
  {}

  lemma SameAccessBack(m: Memory, v: Memory)
    requires SameAccess(v, m)
    ensures SameAccess(m, v)
  {}

  lemma NothingRung(w: World)
    requires InRange(w.ring) && w.ring.enabled && w.ring.head == w.ring.tail
    ensures Doorbell(w, w.ring.head) == w
  {
    SmallMod(w.ring.head, w.ring.size);
    hide ProcessOne;
  }

  // ---------- Any number of batches ----------

  ghost predicate Short(batches: seq<seq<Job>>) {
    forall jobs | jobs in batches :: AllFit(jobs) && |jobs| < NUM_DESCRIPTORS
  }

  /** How many jobs there are, and how many batches that have any. */
  function Jobs(batches: seq<seq<Job>>): nat {
    if batches == [] then 0 else |batches[0]| + Jobs(batches[1..])
  }

  function Interrupts(batches: seq<seq<Job>>): seq<nat> {
    if batches == [] then [] else (if batches[0] == [] then [] else [RING_VECTOR]) + Interrupts(batches[1..])
  }

  ghost function AfterBatches(w: World, batches: seq<seq<Job>>): World
    requires IdleRing(w) && Short(batches)
    decreases |batches|
  {
    if batches == [] then w
    else
      BatchComesThrough(w, batches[0]);
      AfterBatches(Batched(w, batches[0]), batches[1..])
  }

  /** Batch i came through when its turn came, in the slots after those of the batches before it. */
  ghost predicate BatchDelivered(w: World, batches: seq<seq<Job>>, i: nat)
    requires IdleRing(w) && Short(batches) && i < |batches|
  {
    AllCameThrough(AfterBatches(w, batches[..i + 1]).mem, JobSlot(w.ring.head, Jobs(batches[..i])), batches[i])
  }

  lemma {:induction false} BatchesTogether(w: World, batches: seq<seq<Job>>)
    requires IdleRing(w) && Short(batches)
    ensures var v := AfterBatches(w, batches);
            && IdleRing(v) && v.ring.head == JobSlot(w.ring.head, Jobs(batches)) && v.msix == w.msix
            && |v.done| == |w.done| + Jobs(batches)
            && (w.msix ==> v.raised == w.raised + Interrupts(batches))
    decreases |batches|
  {
    hide IdleRing, Batched, AllCameThrough, AllFit;
    IdleHead(w);
    if batches == [] {
      SmallMod(w.ring.head, NUM_DESCRIPTORS);
    } else {
      var first, rest := batches[0], batches[1..];
      BatchComesThrough(w, first);
      BatchesTogether(Batched(w, first), rest);
      AddMod(w.ring.head + |first|, Jobs(rest), NUM_DESCRIPTORS);
    }
  }

  lemma {:induction false} BatchDelivers(w: World, batches: seq<seq<Job>>, i: nat)
    requires IdleRing(w) && Short(batches) && i < |batches|
    ensures BatchDelivered(w, batches, i)
    decreases |batches|
  {
    hide IdleRing, Batched, AllCameThrough, AllFit, BatchDelivered;
    IdleHead(w);
    BatchComesThrough(w, batches[0]);
    if i == 0 {
      OneBatch(w, batches);
    } else {
      var u, rest := Batched(w, batches[0]), batches[1..];
      BatchDelivers(u, rest, i - 1);
      LaterBatch(w, batches, u, rest, i);
    }
  }

  /** Batches of up to 15 jobs each, however many and however often they go round the ring: each comes
      through, the head stands after the last job, and every batch that had jobs raised vector 1 once. */
  lemma BatchesComeThrough(w: World, batches: seq<seq<Job>>)
    requires IdleRing(w) && Short(batches)
    ensures var v := AfterBatches(w, batches);
            && IdleRing(v) && v.ring.head == JobSlot(w.ring.head, Jobs(batches)) && v.msix == w.msix
            && |v.done| == |w.done| + Jobs(batches)
            && (w.msix ==> v.raised == w.raised + Interrupts(batches))
            && forall i: nat | i < |batches| :: BatchDelivered(w, batches, i)
  {
    hide IdleRing, AfterBatches, BatchDelivered, Short, JobSlot;
    BatchesTogether(w, batches);
    forall i: nat | i < |batches|
      ensures BatchDelivered(w, batches, i)
    {
      BatchDelivers(w, batches, i);
    }
  }

  lemma IdleHead(w: World)
    requires IdleRing(w)
    ensures w.ring.head < NUM_DESCRIPTORS && w.ring.size == NUM_DESCRIPTORS && DATA_IOVA + NUM_DESCRIPTORS * 2 * PAGE <= |w.mem.cells|
  {
    MappedSize(w.mem);
    hide HostMapped;
  }

  lemma OneBatch(w: World, batches: seq<seq<Job>>)
    requires IdleRing(w) && Short(batches) && batches != []
    ensures w.ring.size == NUM_DESCRIPTORS && DATA_IOVA + NUM_DESCRIPTORS * 2 * PAGE <= |w.mem.cells|
    ensures AllCameThrough(Batched(w, batches[0]).mem, w.ring.head, batches[0]) ==> BatchDelivered(w, batches, 0)
  {
    hide IdleRing, Batched, AllCameThrough, AllFit;
    IdleHead(w);
    assert batches[..0] == [] && batches[..0 + 1][0] == batches[0] && batches[..0 + 1][1..] == [];
    SmallMod(w.ring.head, NUM_DESCRIPTORS);
    BatchComesThrough(w, batches[0]);
    NoBatches(Batched(w, batches[0]));
  }

  lemma NoBatches(w: World)
    requires IdleRing(w)
    ensures AfterBatches(w, []) == w
  {}

  lemma LaterBatch(w: World, batches: seq<seq<Job>>, u: World, rest: seq<seq<Job>>, i: nat)
    requires IdleRing(w) && Short(batches) && IdleRing(u) && Short(rest) && 0 < i < |batches| && rest == batches[1..]
    requires w.ring.size == NUM_DESCRIPTORS && DATA_IOVA + NUM_DESCRIPTORS * 2 * PAGE <= |w.mem.cells|
    requires AllFit(batches[0]) && u == Batched(w, batches[0]) && BatchDelivered(u, rest, i - 1)
    ensures BatchDelivered(w, batches, i)
  {
    hide IdleRing, Batched, AllCameThrough, AllFit;
    var first := batches[0];
    BatchComesThrough(w, first);
    assert batches[..i + 1][1..] == rest[..i] && batches[..i][1..] == rest[..i - 1];
    assert batches[..i + 1][0] == first && batches[..i][0] == first && batches[i] == rest[i - 1];
    AddMod(w.ring.head + |first|, Jobs(rest[..i - 1]), NUM_DESCRIPTORS);
  }

  class RingDriver {
    const dev: RingEngine

    constructor (dev: RingEngine)
      ensures this.dev == dev
    {
      this.dev := dev;
    }

    /** The register writes of setup_ring. */
    method SetupRing()
      modifies dev, dev.bus`mem, dev.bus`raised
      ensures dev.State() == old(dev.State()).(ring := dev.State().ring)
      ensures dev.State().ring == Ring(RING_IOVA, NUM_DESCRIPTORS, 0, 0, true)
    {
      hide RingDevice.OnWrite;
      SetupWrites(dev.State());
      dev.WriteRegister(RING_ADDR_LO, RING_WORD);
      dev.WriteRegister(RING_ADDR_HI, 0);
      dev.WriteRegister(RING_SIZE, NUM_WORD);
      dev.WriteRegister(RING_CTRL, 1);
    }

    /** The filling loop of test_batch_descriptors. */
    method PostJobs(start: nat, jobs: seq<Job>)
      requires AllFit(jobs) && HostMapped(dev.bus.mem)
      modifies dev.bus`mem
      ensures DATA_IOVA + NUM_DESCRIPTORS * 2 * PAGE <= |old(dev.bus.mem).cells|
      ensures dev.bus.mem == PostAll(old(dev.bus.mem), start, jobs, |jobs|)
      ensures PostedUpTo(dev.bus.mem, start, jobs, |jobs|)
    {
      hide PostOne, IsPosted, HostMapped;
      MappedSize(dev.bus.mem);
      for i := 0 to |jobs|
        invariant dev.bus.mem == PostAll(old(dev.bus.mem), start, jobs, i)
      {
        FillSlot(JobSlot(start, i), jobs[i], i == |jobs| - 1);
      }
      PostAllPosts(old(dev.bus.mem), start, jobs, |jobs|);
    }

    /** The body of that loop: source, cleared destination, descriptor. */
    method FillSlot(k: nat, job: Job, interrupt: bool)
      requires k < NUM_DESCRIPTORS && job.Fits() && DATA_IOVA + NUM_DESCRIPTORS * 2 * PAGE <= |dev.bus.mem.cells|
      modifies dev.bus`mem
      ensures dev.bus.mem == PostOne(old(dev.bus.mem), k, job, interrupt)
    {
      hide Encode, Slot, JobDescriptor;
      dev.bus.HostStore(SrcAt(k), job.text);
      dev.bus.HostStore(DstAt(k), seq(PAGE, _ => 0));
      var d := JobDescriptor(k, job.length, interrupt, Slot(dev.bus.mem, k).reserved);
      dev.bus.HostStore(RING_IOVA + k * DESC_SIZE, Encode(d));
    }

    /** test_batch_descriptors for any number of jobs up to the ring size, from wherever the head
        stands. Up to 15 jobs all come through, with one interrupt, requested by the last; 16 jobs
        ring the bell at the head and nothing is processed. Either way the ring is ready again. */
    method RunBatch(jobs: seq<Job>)
      requires AllFit(jobs) && IdleRing(dev.State())
      modifies dev, dev.bus`mem, dev.bus`raised
      ensures DATA_IOVA + NUM_DESCRIPTORS * 2 * PAGE <= |old(dev.bus.mem).cells|
      ensures IdleRing(dev.State()) && dev.State() == Batched(old(dev.State()), jobs)
      ensures dev.ringHead == JobSlot(old(dev.ringHead), |jobs|)
      ensures |jobs| < NUM_DESCRIPTORS ==>
                |dev.done| == |old(dev.done)| + |jobs| && AllCameThrough(dev.bus.mem, old(dev.ringHead), jobs)
      ensures |jobs| == NUM_DESCRIPTORS ==> dev.done == old(dev.done) && dev.bus.raised == old(dev.bus.raised)
      ensures 0 < |jobs| < NUM_DESCRIPTORS && dev.bus.msixEnabled ==> dev.bus.raised == old(dev.bus.raised) + [RING_VECTOR]
    {
      hide HostMapped, PostedUpTo, PostAll, Doorbell, AllCameThrough;
      var start := dev.ringHead;
      BatchComesThrough(dev.State(), jobs);
      PostJobs(start, jobs);
      dev.WriteRegister(RING_TAIL, SlotWord(JobSlot(start, |jobs|)));
    }

    /** The test program: set up, one descriptor, then a batch. single is memory between the two. */
    method RunTests(first: Job, jobs: seq<Job>) returns (ghost single: Memory)
      requires first.Fits() && AllFit(jobs) && |jobs| < NUM_DESCRIPTORS && HostMapped(dev.bus.mem)
      modifies dev, dev.bus`mem, dev.bus`raised
      ensures CameThrough(single, 0, first) && AllCameThrough(dev.bus.mem, 1, jobs)
      ensures IdleRing(dev.State()) && |dev.done| == |old(dev.done)| + 1 + |jobs|
      ensures dev.bus.msixEnabled && jobs != [] ==> dev.bus.raised == old(dev.bus.raised) + [RING_VECTOR, RING_VECTOR]
    {
      hide HostMapped, CameThrough, Batched;
      SetupRing();
      RunBatch([first]);
      single := dev.bus.mem;
      assert JobSlot(0, 0) == 0 && JobSlot(0, 1) == 1;
      assert CameThrough(single, JobSlot(0, 0), [first][0]);
      RunBatch(jobs);
    }
  }

  /** One doorbell for posted jobs, on an idle enabled ring. */
  lemma JobsComeThrough(w: World, jobs: seq<Job>)
    requires |jobs| < NUM_DESCRIPTORS && (forall job | job in jobs :: job.Fits())
    requires w.ring == Ring(RING_IOVA, NUM_DESCRIPTORS, w.ring.head, w.ring.head, true) && w.ring.head < NUM_DESCRIPTORS
    requires PostedUpTo(w.mem, w.ring.head, jobs, |jobs|)
    ensures var start := w.ring.head;
            var v := Doorbell(w, JobSlot(start, |jobs|));
            && v.ring == Ring(RING_IOVA, NUM_DESCRIPTORS, JobSlot(start, |jobs|), JobSlot(start, |jobs|), true)
            && |v.done| == |w.done| + |jobs|
            && (forall i: nat | i < |jobs| :: CameThrough(v.mem, JobSlot(start, i), jobs[i]))
            && (jobs != [] && w.msix ==> v.raised == w.raised + [RING_VECTOR])
  {
    hide HostMapped, Doorbell, Batch, IsPosted, UsesPages, Slot, SlotDesc, WorkedOff, CameThrough;
    var start := w.ring.head;
    var ds := JobSlots(w.mem, start, |jobs|);
    PostedIsBatch(w, start, jobs);
    BatchCompletes(w, ds);
    var v := Doorbell(w, JobSlot(start, |jobs|));
    forall i: nat | i < |jobs|
      ensures CameThrough(v.mem, JobSlot(start, i), jobs[i]) && ds[i].WantsInterrupt() == (i == |jobs| - 1)
    {
      JobPages(w.mem, JobSlot(start, i), jobs[i], i == |jobs| - 1);
      assert WorkedOff(w, v, ds[i], BatchSlot(w.ring, i));
      JobCameThrough(w, v, JobSlot(start, i), jobs[i], i == |jobs| - 1);
    }
    if jobs != [] {
      OneSignal(ds);
    }
  }

  lemma JobCameThrough(w: World, v: World, k: nat, job: Job, interrupt: bool)
    requires k < NUM_DESCRIPTORS && job.Fits() && IsPosted(w.mem, k, job, interrupt)
    requires v.ring.addr == RING_IOVA && WorkedOff(w, v, Slot(w.mem, k), k)
    ensures CameThrough(v.mem, k, job)
  {
    hide Slot, SlotDesc, JobDescriptor, Descriptor.Src, Descriptor.Dst, Descriptor.Len, Read;
    JobPages(w.mem, k, job, interrupt);
    SlotIsSlotDesc(v, k);
  }
}
