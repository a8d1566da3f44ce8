/** BAR4, the descriptor-ring DMA engine: registers, one descriptor, the capped drain loop. */
module RingDevice {
  import opened Bytes
  import opened Numbers
  import opened GuestMemory

  const RING_ADDR_LO := 0x08
  const RING_ADDR_HI := 0x0C
  const RING_SIZE := 0x10
  const RING_TAIL := 0x18
  const RING_CTRL := 0x1C

  const STATUS_PENDING: bv32 := 0
  const STATUS_COMPLETE: bv32 := 1
  const STATUS_ERROR: bv32 := 2
  const STATUS_OFFSET := 24
  const DESC_SIZE := 32
  const RING_VECTOR := 1

  // ---------- Descriptors ----------

  datatype Descriptor = Descriptor(srcLo: bv32, srcHi: bv32, dstLo: bv32, dstHi: bv32,
                                   length: bv32, flags: bv32, status: bv32, reserved: bv32)
  {
    function Src(): nat {
      srcHi as nat * TWO_TO_THE_32 + srcLo as nat
    }

    function Dst(): nat {
      dstHi as nat * TWO_TO_THE_32 + dstLo as nat
    }

    function Len(): nat {
      TransferLength(length as nat)
    }

    predicate IsValid() {
      flags & 1 != 0
    }

    predicate WantsInterrupt() {
      flags & 2 != 0
    }
  }

  /** The flags by number: bit 0 marks the descriptor valid, bit 1 asks for an interrupt. */
  lemma FlagBits(d: Descriptor)
    ensures d.IsValid() <==> d.flags as nat % 2 == 1
    ensures d.WantsInterrupt() <==> d.flags as nat % 4 >= 2
  {
    LowBit(d.flags);
    SecondBit(d.flags);
  }

  function Encode(d: Descriptor): (s: seq<byte>)
    ensures |s| == DESC_SIZE
  {
    FourWords(d.srcLo, d.srcHi, d.dstLo, d.dstHi) + FourWords(d.length, d.flags, d.status, d.reserved)
  }

  function Decode(s: seq<byte>): Descriptor
    requires |s| == DESC_SIZE
  {
    Descriptor(Value32(s[0..4]), Value32(s[4..8]), Value32(s[8..12]), Value32(s[12..16]),
               Value32(s[16..20]), Value32(s[20..24]), Value32(s[24..28]), Value32(s[28..32]))
  }

  lemma DecodeEncode(d: Descriptor)
    ensures Decode(Encode(d)) == d
  {
    hide Value32, FourWords;
    FourWordsFields(d.srcLo, d.srcHi, d.dstLo, d.dstHi);
    FourWordsFields(d.length, d.flags, d.status, d.reserved);
    var s := Encode(d);
    var low, high := FourWords(d.srcLo, d.srcHi, d.dstLo, d.dstHi), FourWords(d.length, d.flags, d.status, d.reserved);
    assert s[0..4] == low[0..4] && s[4..8] == low[4..8] && s[8..12] == low[8..12] && s[12..16] == low[12..16];
    assert s[16..20] == high[0..4] && s[20..24] == high[4..8] && s[24..28] == high[8..12] && s[28..32] == high[12..16];
  }

  // ---------- The engine as a value ----------

  datatype Ring = Ring(addr: nat, size: nat, head: nat, tail: nat, enabled: bool)

  /** What the engine did with one descriptor: the slot, the descriptor as read, the status. */
  datatype Completion = Completion(slot: nat, desc: Descriptor, status: bv32)

  /** The engine, what it acts on, and the history of descriptors it has consumed. */
  datatype World = World(ring: Ring, mem: Memory, msix: bool, raised: seq<nat>, done: seq<Completion>)

  function SlotAddr(r: Ring, k: nat): nat {
    (r.addr + k * DESC_SIZE) % TWO_TO_THE_64
  }

  function StatusAddr(r: Ring, k: nat): nat {
    (SlotAddr(r, k) + STATUS_OFFSET) % TWO_TO_THE_64
  }

  function SlotDesc(w: World, k: nat): Descriptor {
    Decode(Read(w.mem, SlotAddr(w.ring, k), DESC_SIZE))
  }

  /** The descriptor at the head cannot be read or is not marked valid. */
  predicate Stalled(w: World) {
    !CanRead(w.mem, SlotAddr(w.ring, w.ring.head), DESC_SIZE) || !SlotDesc(w, w.ring.head).IsValid()
  }

  function Outcome(m: Memory, d: Descriptor): bv32 {
    if CanRead(m, d.Src(), d.Len()) then STATUS_COMPLETE else STATUS_ERROR
  }

  function Transferred(m: Memory, d: Descriptor): Memory {
    if CanRead(m, d.Src(), d.Len()) then Write(m, d.Dst(), Read(m, d.Src(), d.Len())) else m
  }

  /** One call of edu_ring_process_one. */
  function ProcessOne(w: World): World
    requires w.ring.size > 0
  {
    if Stalled(w) then w
    else
      var r := w.ring;
      var d := SlotDesc(w, r.head);
      var status := Outcome(w.mem, d);
      w.(ring := r.(head := (r.head + 1) % r.size),
         mem := Write(Transferred(w.mem, d), StatusAddr(r, r.head), Bytes32(status)),
         raised := if d.WantsInterrupt() && w.msix then w.raised + [RING_VECTOR] else w.raised,
         done := w.done + [Completion(r.head, d, status)])
  }

  /** The drain loop with n turns left. */
  function Drain(w: World, n: nat): World
    requires w.ring.size > 0
    decreases n
  {
    if n == 0 || w.ring.head == w.ring.tail then w else Drain(ProcessOne(w), n - 1)
  }

  function Process(w: World): World {
    if !w.ring.enabled || w.ring.size == 0 then w else Drain(w, w.ring.size)
  }

  predicate PowerOfTwo(val: bv32) {
    val & (val - 1) == 0
  }

  predicate AcceptableSize(val: bv32) {
    0 < val <= 256 && PowerOfTwo(val)
  }

  /** A write to the tail register, which divides by the size. */
  function Doorbell(w: World, val: nat): World
    requires w.ring.size > 0
  {
    var v := w.(ring := w.ring.(tail := val % w.ring.size));
    if v.ring.enabled then Process(v) else v
  }

  function Control(w: World, enable: bool): World {
    var v := w.(ring := w.ring.(enabled := enable));
    if enable && v.ring.head != v.ring.tail then Process(v) else v
  }

  function OnWrite(w: World, addr: nat, val: bv32): World
    requires addr == RING_TAIL ==> w.ring.size > 0
  {
    var r := w.ring;
    if addr == RING_ADDR_LO then w.(ring := r.(addr := WithLow(r.addr, val)))
    else if addr == RING_ADDR_HI then w.(ring := r.(addr := WithHigh(r.addr, val)))
    else if addr == RING_SIZE then
      if AcceptableSize(val) then w.(ring := r.(size := val as nat, head := 0, tail := 0)) else w
    else if addr == RING_TAIL then Doorbell(w, val as nat)
    else if addr == RING_CTRL then Control(w, val & 1 != 0)
    else w
  }

  // ---------- The engine as the source keeps it ----------

  class RingEngine {
    const bus: GuestBus
    var ringAddr: nat
    var ringSize: nat
    var ringHead: nat
    var ringTail: nat
    var ringEnabled: bool
    ghost var done: seq<Completion>

    ghost function State(): World
      reads this, bus
    {
      World(Ring(ringAddr, ringSize, ringHead, ringTail, ringEnabled), bus.mem, bus.msixEnabled, bus.raised, done)
    }

    constructor (bus: GuestBus)
      ensures this.bus == bus
      ensures State() == World(Ring(0, 0, 0, 0, false), bus.mem, bus.msixEnabled, bus.raised, [])
    {
      this.bus := bus;
      ringAddr, ringSize, ringHead, ringTail, ringEnabled := 0, 0, 0, 0, false;
      done := [];
    }

    method ProcessOneDescriptor()
      requires ringSize > 0
      modifies this, bus`mem, bus`raised
      ensures State() == ProcessOne(old(State()))
    {
      hide Write, Read, CanRead, CanWrite, Decode, Bytes32;
      ghost var w := State();
      var descAddr := (ringAddr + ringHead * DESC_SIZE) % TWO_TO_THE_64;
      var ok, bytes := bus.DmaRead(descAddr, DESC_SIZE);
      if !ok {
        return;
      }
      var desc := Decode(bytes);
      if !desc.IsValid() {
        return;
      }
      var data;
      ok, data := bus.DmaRead(desc.Src(), desc.Len());
      var status := STATUS_COMPLETE;
      if !ok {
        status := STATUS_ERROR;
      } else {
        ok := bus.DmaWrite(desc.Dst(), data);
      }
      ok := bus.DmaWrite((descAddr + STATUS_OFFSET) % TWO_TO_THE_64, Bytes32(status));
      done := done + [Completion(ringHead, desc, status)];
      ringHead := (ringHead + 1) % ringSize;
      if desc.WantsInterrupt() {
        bus.Notify(RING_VECTOR);
      }
    }

    method ProcessRing()
      modifies this, bus`mem, bus`raised
      ensures State() == Process(old(State()))
    {
      hide ProcessOne, Drain, SameAccess;
      if !ringEnabled || ringSize == 0 {
        return;
      }
      ghost var start := State();
      var count := 0;
      while ringHead != ringTail && count < ringSize
        invariant 0 <= count <= ringSize == start.ring.size && ringSize > 0
        invariant Drain(State(), ringSize - count) == Drain(start, start.ring.size)
        decreases ringSize - count
      {
        ghost var w := State();
        DrainTurn(w, ringSize - count);
        ProcessOneKeeps(w);
        ProcessOneDescriptor();
        count := count + 1;
      }
      DrainTurn(State(), ringSize - count);
    }

    method RingDoorbell(val: nat)
      requires ringSize > 0
      modifies this, bus`mem, bus`raised
      ensures State() == Doorbell(old(State()), val)
    {
      hide Process;
      ringTail := val % ringSize;
      if ringEnabled {
        ProcessRing();
      }
    }

    method SetControl(enable: bool)
      modifies this, bus`mem, bus`raised
      ensures State() == Control(old(State()), enable)
    {
      hide Process;
      ringEnabled := enable;
      if ringEnabled && ringHead != ringTail {
        ProcessRing();
      }
    }

    /** edu_ring_write. */
    method WriteRegister(addr: nat, val: bv32)
      requires addr == RING_TAIL ==> ringSize > 0
      modifies this, bus`mem, bus`raised
      ensures State() == OnWrite(old(State()), addr, val)
    {
      hide Doorbell, Control, AcceptableSize, WithLow, WithHigh;
      if addr == RING_ADDR_LO {
        ringAddr := WithLow(ringAddr, val);
      } else if addr == RING_ADDR_HI {
        ringAddr := WithHigh(ringAddr, val);
      } else if addr == RING_SIZE {
        if AcceptableSize(val) {
          ringSize, ringHead, ringTail := val as nat, 0, 0;
        }
      } else if addr == RING_TAIL {
        RingDoorbell(val as nat);
      } else if addr == RING_CTRL {
        SetControl(val & 1 != 0);
      }
    }
  }

  lemma DrainTurn(w: World, n: nat)
    requires w.ring.size > 0
    ensures n == 0 || w.ring.head == w.ring.tail ==> Drain(w, n) == w
    ensures n > 0 && w.ring.head != w.ring.tail ==> Drain(w, n) == Drain(ProcessOne(w), n - 1)
  {
    hide ProcessOne;
  }

  lemma ProcessOneKeeps(w: World)
    requires w.ring.size > 0
    ensures var v := ProcessOne(w);
            && v.ring == w.ring.(head := v.ring.head) && v.msix == w.msix && SameAccess(v.mem, w.mem)
            && (w.ring.head < w.ring.size ==> v.ring.head < w.ring.size)
  {
    hide Stalled, SlotDesc, Bytes32;
  }
}
