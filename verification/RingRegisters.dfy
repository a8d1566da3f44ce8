/** The ring engine by offset and number: what a turn makes of the 32 bytes of a slot, and what
    each register write does. */
module RingRegisters {
  import opened Bytes
  import opened Numbers
  import opened GuestMemory
  import opened RingDevice
  import opened RingRuns

  // ---------- A slot in bytes ----------

  function SourceOf(s: seq<byte>): nat
    requires |s| == 32
  {
    LittleEndian(s[0..8])
  }

  function DestinationOf(s: seq<byte>): nat
    requires |s| == 32
  {
    LittleEndian(s[8..16])
  }

  /** The transfer is cut to 4096 bytes. */
  function LengthOf(s: seq<byte>): nat
    requires |s| == 32
  {
    var n := LittleEndian(s[16..20]);
    if n > 4096 then 4096 else n
  }

  /** Every field of a decoded slot is the number of its bytes, low byte first; the two flags are
      the two low bits of byte 20. */
  lemma SlotFields(s: seq<byte>)
    requires |s| == 32
    ensures var d := Decode(s);
            && d.Src() == SourceOf(s) && d.Dst() == DestinationOf(s) && d.Len() == LengthOf(s)
            && (d.IsValid() <==> s[20] as nat % 2 == 1)
            && (d.WantsInterrupt() <==> s[20] as nat % 4 >= 2)
            && d.status as nat == LittleEndian(s[24..28])
  {
    AddressFields(s);
    FlagFields(s);
    LengthField(s);
    hide Decode, Descriptor.Src, Descriptor.Dst, Descriptor.Len, Descriptor.IsValid, Descriptor.WantsInterrupt, LittleEndian;
  }

  lemma AddressFields(s: seq<byte>)
    requires |s| == 32
    ensures Decode(s).Src() == SourceOf(s) && Decode(s).Dst() == DestinationOf(s)
  {
    hide Value32, LittleEndian;
    TwoWords(s[0..8]);
    TwoWords(s[8..16]);
    assert s[0..8][0..4] == s[0..4] && s[0..8][4..8] == s[4..8];
    assert s[8..16][0..4] == s[8..12] && s[8..16][4..8] == s[12..16];
  }

  lemma LengthField(s: seq<byte>)
    requires |s| == 32
    ensures Decode(s).Len() == LengthOf(s) && Decode(s).status as nat == LittleEndian(s[24..28])
  {
    hide Value32, LittleEndian;
    Value32Number(s[16..20]);
    Value32Number(s[24..28]);
  }

  lemma FlagFields(s: seq<byte>)
    requires |s| == 32
    ensures Decode(s).IsValid() <==> s[20] as nat % 2 == 1
    ensures Decode(s).WantsInterrupt() <==> s[20] as nat % 4 >= 2
  {
    FlagBits(Decode(s));
    hide Value32, LittleEndian, Descriptor.IsValid, Descriptor.WantsInterrupt;
    LowestByte(s[20..24]);
  }

  // ---------- A turn in bytes ----------

  /** One call of edu_ring_process_one, in the bytes of the slot at the head: nothing happens if
      and only if the slot cannot be read or byte 20 is even; otherwise the source bytes go to the
      destination if all of them can be read, status 1 or 2 goes to bytes 24 to 27, the head
      moves on, and vector 1 is raised if bit 1 of byte 20 asks for it. */
  lemma TurnByBytes(w: World)
    requires w.ring.size > 0
    ensures var a := (w.ring.addr + 32 * w.ring.head) % 0x1_0000_0000_0000_0000;
            var s, v := Read(w.mem, a, 32), ProcessOne(w);
            && (v == w <==> !CanRead(w.mem, a, 32) || s[20] as nat % 2 == 0)
            && (CanRead(w.mem, a, 32) && s[20] as nat % 2 == 1 ==>
                  var src, dst, n := SourceOf(s), DestinationOf(s), LengthOf(s);
                  var ok := CanRead(w.mem, src, n);
                  && v.ring == w.ring.(head := (w.ring.head + 1) % w.ring.size)
                  && v.mem == Write(if ok then Write(w.mem, dst, Read(w.mem, src, n)) else w.mem,
                                    (a + 24) % 0x1_0000_0000_0000_0000, if ok then [1, 0, 0, 0] else [2, 0, 0, 0])
                  && v.raised == (if s[20] as nat % 4 >= 2 && w.msix then w.raised + [1] else w.raised)
                  && |v.done| == |w.done| + 1)
  {
    hide Read, Write, CanRead, Bytes32, Decode, SourceOf, DestinationOf, LengthOf, ProcessOne, Outcome, Transferred,
      Descriptor.Src, Descriptor.Dst, Descriptor.Len, Descriptor.IsValid, Descriptor.WantsInterrupt;
    var a := (w.ring.addr + 32 * w.ring.head) % 0x1_0000_0000_0000_0000;
    assert a == SlotAddr(w.ring, w.ring.head);
    SlotFields(Read(w.mem, a, 32));
    TurnParts(w);
  }

  lemma TurnParts(w: World)
    requires w.ring.size > 0
    ensures var r, v, d := w.ring, ProcessOne(w), SlotDesc(w, w.ring.head);
            var ok := CanRead(w.mem, d.Src(), d.Len());
            && (v == w <==> Stalled(w))
            && (!Stalled(w) ==>
                  && v.ring == r.(head := (r.head + 1) % r.size)
                  && v.mem == Write(if ok then Write(w.mem, d.Dst(), Read(w.mem, d.Src(), d.Len())) else w.mem,
                                    (SlotAddr(r, r.head) + 24) % 0x1_0000_0000_0000_0000, if ok then [1, 0, 0, 0] else [2, 0, 0, 0])
                  && v.raised == (if d.WantsInterrupt() && w.msix then w.raised + [1] else w.raised)
                  && |v.done| == |w.done| + 1)
  {
    StatusBytes();
    hide Stalled, SlotDesc, SlotAddr, Read, Write, CanRead, Bytes32,
      Descriptor.Src, Descriptor.Dst, Descriptor.Len, Descriptor.WantsInterrupt;
  }

  lemma StatusBytes()
    ensures Bytes32(STATUS_COMPLETE) == [1, 0, 0, 0] && Bytes32(STATUS_ERROR) == [2, 0, 0, 0]
  {}

  // ---------- Register writes ----------

  /** Each half of the ring address is set by its own write. */
  lemma AddressWrites(w: World, val: bv32)
    ensures var r, k := w.ring, val as nat;
            && OnWrite(w, 0x08, val) == w.(ring := r.(addr := r.addr - r.addr % 0x1_0000_0000 + k))
            && OnWrite(w, 0x0C, val) == w.(ring := r.(addr := k * 0x1_0000_0000 + r.addr % 0x1_0000_0000))
  {
    hide AcceptableSize, Doorbell, Control;
  }

  /** A size is taken if it is a power of two up to 256, and empties the ring; the doorbell takes
      the tail modulo the size and drains an enabled ring; bit 0 of the control register alone
      enables, and drains a ring that is not empty; other offsets do nothing. */
  lemma ControlWrites(w: World, a: nat, val: bv32)
    requires a == 0x18 ==> w.ring.size > 0
    ensures var r, k, v := w.ring, val as nat, OnWrite(w, a, val);
            && (a == 0x10 ==>
                  v == if k in {1, 2, 4, 8, 16, 32, 64, 128, 256} then w.(ring := r.(size := k, head := 0, tail := 0)) else w)
            && (a == 0x18 ==>
                  var u := w.(ring := r.(tail := k % r.size));
                  v == if r.enabled then Drain(u, r.size) else u)
            && (a == 0x1C ==>
                  var u := w.(ring := r.(enabled := k % 2 == 1));
                  v == if k % 2 == 1 && r.head != r.tail && r.size > 0 then Drain(u, r.size) else u)
            && (a !in {0x08, 0x0C, 0x10, 0x18, 0x1C} ==> v == w)
  {
    hide AcceptableSize, WithLow, WithHigh, Drain;
    LowBit(val);
    SizeNumber(val);
  }

  lemma WordOf(val: bv32, n: nat)
    requires val as nat == n
    ensures n < 0x1_0000_0000 && val == n as bv32
  {}

  lemma SizeNumber(val: bv32)
    ensures AcceptableSize(val) <==> val as nat in {1, 2, 4, 8, 16, 32, 64, 128, 256}
  {
    AcceptableSizes(val);
    hide AcceptableSize;
    if val as nat in {1, 2, 4, 8, 16, 32, 64, 128, 256} {
      WordOf(val, val as nat);
    }
  }
}
