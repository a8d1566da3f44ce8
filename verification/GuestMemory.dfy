/** Guest memory as a device reaches it: bytes behind an IOMMU that grants reading and writing
    address by address. A DMA transfer succeeds when every byte of its range is granted; the
    bytes of a failed read that are not granted come out as whatever the bus floats to. */
module GuestMemory {
  import opened Bytes

  datatype Memory = Memory(cells: seq<byte>, noRead: set<nat>, noWrite: set<nat>, floating: nat -> byte)

  predicate Readable(m: Memory, a: nat) {
    a < |m.cells| && a !in m.noRead
  }

  predicate Writable(m: Memory, a: nat) {
    a < |m.cells| && a !in m.noWrite
  }

  predicate CanRead(m: Memory, a: nat, n: nat) {
    forall i: nat | a <= i < a + n :: Readable(m, i)
  }

  predicate CanWrite(m: Memory, a: nat, n: nat) {
    forall i: nat | a <= i < a + n :: Writable(m, i)
  }

  function ByteAt(m: Memory, a: nat): byte {
    if Readable(m, a) then m.cells[a] else m.floating(a)
  }

  /** The bytes pci_dma_read delivers. */
  function Read(m: Memory, a: nat, n: nat): (data: seq<byte>)
    ensures |data| == n
  {
    seq(n, i requires 0 <= i < n => ByteAt(m, a + i))
  }

  /** The memory after pci_dma_write, which stores the bytes it is granted. */
  function Write(m: Memory, a: nat, data: seq<byte>): Memory {
    m.(cells := seq(|m.cells|, i requires 0 <= i < |m.cells| =>
                      if a <= i < a + |data| && Writable(m, i) then data[i - a] else m.cells[i]))
  }

  /** A store by the host processor, which does not pass the IOMMU. */
  function Store(m: Memory, a: nat, data: seq<byte>): Memory
    requires a + |data| <= |m.cells|
  {
    m.(cells := m.cells[..a] + data + m.cells[a + |data|..])
  }

  const DMA_MAX_LEN := 4096

  /** The edu-pci engines cut every transfer to the size of their bounce buffers. */
  function TransferLength(len: nat): nat {
    if len > DMA_MAX_LEN then DMA_MAX_LEN else len
  }

  /** m and n differ in contents only. */
  ghost predicate SameAccess(m: Memory, n: Memory) {
    |m.cells| == |n.cells| && m.noRead == n.noRead && m.noWrite == n.noWrite && m.floating == n.floating
  }

  predicate Disjoint(a: nat, n: nat, b: nat, k: nat) {
    a + n <= b || b + k <= a
  }

  lemma ByteAfterWrite(m: Memory, a: nat, data: seq<byte>, i: nat)
    ensures ByteAt(Write(m, a, data), i) ==
            if a <= i < a + |data| && Writable(m, i) && Readable(m, i) then data[i - a] else ByteAt(m, i)
  {}

  lemma CellAfterWrite(m: Memory, a: nat, data: seq<byte>, i: nat)
    requires i < |m.cells|
    ensures |Write(m, a, data).cells| == |m.cells|
    ensures Write(m, a, data).cells[i] == if a <= i < a + |data| && Writable(m, i) then data[i - a] else m.cells[i]
  {}

  lemma ByteAfterStore(m: Memory, a: nat, data: seq<byte>, i: nat)
    requires a + |data| <= |m.cells|
    ensures ByteAt(Store(m, a, data), i) ==
            if a <= i < a + |data| && Readable(m, i) then data[i - a] else ByteAt(m, i)
  {}

  /** A read byte by byte: what stands there, or what floats on the bus where the address is beyond
      memory or not granted. */
  lemma ReadBytes(m: Memory, a: nat, n: nat, i: nat)
    requires i < n
    ensures Read(m, a, n)[i] == if a + i < |m.cells| && a + i !in m.noRead then m.cells[a + i] else m.floating(a + i)
    ensures CanRead(m, a, n) ==> a + i < |m.cells| && a + i !in m.noRead
    ensures a + i >= |m.cells| || a + i in m.noRead ==> !CanRead(m, a, n)
  {
    assert Read(m, a, n)[i] == ByteAt(m, a + i);
    assert Readable(m, a + i) <==> a + i < |m.cells| && a + i !in m.noRead;
  }

  /** A write cell by cell: only granted cells of its range change. */
  lemma WrittenCells(m: Memory, a: nat, data: seq<byte>, i: nat)
    requires i < |m.cells|
    ensures var v := Write(m, a, data);
            && v == m.(cells := v.cells) && |v.cells| == |m.cells|
            && v.cells[i] == if a <= i < a + |data| && i !in m.noWrite then data[i - a] else m.cells[i]
    ensures CanWrite(m, a, |data|) && a <= i < a + |data| ==> i !in m.noWrite
    ensures a <= i < a + |data| && i in m.noWrite ==> !CanWrite(m, a, |data|)
  {
    assert Writable(m, i) <==> i !in m.noWrite;
  }

  lemma ReadBack(m: Memory, a: nat, data: seq<byte>)
    requires CanWrite(m, a, |data|) && CanRead(m, a, |data|)
    ensures Read(Write(m, a, data), a, |data|) == data
  {
    forall i: nat | a <= i < a + |data|
      ensures ByteAt(Write(m, a, data), i) == data[i - a]
    {
      ByteAfterWrite(m, a, data, i);
      assert Writable(m, i) && Readable(m, i);
    }
    hide ByteAt, Write;
  }

  lemma ReadElsewhere(m: Memory, a: nat, data: seq<byte>, b: nat, n: nat)
    requires Disjoint(a, |data|, b, n)
    ensures Read(Write(m, a, data), b, n) == Read(m, b, n)
  {
    forall i: nat | b <= i < b + n
      ensures ByteAt(Write(m, a, data), i) == ByteAt(m, i)
    {
      ByteAfterWrite(m, a, data, i);
    }
    hide ByteAt, Write;
  }

  lemma ReadStored(m: Memory, a: nat, data: seq<byte>)
    requires a + |data| <= |m.cells| && CanRead(m, a, |data|)
    ensures Read(Store(m, a, data), a, |data|) == data
  {
    forall i: nat | a <= i < a + |data|
      ensures ByteAt(Store(m, a, data), i) == data[i - a]
    {
      ByteAfterStore(m, a, data, i);
      assert Readable(m, i);
    }
    hide ByteAt, Store;
  }

  lemma ReadBesideStore(m: Memory, a: nat, data: seq<byte>, b: nat, n: nat)
    requires a + |data| <= |m.cells| && Disjoint(a, |data|, b, n)
    ensures Read(Store(m, a, data), b, n) == Read(m, b, n)
  {
    forall i: nat | b <= i < b + n
      ensures ByteAt(Store(m, a, data), i) == ByteAt(m, i)
    {
      ByteAfterStore(m, a, data, i);
    }
    hide ByteAt, Store;
  }

  lemma WriteKeepsAccess(m: Memory, a: nat, data: seq<byte>, b: nat, n: nat)
    ensures CanRead(Write(m, a, data), b, n) == CanRead(m, b, n)
    ensures CanWrite(Write(m, a, data), b, n) == CanWrite(m, b, n)
  {
    var m' := Write(m, a, data);
    assert |m'.cells| == |m.cells|;
    hide Write;
    assert forall i: nat :: Readable(m', i) == Readable(m, i);
    assert forall i: nat :: Writable(m', i) == Writable(m, i);
  }

  lemma StoreKeepsAccess(m: Memory, a: nat, data: seq<byte>, b: nat, n: nat)
    requires a + |data| <= |m.cells|
    ensures |Store(m, a, data).cells| == |m.cells|
    ensures CanRead(Store(m, a, data), b, n) == CanRead(m, b, n)
    ensures CanWrite(Store(m, a, data), b, n) == CanWrite(m, b, n)
  {
    var m' := Store(m, a, data);
    assert |m'.cells| == |m.cells|;
    hide Store;
    assert forall i: nat :: Readable(m', i) == Readable(m, i);
    assert forall i: nat :: Writable(m', i) == Writable(m, i);
  }

  /** A transfer read piecewise. */
  lemma ReadPart(m: Memory, a: nat, n: nat, b: nat, k: nat)
    requires a <= b && b + k <= a + n
    ensures Read(m, b, k) == Read(m, a, n)[b - a..b - a + k]
  {}

  /** What the devices and the host share: memory, and the trace of MSI-X vectors raised. */
  class GuestBus {
    var mem: Memory
    var msixEnabled: bool
    var raised: seq<nat>

    constructor (mem: Memory, msixEnabled: bool)
      ensures this.mem == mem && this.msixEnabled == msixEnabled && raised == []
    {
      this.mem, this.msixEnabled, raised := mem, msixEnabled, [];
    }

    method DmaRead(a: nat, n: nat) returns (ok: bool, data: seq<byte>)
      ensures ok == CanRead(mem, a, n) && data == Read(mem, a, n)
    {
      ok := true;
      data := [];
      for i := 0 to n
        invariant ok == CanRead(mem, a, i) && data == Read(mem, a, i)
      {
        ok := ok && Readable(mem, a + i);
        data := data + [ByteAt(mem, a + i)];
      }
    }

    method DmaWrite(a: nat, data: seq<byte>) returns (ok: bool)
      modifies this`mem
      ensures ok == CanWrite(old(mem), a, |data|) && mem == Write(old(mem), a, data)
    {
      ok := true;
      for i := 0 to |data|
        invariant ok == CanWrite(old(mem), a, i) && mem == old(mem)
      {
        ok := ok && Writable(mem, a + i);
      }
      mem := Write(mem, a, data);
    }

    /** The host processor stores through its own mapping. */
    method HostStore(a: nat, data: seq<byte>)
      requires a + |data| <= |mem.cells|
      modifies this`mem
      ensures mem == Store(old(mem), a, data)
    {
      mem := Store(mem, a, data);
    }

    /** msix_notify, guarded as at every call site by msix_enabled. */
    method Notify(vector: nat)
      modifies this`raised
      ensures raised == if msixEnabled then old(raised) + [vector] else old(raised)
    {
      if msixEnabled {
        raised := raised + [vector];
      }
    }
  }
}
