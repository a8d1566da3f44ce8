/** What a drain of the descriptor ring does, for any contents of guest memory: exact work,
    doorbells that add up, interrupts that count descriptors. */
module RingRuns {
  import opened Bytes
  import opened Modular
  import opened GuestMemory
  import opened RingDevice

  predicate InRange(r: Ring) {
    r.head < r.size && r.tail < r.size
  }

  /** Steps forward from one slot to another. */
  function Distance(size: nat, from: nat, to: nat): nat
    requires from < size && to < size
  {
    if from <= to then to - from else to + size - from
  }

  function Pending(r: Ring): nat
    requires InRange(r)
  {
    Distance(r.size, r.head, r.tail)
  }

  /** The mask test of the size register accepts exactly the powers of two up to 256. */
  lemma AcceptableSizes(val: bv32)
    ensures AcceptableSize(val) <==> val in {1, 2, 4, 8, 16, 32, 64, 128, 256}
  {}

  // ---------- Exact work ----------

  /** k calls of edu_ring_process_one. */
  function Advance(w: World, k: nat): World
    requires w.ring.size > 0
    decreases k
  {
    if k == 0 then w else Advance(ProcessOne(w), k - 1)
  }

  lemma {:induction false} AdvanceStalled(w: World, k: nat)
    requires w.ring.size > 0 && Stalled(w)
    ensures Advance(w, k) == w
    decreases k
  {
    hide Stalled;
    if k > 0 {
      AdvanceStalled(w, k - 1);
    }
  }

  lemma {:induction false} DrainStalled(w: World, n: nat)
    requires w.ring.size > 0 && Stalled(w)
    ensures Drain(w, n) == w
    decreases n
  {
    hide Stalled;
    if n > 0 {
      DrainStalled(w, n - 1);
    }
  }

  lemma {:induction false} AdvanceKeeps(w: World, k: nat)
    requires w.ring.size > 0
    ensures var v := Advance(w, k);
            && v.ring == w.ring.(head := v.ring.head) && v.msix == w.msix && SameAccess(v.mem, w.mem)
            && (w.ring.head < w.ring.size ==> v.ring.head < w.ring.size)
    decreases k
  {
    if k > 0 {
      ProcessOneKeeps(w);
      AdvanceKeeps(ProcessOne(w), k - 1);
    }
    hide ProcessOne;
  }

  lemma {:induction false} AdvanceMore(w: World, j: nat, k: nat)
    requires w.ring.size > 0
    ensures Advance(w, j).ring.size == w.ring.size
    ensures Advance(w, j + k) == Advance(Advance(w, j), k)
    decreases j
  {
    hide ProcessOne;
    AdvanceKeeps(w, j);
    if j > 0 {
      ProcessOneKeeps(w);
      AdvanceMore(ProcessOne(w), j - 1, k);
    }
  }

  /** A turn that is not stalled consumes one descriptor and moves one slot closer to the tail. */
  lemma TurnConsumes(w: World)
    requires InRange(w.ring) && !Stalled(w)
    ensures var v := ProcessOne(w);
            && InRange(v.ring) && |v.done| == |w.done| + 1 && w.done <= v.done
            && v.ring.head == (if w.ring.head + 1 == w.ring.size then 0 else w.ring.head + 1)
            && (w.ring.head != w.ring.tail ==> Pending(v.ring) == Pending(w.ring) - 1)
  {
    hide Stalled, ProcessOne;
    TurnMoves(w);
    StepMod(w.ring.head, w.ring.size);
  }

  lemma TurnMoves(w: World)
    requires w.ring.size > 0 && !Stalled(w)
    ensures var v := ProcessOne(w);
            && v.ring == w.ring.(head := (w.ring.head + 1) % w.ring.size)
            && |v.done| == |w.done| + 1 && w.done <= v.done
  {
    hide Stalled, SlotDesc, Outcome, Transferred, Bytes32, Write;
  }

  /** The cap on the loop never cuts a drain short: with at least as many turns as there are
      pending slots, the drain is that many calls of edu_ring_process_one. */
  lemma {:induction false} DrainAdvances(w: World, n: nat)
    requires InRange(w.ring) && Pending(w.ring) <= n
    ensures Drain(w, n) == Advance(w, Pending(w.ring))
    decreases n
  {
    hide Stalled, ProcessOne;
    DrainTurn(w, n);
    if w.ring.head != w.ring.tail {
      if Stalled(w) {
        DrainStalled(w, n);
        AdvanceStalled(w, Pending(w.ring));
      } else {
        TurnConsumes(w);
        DrainAdvances(ProcessOne(w), n - 1);
      }
    }
  }

  lemma {:induction false} AdvanceExact(w: World, p: nat)
    requires InRange(w.ring) && p < w.ring.size
    ensures var v := Advance(w, p);
            var k := |v.done| - |w.done|;
            && 0 <= k <= p && w.done <= v.done
            && v == Advance(w, k)
            && v.ring.head == (w.ring.head + k) % w.ring.size
            && (k < p ==> Stalled(v))
    ensures (forall j: nat | j < p :: !Stalled(Advance(w, j))) ==> |Advance(w, p).done| == |w.done| + p
    decreases p
  {
    hide Stalled, ProcessOne;
    if p > 0 {
      assert Advance(w, 0) == w;
      if Stalled(w) {
        AdvanceStalled(w, p);
      } else {
        TurnConsumes(w);
        ProcessOneKeeps(w);
        var w' := ProcessOne(w);
        AdvanceExact(w', p - 1);
        forall j: nat | j < p - 1
          ensures Advance(w', j) == Advance(w, j + 1)
        {}
        HeadMoves(w.ring.head, |Advance(w, p).done| - |w'.done|, w.ring.size);
      }
    }
  }

  lemma HeadMoves(h: nat, k: int, size: nat)
    requires h < size && k >= 0
    ensures ((if h + 1 == size then 0 else h + 1) + k) % size == (h + k + 1) % size
  {
    if h + 1 == size {
      AddSize(k, size);
    }
  }

  /** The exact work of a drain on an enabled ring. It consumes k descriptors, at most as many as
      are pending; if fewer, the head rests on a slot that cannot be read or is not valid, and
      further drains change nothing; if every pending descriptor is readable and valid when its
      turn comes, it consumes them all and ends with head equal to tail. */
  lemma ProcessExact(w: World)
    requires InRange(w.ring) && w.ring.enabled
    ensures var v := Process(w);
            var p := Pending(w.ring);
            var k := |v.done| - |w.done|;
            && 0 <= k <= p && w.done <= v.done && v == Advance(w, k)
            && v.ring == w.ring.(head := (w.ring.head + k) % w.ring.size)
            && (k < p ==> Stalled(v) && Process(v) == v)
            && (k == p <==> v.ring.head == v.ring.tail)
            && ((forall j: nat | j < p :: !Stalled(Advance(w, j))) ==> k == p)
  {
    hide Stalled, ProcessOne, Drain, Advance;
    var p := Pending(w.ring);
    DrainAdvances(w, w.ring.size);
    AdvanceExact(w, p);
    AdvanceKeeps(w, p);
    var v := Process(w);
    WrapHead(w.ring.size, w.ring.head, |v.done| - |w.done|);
    if |v.done| - |w.done| < p {
      DrainStalled(v, w.ring.size);
    }
  }

  lemma WrapHead(size: nat, h: nat, k: int)
    requires h < size && 0 <= k < size
    ensures (h + k) % size == if h + k < size then h + k else h + k - size
  {
    if h + k >= size {
      AddSize(h + k - size, size);
      SmallMod(h + k - size, size);
    } else {
      SmallMod(h + k, size);
    }
  }

  // ---------- Doorbells add up ----------

  function Aim(w: World, tail: nat): World {
    w.(ring := w.ring.(tail := tail))
  }

  lemma AimTurn(w: World, tail: nat)
    requires w.ring.size > 0
    ensures Stalled(Aim(w, tail)) == Stalled(w)
    ensures ProcessOne(Aim(w, tail)) == Aim(ProcessOne(w), tail)
  {
    hide CanRead, Read, Write, Decode, Bytes32, Transferred, Outcome;
    assert SlotDesc(Aim(w, tail), w.ring.head) == SlotDesc(w, w.ring.head);
  }

  lemma {:induction false} AimAdvance(w: World, tail: nat, k: nat)
    requires w.ring.size > 0
    ensures Advance(Aim(w, tail), k) == Aim(Advance(w, k), tail)
    decreases k
  {
    hide ProcessOne, Stalled;
    if k > 0 {
      AimTurn(w, tail);
      ProcessOneKeeps(w);
      AimAdvance(ProcessOne(w), tail, k - 1);
    }
  }

  /** A doorbell on an enabled ring, in one step. */
  lemma DoorbellAdvances(w: World, val: nat)
    requires InRange(w.ring) && w.ring.enabled
    ensures var t := val % w.ring.size;
            t < w.ring.size && Doorbell(w, val) == Aim(Advance(w, Distance(w.ring.size, w.ring.head, t)), t)
  {
    hide ProcessOne, Drain, Advance;
    var t := val % w.ring.size;
    DrainAdvances(Aim(w, t), w.ring.size);
    AimAdvance(w, t, Distance(w.ring.size, w.ring.head, t));
  }

  /** Ringing t1 and then t2 is ringing t2, when t1 is not beyond t2 as seen from the head. */
  lemma DoorbellsCoalesce(w: World, t1: nat, t2: nat)
    requires InRange(w.ring)
    requires Distance(w.ring.size, w.ring.head, t1 % w.ring.size) <= Distance(w.ring.size, w.ring.head, t2 % w.ring.size)
    ensures Doorbell(w, t1).ring.size == w.ring.size
    ensures Doorbell(Doorbell(w, t1), t2) == Doorbell(w, t2)
  {
    hide ProcessOne, Drain, Advance, Stalled, SameAccess;
    if w.ring.enabled {
      hide Doorbell;
      var size, h, a, b := w.ring.size, w.ring.head, t1 % w.ring.size, t2 % w.ring.size;
      var d1, d2 := Distance(size, h, a), Distance(size, h, b);
      DoorbellAdvances(w, t1);
      DoorbellAdvances(w, t2);
      AdvanceKeeps(w, d1);
      AdvanceExact(w, d1);
      var v := Doorbell(w, t1);
      var k := |v.done| - |w.done|;
      WrapHead(size, h, k);
      DoorbellAdvances(v, t2);
      AimAdvance(Advance(w, k), a, d2 - k);
      AdvanceMore(w, k, d2 - k);
    }
  }

  function Doorbells(w: World, ts: seq<nat>): World
    requires w.ring.size > 0
  {
    if ts == [] then w
    else
      var v := Doorbells(w, ts[..|ts| - 1]);
      if v.ring.size > 0 then Doorbell(v, ts[|ts| - 1]) else v
  }

  /** Tails that never move back, as seen from the slot h. */
  predicate Forward(size: nat, h: nat, ts: seq<nat>)
    requires h < size
  {
    forall i, j | 0 <= i <= j < |ts| :: Distance(size, h, ts[i] % size) <= Distance(size, h, ts[j] % size)
  }

  /** Any number of doorbells that only move forward amounts to the last one. */
  lemma {:induction false} DoorbellsAmountToLast(w: World, ts: seq<nat>)
    requires InRange(w.ring) && ts != [] && Forward(w.ring.size, w.ring.head, ts)
    ensures Doorbells(w, ts) == Doorbell(w, ts[|ts| - 1])
  {
    hide Doorbell;
    var before, last := ts[..|ts| - 1], ts[|ts| - 1];
    if before != [] {
      DoorbellsAmountToLast(w, before);
      assert before[|before| - 1] == ts[|ts| - 2];
      DoorbellsCoalesce(w, ts[|ts| - 2], last);
    } else {
      assert Doorbells(w, before) == w;
    }
  }

  /** Enabling after a doorbell is enabling before it, when the doorbell moves the tail forward. */
  lemma EnableAfterDoorbell(w: World, t: nat)
    requires InRange(w.ring) && !w.ring.enabled
    requires Pending(w.ring) <= Distance(w.ring.size, w.ring.head, t % w.ring.size)
    ensures Control(w, true).ring.size == w.ring.size
    ensures Control(Doorbell(w, t), true) == Doorbell(Control(w, true), t)
  {
    hide ProcessOne;
    var on := w.(ring := w.ring.(enabled := true));
    var s := w.ring.size;
    EnableIsDoorbell(w);
    SmallMod(w.ring.tail, s);
    DoorbellsCoalesce(on, w.ring.tail, t);
    EnableIsDoorbell(Doorbell(w, t));
    SmallMod(t % s, s);
  }

  lemma EnableIsDoorbell(w: World)
    requires InRange(w.ring) && !w.ring.enabled
    ensures Control(w, true) == Doorbell(w.(ring := w.ring.(enabled := true)), w.ring.tail)
  {
    var on := w.(ring := w.ring.(enabled := true));
    SmallMod(w.ring.tail, w.ring.size);
    DrainTurn(on, w.ring.size);
    hide ProcessOne;
  }
}
