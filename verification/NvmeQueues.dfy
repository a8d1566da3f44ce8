/** The queue pair: when a drain ends and what it does, and the phase protocol of the completion
    queue. */
module NvmeQueues {
  import opened Bytes
  import opened Modular
  import opened NvmeDevice

  // ---------- Draining the submission queue ----------

  /** The head after n turns of the loop, from head h. */
  function HeadAfter(h: nat, n: nat, size: nat): nat {
    if n == 0 then h else NextHead(HeadAfter(h, n - 1, size), size)
  }

  lemma {:induction false} HeadInRing(h: nat, n: nat, size: nat)
    requires 0 < n && 0 < size <= TWO_TO_THE_16
    ensures HeadAfter(h, n, size) < size
  {}

  /** The loop of edu_nvme_process_sq ends exactly when the head already stands at the tail or the
      tail lies below the queue size; otherwise the head never meets the tail. */
  lemma DrainEndsExactly(h: nat, t: nat, size: nat)
    requires h < TWO_TO_THE_16 && 0 < size <= 4096
    ensures DrainEnds(h, t, size) <==> exists n: nat :: HeadAfter(h, n, size) == t
  {
    if DrainEnds(h, t, size) {
      HeadReaches(h, t, size);
    } else {
      forall n: nat
        ensures HeadAfter(h, n, size) != t
      {
        if n > 0 {
          HeadInRing(h, n, size);
        }
      }
    }
  }

  lemma {:induction false} HeadReaches(h: nat, t: nat, size: nat)
    requires h < TWO_TO_THE_16 && 0 < size <= 4096 && DrainEnds(h, t, size)
    ensures HeadAfter(h, TurnsTo(h, t, size), size) == t
    decreases TurnsTo(h, t, size)
  {
    if h != t {
      var h' := NextHead(h, size);
      HeadReaches(h', t, size);
      HeadAfterFirst(h, TurnsTo(h', t, size), size);
    }
  }

  lemma {:induction false} HeadAfterFirst(h: nat, n: nat, size: nat)
    ensures HeadAfter(h, n + 1, size) == HeadAfter(NextHead(h, size), n, size)
  {
    if n > 0 {
      HeadAfterFirst(h, n - 1, size);
    }
  }

  /** The entry a drain logs for the turn that starts at w: its slot, its command as it stood in
      memory, and a completion with that command's identifier and slot. */
  predicate Answers(d: Done, w: World) {
    d.slot == w.ctrl.sqHead && d.cmd == Fetched(w) && d.cqe.cid == d.cmd.cid && d.cqe.sqHead == d.slot
  }

  /** A drain that ends fetches exactly the pending slots in ring order, one completion for each,
      and leaves the head at the tail. */
  lemma {:induction false} DrainOrdered(w: World, n: nat)
    requires w.ctrl.sqHead < TWO_TO_THE_16
    ensures var v := Advance(w, n);
            && v.ctrl.sqHead == HeadAfter(w.ctrl.sqHead, n, SqSize(w.ctrl.aqa))
            && v.ctrl == v.ctrl.(aqa := w.ctrl.aqa, sqTail := w.ctrl.sqTail, asq := w.ctrl.asq, acq := w.ctrl.acq)
            && |v.log| == |w.log| + n && w.log <= v.log
            && (forall i: nat | i < n :: Answers(v.log[|w.log| + i], Advance(w, i)) &&
                  v.log[|w.log| + i].slot == HeadAfter(w.ctrl.sqHead, i, SqSize(w.ctrl.aqa)))
    decreases n
  {
    hide Turn, SqSize, Answers;
    if n > 0 {
      var w' := Turn(w);
      TurnLogs(w);
      DrainOrdered(w', n - 1);
      HeadAfterFirst(w.ctrl.sqHead, n - 1, SqSize(w.ctrl.aqa));
      var v := Advance(w, n);
      forall i: nat | i < n
        ensures Answers(v.log[|w.log| + i], Advance(w, i))
        ensures v.log[|w.log| + i].slot == HeadAfter(w.ctrl.sqHead, i, SqSize(w.ctrl.aqa))
      {
        if i == 0 {
          assert v.log[|w.log|] == w'.log[|w.log|];
          assert Advance(w, 0) == w;
        } else {
          assert Advance(w, i) == Advance(w', i - 1);
          assert v.log[|w'.log| + (i - 1)] == v.log[|w.log| + i];
          HeadAfterFirst(w.ctrl.sqHead, i - 1, SqSize(w.ctrl.aqa));
        }
      }
    }
  }

  lemma TurnLogs(w: World)
    requires w.ctrl.sqHead < TWO_TO_THE_16
    ensures var v := Turn(w);
            && v.ctrl.sqHead == NextHead(w.ctrl.sqHead, SqSize(w.ctrl.aqa)) && v.ctrl.sqHead < TWO_TO_THE_16
            && v.ctrl == v.ctrl.(aqa := w.ctrl.aqa, sqTail := w.ctrl.sqTail, asq := w.ctrl.asq, acq := w.ctrl.acq)
            && |v.log| == |w.log| + 1 && w.log <= v.log
            && Answers(v.log[|w.log|], w) && v.log[|w.log|].slot == w.ctrl.sqHead
  {
    hide SqSize, CqSize, StorageAfter, MemoryAfter, Payload, EncodeCqe, NextTail, NextPhase, Strays, StatusCode, WithPhase, Fetched;
  }

  /** The slot of turn n of a drain from head h. */
  function SlotOfTurn(h: nat, n: nat, size: nat): nat
    requires size > 0
  {
    if n == 0 then h else if h < size then (h + n) % size else (n - 1) % size
  }

  lemma {:induction false} HeadByNumber(h: nat, n: nat, size: nat)
    requires 0 < size <= 4096 && h < TWO_TO_THE_16
    ensures HeadAfter(h, n, size) == SlotOfTurn(h, n, size)
  {
    if n == 1 {
      StepOfHead(h, size);
      SmallMod(0, size);
      NextMod(h, size);
      if h < size {
        SmallMod(h, size);
      }
    } else if n > 1 {
      HeadByNumber(h, n - 1, size);
      NextMod(h + n - 1, size);
      NextMod(n - 2, size);
      StepOfHead(if h < size then (h + n - 1) % size else (n - 2) % size, size);
    }
  }

  lemma StepOfHead(head: nat, size: nat)
    requires 0 < size <= 4096 && head < TWO_TO_THE_16
    ensures NextHead(head, size) == if head < size && head + 1 != size then head + 1 else 0
  {}

  /** How many commands a drain runs, from the low 12 bits of AQA as a number. */
  function PendingTurns(aqa: nat, head: nat, tail: nat): nat {
    var size := aqa % 4096 + 1;
    if head <= tail then tail - head else if head < size then size - head + tail else 1 + tail
  }

  /** With aqa % 4096 + 1 submission slots a drain that ends leaves the head at the tail after one
      command for each slot from head to tail round the ring, taken from those slots in order; a
      head that a smaller size has left outside goes to slot 0 next. */
  lemma DrainComplete(w: World)
    requires w.ctrl.sqHead < 65536
    requires w.ctrl.sqHead == w.ctrl.sqTail || w.ctrl.sqTail < w.ctrl.aqa as nat % 4096 + 1
    ensures var h, t, v := w.ctrl.sqHead, w.ctrl.sqTail, Drain(w);
            var size, n := w.ctrl.aqa as nat % 4096 + 1, PendingTurns(w.ctrl.aqa as nat, h, t);
            && v.ctrl.sqHead == v.ctrl.sqTail == t && |v.log| == |w.log| + n
            && forall i: nat | i < n :: v.log[|w.log| + i].slot == SlotOfTurn(h, i, size)
  {
    QueueSizes(w.ctrl.aqa);
    hide SqSize, TurnsTo, Advance, Answers, HeadAfter, SlotOfTurn, PendingTurns;
    var h, t, size := w.ctrl.sqHead, w.ctrl.sqTail, SqSize(w.ctrl.aqa);
    var n := TurnsTo(h, t, size);
    TurnsByNumber(w.ctrl.aqa, h, t);
    DrainOrdered(w, n);
    HeadReaches(h, t, size);
    forall i: nat | i < n
      ensures HeadAfter(h, i, size) == SlotOfTurn(h, i, size)
    {
      HeadByNumber(h, i, size);
    }
  }

  lemma TurnsByNumber(aqa: bv32, h: nat, t: nat)
    requires h == t || t < SqSize(aqa)
    ensures SqSize(aqa) <= 4096 && PendingTurns(aqa as nat, h, t) == TurnsTo(h, t, SqSize(aqa))
  {
    QueueSizes(aqa);
    hide SqSize;
  }

  lemma SlotRun(w: World, i: nat)
    requires w.ctrl.sqHead < 65536 && w.ctrl.sqTail < w.ctrl.aqa as nat % 4096 + 1
    requires i < PendingTurns(w.ctrl.aqa as nat, w.ctrl.sqHead, w.ctrl.sqTail)
    ensures |Drain(w).log| > |w.log| + i
    ensures Drain(w).log[|w.log| + i].slot == SlotOfTurn(w.ctrl.sqHead, i, w.ctrl.aqa as nat % 4096 + 1)
  {
    hide Drain, PendingTurns, SlotOfTurn;
    DrainComplete(w);
  }

  /** Sixteen submission and sixty-four completion slots, head 15, doorbell 1: the commands of slots
      15 and 0 are run. */
  lemma SixteenOfSixtyFour(w: World)
    requires w.ctrl.aqa == 0x003F000F && w.ctrl.sqHead == 15
    ensures var v := OnWrite(w, 0x1000, 1);
            && |v.log| == |w.log| + 2 && v.ctrl.sqHead == 1
            && v.log[|w.log|].slot == 15 && v.log[|w.log| + 1].slot == 0
  {
    hide Drain, WithConfiguration, WithLow, WithHigh;
    assert Low16(1) == 1;
    var p := w.(ctrl := w.ctrl.(sqTail := 1));
    assert p.ctrl.aqa as nat % 4096 + 1 == 16;
    DrainComplete(p);
    SlotRun(p, 0);
    SlotRun(p, 1);
  }

  // ---------- The phase protocol ----------

  /** The tail and phase after n completions since the queue was enabled. */
  function TailAfter(n: nat, size: nat): nat {
    if n == 0 then 0 else NextTail(TailAfter(n - 1, size), size)
  }

  function PhaseAfter(n: nat, size: nat): byte {
    if n == 0 then 1 else NextPhase(TailAfter(n - 1, size), PhaseAfter(n - 1, size), size)
  }

  /** The phase of lap n / size: 1 on the first lap, then alternating. */
  function LapPhase(n: nat, size: nat): byte
    requires size > 0
  {
    if n / size % 2 == 0 then 1 else 0
  }

  lemma NextLap(n: nat, size: nat)
    requires size > 0
    ensures (n + 1) / size == if n % size + 1 == size then n / size + 1 else n / size
  {
    var q, r := n / size, n % size;
    NextMultiple(q, size);
    if r + 1 == size {
      QuotientUnique(q + 1, 0, (n + 1) / size, (n + 1) % size, size);
    } else {
      QuotientUnique(q, r + 1, (n + 1) / size, (n + 1) % size, size);
    }
  }

  lemma StepOfTail(tail: nat, size: nat)
    requires tail < size <= TWO_TO_THE_16
    ensures NextTail(tail, size) == if tail + 1 == size then 0 else tail + 1
  {}

  lemma {:induction false} TailIsSlot(n: nat, size: nat)
    requires 0 < size <= TWO_TO_THE_16
    ensures TailAfter(n, size) == n % size
  {
    hide NextTail;
    if n == 0 {
      SmallMod(0, size);
    } else {
      TailIsSlot(n - 1, size);
      NextMod(n - 1, size);
      StepOfTail((n - 1) % size, size);
    }
  }

  lemma {:induction false} PhaseFollowsLap(n: nat, size: nat)
    requires 0 < size < TWO_TO_THE_16
    ensures PhaseAfter(n, size) == LapPhase(n, size)
  {
    hide Flip, LapPhase, NextPhase;
    if n == 0 {
      FirstLap(size);
    } else {
      PhaseFollowsLap(n - 1, size);
      TailIsSlot(n - 1, size);
      LapPhaseFlips(n - 1, size);
      NoWrap((n - 1) % size, PhaseAfter(n - 1, size), size);
    }
  }

  lemma FirstLap(size: nat)
    requires size > 0
    ensures LapPhase(0, size) == 1
  {
    QuotientUnique(0, 0, 0 / size, 0 % size, size);
  }

  lemma NoWrap(tail: nat, phase: byte, size: nat)
    requires tail < size < TWO_TO_THE_16
    ensures NextPhase(tail, phase, size) == if tail + 1 == size then Flip(phase) else phase
  {
    hide Flip;
  }

  lemma LapPhaseFlips(n: nat, size: nat)
    requires size > 0
    ensures LapPhase(n + 1, size) == if n % size + 1 == size then Flip(LapPhase(n, size)) else LapPhase(n, size)
  {
    NextLap(n, size);
    Alternates(n / size);
    assert Flip(0) == 1 && Flip(1) == 0;
    hide Flip;
  }

  lemma Alternates(q: nat)
    ensures (q + 1) % 2 == 1 - q % 2
  {}

  /** With the full 65536 entries the 16-bit tail wraps to zero by itself, the wrap is not seen,
      and the phase stays at 1 for ever. */
  lemma {:induction false} PhaseStuck(n: nat)
    ensures PhaseAfter(n, TWO_TO_THE_16) == 1
  {
    if n > 0 {
      PhaseStuck(n - 1);
      TailIsSlot(n - 1, TWO_TO_THE_16);
    }
  }

  /** The phase follows the laps of a queue exactly when it has fewer than 65536 slots. */
  lemma PhaseProtocol(size: nat)
    requires 0 < size <= TWO_TO_THE_16
    ensures (forall n: nat :: PhaseAfter(n, size) == LapPhase(n, size)) <==> size < TWO_TO_THE_16
  {
    if size < TWO_TO_THE_16 {
      forall n: nat
        ensures PhaseAfter(n, size) == LapPhase(n, size)
      {
        PhaseFollowsLap(n, size);
      }
    } else {
      PhaseStuck(size);
      assert LapPhase(size, size) == 0 by { QuotientUnique(1, 0, size / size, size % size, size); }
      assert PhaseAfter(size, size) != LapPhase(size, size);
    }
  }

  /** The phase protocol holds for a size field exactly when it is not all ones. */
  lemma PhaseProtocolExactly(aqa: bv32)
    ensures CqSize(aqa) <= TWO_TO_THE_16
    ensures (forall n: nat :: PhaseAfter(n, CqSize(aqa)) == LapPhase(n, CqSize(aqa))) <==> aqa as nat / 65536 != 65535
  {
    hide CqSize, PhaseAfter, LapPhase;
    FullSize(aqa);
    PhaseProtocol(CqSize(aqa));
  }

  lemma FullSize(aqa: bv32)
    ensures CqSize(aqa) <= TWO_TO_THE_16
    ensures CqSize(aqa) == TWO_TO_THE_16 <==> aqa as nat / 65536 == 65535
  {
    CqSizeBound(aqa);
    QueueSizes(aqa);
    hide CqSize;
  }

  lemma CqSizeBound(aqa: bv32)
    ensures CqSize(aqa) <= TWO_TO_THE_16
  {}
}
