// The counter law, and what follows from it for trim: when it terminates, how much it
// evicts, and which buffer it chooses.
module Trimming {
  import opened Bytes
  import opened Model

  // ----- The counter law -----

  /**
   * How far the two counters are from counting the used buffers: zero means that
   * bufferUsed plus the part taken off bufferLimit is the number of used buffers.
   */
  ghost function Drift(s: State): int {
    |UsedBuffers(s)| - s.bufferUsed - (s.bufferSize - s.bufferLimit)
  }

  /** The pieces taken off the limit that an effective set_memory_size forgets. */
  ghost function DriftGain(s: State, op: Op): int {
    if op.Resize? && op.m > s.capacity then s.bufferSize - s.bufferLimit else 0
  }

  lemma UsedBound(s: State)
    requires Inv(s)
    ensures |UsedBuffers(s)| <= s.bufferSize
    ensures |UsedBuffers(s)| == s.bufferSize <==> Full(s)
  {
    var all := Range(0, |s.buffers|);
    RangeSize(0, |s.buffers|);
    SubsetSize(UsedBuffers(s), all);
    if Full(s) {
      assert UsedBuffers(s) == all;
    } else {
      var b :| 0 <= b < |s.buffers| && !InUse(s, b);
      assert b in all;
    }
    if |UsedBuffers(s)| == s.bufferSize {
      assert UsedBuffers(s) == all;
      forall b | 0 <= b < |s.buffers| ensures InUse(s, b) {
        assert b in all;
      }
    }
  }

  /** With no drift, trim's test of two counters says exactly that no buffer is free. */
  lemma FullTest(s: State)
    requires Inv(s) && Drift(s) >= 0
    ensures Drift(s) == 0 ==> (s.bufferUsed >= s.bufferLimit <==> Full(s))
    ensures Drift(s) > 0 ==> s.bufferUsed < s.bufferLimit
  {
    UsedBound(s);
  }

  lemma AdmitDrift(s: State, p: int)
    requires Inv(s) && 0 <= p < |s.pieces|
    ensures Inv(Admit(s, p)) && Drift(Admit(s, p)) == Drift(s)
    ensures UsedBuffers(s) <= UsedBuffers(Admit(s, p))
  {
    AdmitInv(s, p);
    var b := FirstFree(s, 0);
    FirstFreeIsFree(s, 0);
    if s.pieces[p].bi != -1 {
    } else if s.isReading && !Readered(s, p) {
      RestoreInv(s, p);
    } else if b != -1 {
      AssignInv(s, p, b);
      assert !InUse(s, b);
      assert |UsedBuffers(s) + {b}| == |UsedBuffers(s)| + 1;
    }
  }

  lemma EvictDrift(s: State, b: int)
    requires Inv(s) && 0 <= b < |s.buffers| && s.buffers[b].used
    ensures BufferOk(s, b) && Drift(Evict(s, b)) == Drift(s)
    ensures Inv(Evict(s, b)) && |UsedBuffers(Evict(s, b))| == |UsedBuffers(s)| - 1
  {
    EvictInv(s, b);
    assert InUse(s, b);
  }

  lemma TrimBodyDrift(s: State, keep: int)
    requires Inv(s)
    ensures var r := TrimBody(s, keep);
            && Inv(r.s) && Drift(r.s) == Drift(s)
            && |UsedBuffers(r.s)| == |UsedBuffers(s)| - (if r.spins then 0 else 1)
  {
    TrimBodyInv(s, keep);
    SameTables(s, Tick(s));
    SameTables(s, Tick(Tick(s)));
    var b1 := Oldest(s, keep, true, s.clock, |s.buffers|);
    var b2 := Oldest(s, keep, false, s.clock + 1, |s.buffers|);
    OldestIsCandidate(s, keep, true, s.clock, |s.buffers|);
    OldestIsCandidate(s, keep, false, s.clock + 1, |s.buffers|);
    if b1 != -1 {
      EvictDrift(Tick(s), b1);
    } else if b2 != -1 {
      EvictDrift(Tick(Tick(s)), b2);
    }
  }

  lemma {:induction false} TrimLoopDrift(s: State, keep: int)
    requires Inv(s)
    ensures Inv(TrimLoop(s, keep).s) && Drift(TrimLoop(s, keep).s) == Drift(s)
    decreases |UsedBuffers(s)|
  {
    if s.bufferUsed < s.bufferLimit {
    } else {
      TrimBodyDrift(s, keep);
      if !TrimBody(s, keep).spins {
        TrimLoopDrift(TrimBody(s, keep).s, keep);
      }
    }
  }

  lemma StoredDrift(s: State, p: int, off: nat, bufs: seq<seq<Byte>>)
    requires Inv(s) && 0 <= p < |s.pieces| && off <= s.pieces[p].length
    ensures Inv(Stored(s, p, off, bufs)) && Drift(Stored(s, p, off, bufs)) == Drift(s)
    ensures UsedBuffers(Stored(s, p, off, bufs)) == UsedBuffers(Admit(s, p))
  {
    StoredInv(s, p, off, bufs);
    AdmitDrift(s, p);
    if Admit(s, p).pieces[p].bi != -1 {
      StoreInv(Admit(s, p), p, off, Payload(s, p, off, bufs));
    }
  }

  lemma WriteDrift(s: State, p: int, off: nat, bufs: seq<seq<Byte>>)
    requires Inv(s) && 0 <= p < |s.pieces| && off <= s.pieces[p].length
    ensures Drift(Writev(s, p, off, bufs).s) == Drift(s)
  {
    StoredDrift(s, p, off, bufs);
    TrimLoopDrift(Stored(s, p, off, bufs), p);
  }

  lemma ReadDrift(s: State, op: Op)
    requires Inv(s) && Legal(s, op) && (op.VectorRead? || op.PlainRead?)
    ensures Drift(Step(s, op).s) == Drift(s)
  {
    var s1 := if op.PlainRead? then s.(isReading := true) else s;
    SameTables(s, s1);
    RestoreInv(s1, op.p);
    if s1.pieces[op.p].bi != -1 {
      TouchInv(s1, op.p);
    }
  }

  /**
   * Conservation: allocation, eviction, priority changes and arbitrary changes of the
   * reserved set leave the drift alone; only set_memory_size adds to it.
   */
  lemma Conservation(s: State, op: Op)
    requires Inv(s) && Legal(s, op)
    ensures Inv(Step(s, op).s) && Drift(Step(s, op).s) == Drift(s) + DriftGain(s, op)
  {
    StepInv(s, op);
    match op
    case Write(p, off, bufs) => WriteDrift(s, p, off, bufs);
    case VectorRead(_, _, _) => ReadDrift(s, op);
    case PlainRead(_, _, _) => ReadDrift(s, op);
    case Resize(m) => ResizeInv(s, m);
    case _ => SameTables(s, Step(s, op).s);
  }

  // ----- Termination of trim -----

  /** No resident piece may be evicted to make room: all of them are reserved or being kept. */
  ghost predicate NoVictim(s: State, keep: int) {
    forall b :: 0 <= b < |s.buffers| ==> !Evictable(s, keep, b)
  }

  /** The scan is complete: it reports -1 only when there is no candidate at all. */
  lemma {:induction false} OldestComplete(s: State, keep: int, checkRead: bool, t: int, n: nat)
    requires Inv(s) && n <= |s.buffers| && t >= s.clock
    ensures Oldest(s, keep, checkRead, t, n) == -1 <==>
            forall b :: 0 <= b < n ==> !Candidate(s, keep, checkRead, b)
  {
    if n == 0 {
    } else {
      OldestComplete(s, keep, checkRead, t, n - 1);
      assert BufferOk(s, n - 1);
      OldestIsCandidate(s, keep, checkRead, t, n - 1);
      OldestIsCandidate(s, keep, checkRead, t, n);
    }
  }

  lemma BodySpins(s: State, keep: int)
    requires Inv(s)
    ensures TrimBody(s, keep).spins <==> NoVictim(s, keep)
  {
    OldestComplete(s, keep, true, s.clock, |s.buffers|);
    OldestComplete(s, keep, false, s.clock + 1, |s.buffers|);
    if NoVictim(s, keep) {
      assert forall b :: 0 <= b < |s.buffers| ==> !Candidate(s, keep, false, b);
    } else {
      var b :| 0 <= b < |s.buffers| && Evictable(s, keep, b);
      assert Candidate(s, keep, false, b);
    }
  }

  /** The buffer that one iteration of the loop evicts, or -1. */
  function Pick(s: State, keep: int): (b: int)
    requires Inv(s)
    ensures -1 <= b < |s.buffers|
  {
    var b1 := Oldest(s, keep, true, s.clock, |s.buffers|);
    if b1 != -1 then b1 else Oldest(s, keep, false, s.clock + 1, |s.buffers|)
  }

  /** One iteration is always enough to stop, if it finds a victim. */
  lemma OneIteration(s: State, keep: int)
    requires Inv(s) && Drift(s) >= 0 && s.bufferUsed >= s.bufferLimit
    ensures TrimLoop(s, keep) == TrimBody(s, keep)
  {
    TrimBodyDrift(s, keep);
    var r := TrimBody(s, keep);
    if !r.spins {
      UsedBound(s);
      UsedBound(r.s);
      FullTest(r.s);
      assert TrimLoop(r.s, keep) == Trimmed(r.s, false);
    }
  }

  lemma BodyEvicts(s: State, keep: int)
    requires Inv(s)
    ensures var r, b := TrimBody(s, keep), Pick(s, keep);
            if b == -1 then r.spins && r.s == s.(clock := r.s.clock) && r.s.clock >= s.clock
            else
              && BufferOk(s, b) && Evictable(s, keep, b) && !r.spins && r.s.clock > s.clock
              && r.s == Evict(s.(clock := r.s.clock - 1), b)
  {
    OldestIsCandidate(s, keep, true, s.clock, |s.buffers|);
    OldestIsCandidate(s, keep, false, s.clock + 1, |s.buffers|);
  }

  /**
   * A call of trim evicts Pick and then stops; if there is none, it spins.  (The clock is
   * read once or twice before the victim is reset.)
   */
  lemma TrimEvicts(s: State, keep: int)
    requires Inv(s) && Drift(s) >= 0
    ensures var r := Trim(s, keep);
            var b := Pick(s, keep);
            if s.bufferUsed < s.bufferLimit then r == Trimmed(s, false)
            else if b == -1 then r.spins && r.s == s.(clock := r.s.clock) && r.s.clock >= s.clock
            else
              && Drift(s) == 0 && Full(s) && BufferOk(s, b) && Evictable(s, keep, b)
              && !r.spins && r.s.clock > s.clock
              && r.s == Evict(s.(clock := r.s.clock - 1), b)
  {
    if s.bufferUsed >= s.bufferLimit {
      FullTest(s);
      OneIteration(s, keep);
      BodyEvicts(s, keep);
    }
  }

  /**
   * Exact termination condition: called on a piece, trim fails to return just when the
   * counters say it must evict, the pool really is full, and nothing may be evicted.
   */
  lemma TrimTerminates(s: State, keep: int)
    requires Inv(s) && Drift(s) >= 0
    ensures Trim(s, keep).spins <==> Drift(s) == 0 && Full(s) && NoVictim(s, keep)
    ensures var r := Trim(s, keep).s;
            && Inv(r) && Drift(r) == Drift(s)
            && |UsedBuffers(r)| == |UsedBuffers(s)| - (if Drift(s) == 0 && Full(s) && !NoVictim(s, keep) then 1 else 0)
  {
    FullTest(s);
    if s.bufferUsed >= s.bufferLimit {
      BodySpins(s, keep);
      TrimBodyDrift(s, keep);
      OneIteration(s, keep);
    }
  }

  /** The loop of trim, run for at most `n` iterations. */
  ghost function Iterate(s: State, keep: int, n: nat): State
    requires Inv(s)
    decreases n
  {
    if n == 0 || s.bufferUsed < s.bufferLimit then s else
      TrimBodyInv(s, keep);
      Iterate(TrimBody(s, keep).s, keep, n - 1)
  }

  /**
   * Why `spins` stands for divergence: an iteration without a victim changes nothing but
   * the clock, so the loop is still running after any number of iterations; and
   * otherwise some number of iterations ends it, in the state that TrimLoop gives.
   */
  lemma {:induction false} SpinsForever(s: State, keep: int, n: nat)
    requires Inv(s) && s.bufferUsed >= s.bufferLimit && NoVictim(s, keep)
    ensures var r := Iterate(s, keep, n);
            && r == s.(clock := r.clock)
            && r.bufferUsed >= r.bufferLimit
    decreases n
  {
    if n == 0 {
    } else {
      BodySpins(s, keep);
      var s1 := TrimBody(s, keep).s;
      assert s1 == s.(clock := s1.clock);
      TrimBodyInv(s, keep);
      forall b | 0 <= b < |s1.buffers| ensures !Evictable(s1, keep, b) {
        assert !Evictable(s, keep, b);
      }
      SpinsForever(s1, keep, n - 1);
    }
  }

  lemma {:induction false} StopsSometime(s: State, keep: int) returns (n: nat)
    requires Inv(s) && !TrimLoop(s, keep).spins
    ensures Iterate(s, keep, n) == TrimLoop(s, keep).s
    ensures Iterate(s, keep, n).bufferUsed < Iterate(s, keep, n).bufferLimit
    decreases |UsedBuffers(s)|
  {
    if s.bufferUsed < s.bufferLimit {
      n := 0;
    } else {
      TrimBodyInv(s, keep);
      var m := StopsSometime(TrimBody(s, keep).s, keep);
      n := m + 1;
    }
  }

  // ----- Pigeonhole -----

  /** Distinct buffers hold distinct pieces. */
  lemma {:induction false} ImageSize(s: State, bs: set<int>)
    requires Inv(s) && bs <= UsedBuffers(s)
    ensures |PiecesIn(s, bs)| == |bs|
    decreases |bs|
  {
    if bs == {} {
      assert PiecesIn(s, bs) == {};
    } else {
      var b :| b in bs;
      var rest := bs - {b};
      assert InUse(s, b) && BufferOk(s, b);
      ImageSize(s, rest);
      forall c | c in rest ensures s.buffers[c].pi != s.buffers[b].pi {
        assert InUse(s, c) && BufferOk(s, c);
      }
      assert PiecesIn(s, bs) == PiecesIn(s, rest) + {s.buffers[b].pi};
      assert s.buffers[b].pi !in PiecesIn(s, rest);
    }
  }

  ghost function PiecesIn(s: State, bs: set<int>): set<int>
    requires bs <= UsedBuffers(s)
  {
    set b | b in bs && InUse(s, b) :: s.buffers[b].pi
  }

  /** As many pieces are resident as buffers are used. */
  lemma ResidentCount(s: State)
    requires Inv(s)
    ensures |Residents(s)| == |UsedBuffers(s)|
  {
    ImageSize(s, UsedBuffers(s));
    var held := PiecesIn(s, UsedBuffers(s));
    forall p | p in Residents(s) ensures p in held {
      assert PieceOk(s, p) && Resident(s, p) && BufferOk(s, s.pieces[p].bi);
      assert InUse(s, s.pieces[p].bi);
    }
    forall p | p in held ensures p in Residents(s) {
      var b :| b in UsedBuffers(s) && InUse(s, b) && s.buffers[b].pi == p;
      assert BufferOk(s, b);
      assert Resident(s, p);
    }
    assert held == Residents(s);
  }

  /** A full pool with at most bufferSize - 2 reserved pieces always offers a victim. */
  lemma Pigeonhole(s: State, keep: int)
    requires Inv(s) && Full(s) && |s.reserved| <= s.bufferSize - 2
    ensures !NoVictim(s, keep)
  {
    if NoVictim(s, keep) {
      UsedBound(s);
      ResidentCount(s);
      forall p | p in Residents(s) ensures p in s.reserved + {keep} {
        assert Resident(s, p) && PieceOk(s, p) && BufferOk(s, s.pieces[p].bi);
        assert !Evictable(s, keep, s.pieces[p].bi);
      }
      SubsetSize(Residents(s), s.reserved + {keep});
      UnionSize(s.reserved, {keep});
      assert false;
    }
  }
}
