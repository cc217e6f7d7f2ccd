// Sequential runs: conservation, availability and termination, drift, growth, and the
// meaning of the two counters.
module Runs {
  import opened Bytes
  import opened Model
  import opened Trimming
  import opened Effects

  /** A run of calls one after the other.  Nothing follows a call that never returns. */
  ghost predicate LegalRun(s: State, ops: seq<Op>)
    requires Inv(s)
    decreases |ops|
  {
    ops != [] ==>
      && Legal(s, ops[0])
      && (Step(s, ops[0]).out.Spins? ==> |ops| == 1)
      && (StepInv(s, ops[0]); LegalRun(Step(s, ops[0]).s, ops[1..]))
  }

  ghost function Run(s: State, ops: seq<Op>): (s': State)
    requires Inv(s) && LegalRun(s, ops)
    ensures Inv(s')
    decreases |ops|
  {
    if ops == [] then s else
      StepInv(s, ops[0]);
      Run(Step(s, ops[0]).s, ops[1..])
  }

  // ----- Conservation over runs -----

  /** What set_memory_size has forgotten along a run. */
  ghost function TotalGain(s: State, ops: seq<Op>): int
    requires Inv(s) && LegalRun(s, ops)
    decreases |ops|
  {
    if ops == [] then 0 else
      StepInv(s, ops[0]);
      DriftGain(s, ops[0]) + TotalGain(Step(s, ops[0]).s, ops[1..])
  }

  lemma {:induction false} RunDrift(s: State, ops: seq<Op>)
    requires Inv(s) && LegalRun(s, ops)
    ensures TotalGain(s, ops) >= 0
    ensures Drift(Run(s, ops)) == Drift(s) + TotalGain(s, ops)
    decreases |ops|
  {
    if ops == [] {
    } else {
      Conservation(s, ops[0]);
      RunDrift(Step(s, ops[0]).s, ops[1..]);
    }
  }

  /** The law in every state reachable from a new storage. */
  lemma ConservationLaw(capacity: int, pieceLength: int, lengths: seq<int>, picker: Picker, ops: seq<Op>)
    requires Metadata(capacity, pieceLength, lengths, picker)
    requires LegalRun(Init(capacity, pieceLength, lengths, picker), ops)
    ensures var s0 := Init(capacity, pieceLength, lengths, picker);
            var s := Run(s0, ops);
            && |UsedBuffers(s)| == s.bufferUsed + (s.bufferSize - s.bufferLimit) + TotalGain(s0, ops)
            && (TotalGain(s0, ops) == 0 ==> (s.bufferUsed >= s.bufferLimit <==> Full(s)))
  {
    var s0 := Init(capacity, pieceLength, lengths, picker);
    RunDrift(s0, ops);
    FullTest(Run(s0, ops));
  }

  // ----- Termination, availability, memory bound -----

  /** The reserved set leaves room, and the pool grows only while the counters are in step. */
  ghost predicate CalmOp(s: State, op: Op) {
    && (op.Write? ==> |s.reserved| <= s.bufferSize - 2)
    && DriftGain(s, op) == 0
  }

  ghost predicate Calm(s: State, ops: seq<Op>)
    requires Inv(s) && LegalRun(s, ops)
    decreases |ops|
  {
    ops != [] ==> CalmOp(s, ops[0]) && (StepInv(s, ops[0]); Calm(Step(s, ops[0]).s, ops[1..]))
  }

  lemma CalmWrite(s: State, p: int, off: nat, bufs: seq<seq<Byte>>)
    requires Inv(s) && Drift(s) == 0 && !Full(s) && 0 <= p < |s.pieces| && off <= s.pieces[p].length
    requires |s.reserved| <= s.bufferSize - 2
    ensures var r := Writev(s, p, off, bufs); Inv(r.s) && !Full(r.s) && !r.out.Spins?
  {
    StoredEffect(s, p, off, bufs);
    StoredInv(s, p, off, bufs);
    var s1 := Stored(s, p, off, bufs);
    var r := Writev(s, p, off, bufs);
    assert s1.bufferSize == s.bufferSize;
    FullTest(s1);
    UsedBound(s1);
    if Resident(s1, p) {
      TrimTerminates(s1, p);
      assert r.s == Trim(s1, p).s;
      if Full(s1) {
        Pigeonhole(s1, p);
      }
      UsedBound(r.s);
      TrimEvicts(s1, p);
      assert r.s.bufferSize == s1.bufferSize;
    } else {
      ResidentCount(s);
      ResidentCount(s1);
      UsedBound(s);
    }
  }

  lemma CalmStep(s: State, op: Op)
    requires Inv(s) && Drift(s) == 0 && !Full(s) && Legal(s, op) && CalmOp(s, op)
    ensures var r := Step(s, op); Inv(r.s) && Drift(r.s) == 0 && !Full(r.s) && !r.out.Spins?
  {
    Conservation(s, op);
    if op.Write? {
      CalmWrite(s, op.p, op.off, op.bufs);
    } else {
      QuietStep(s, op);
      var b :| 0 <= b < |s.buffers| && !InUse(s, b);
      assert !InUse(Step(s, op).s, b);
    }
  }

  /**
   * However the reserved set is replaced between calls, as long as it leaves two buffers at
   * each writev: a buffer is free between any two calls, no writev hangs, each evicts at
   * most one piece, and a piece past the reader gate always gets its bytes stored.
   */
  lemma {:induction false} Availability(s: State, ops: seq<Op>, next: Op)
    requires Inv(s) && Drift(s) == 0 && !Full(s) && LegalRun(s, ops) && Calm(s, ops)
    requires Legal(Run(s, ops), next) && CalmOp(Run(s, ops), next)
    ensures var s1 := Run(s, ops);
            && Drift(s1) == 0 && !Full(s1)
            && !Step(s1, next).out.Spins?
            && |Evicted(s1, next)| <= 1
            && (next.Write? && (Resident(s1, next.p) || Gate(s1, next.p)) ==>
                  Step(s1, next).out == Returned(|Payload(s1, next.p, next.off, next.bufs)|, []))
    decreases |ops|
  {
    if ops == [] {
      CalmStep(s, next);
      StepEffect(s, next);
      if next.Write? {
        WriteOutput(s, next.p, next.off, next.bufs);
      }
    } else {
      CalmStep(s, ops[0]);
      Availability(Step(s, ops[0]).s, ops[1..], next);
    }
  }

  /** A new storage for a torrent of at least one piece meets the hypotheses of Availability. */
  lemma FreshIsAvailable(capacity: int, pieceLength: int, lengths: seq<int>, picker: Picker)
    requires Metadata(capacity, pieceLength, lengths, picker) && |lengths| > 0
    ensures var s := Init(capacity, pieceLength, lengths, picker); Inv(s) && Drift(s) == 0 && !Full(s)
  {
    var s := Init(capacity, pieceLength, lengths, picker);
    UsedBound(s);
    QuotientGrows(0, capacity, pieceLength);
    assert s.bufferSize >= 1;
  }

  lemma PoolBytes(s: State)
    requires Inv(s)
    ensures s.bufferSize * s.pieceLength <= s.capacity + 2 * s.pieceLength
  {
    var q := s.capacity / s.pieceLength;
    assert q * s.pieceLength <= s.capacity;
    ProductGrows(s.bufferSize, q + 2, s.pieceLength);
    assert (q + 2) * s.pieceLength == q * s.pieceLength + 2 * s.pieceLength;
  }

  lemma ProductGrows(a: int, b: int, d: int)
    requires a <= b && d >= 0
    ensures a * d <= b * d
  {
    assert (b - a) * d >= 0;
  }

  /** After every operation of a calm run the resident pieces exceed the budget by one at most. */
  lemma {:induction false} MemoryBound(s: State, ops: seq<Op>)
    requires Inv(s) && Drift(s) == 0 && !Full(s) && LegalRun(s, ops) && Calm(s, ops)
    ensures var s1 := Run(s, ops);
            && |Residents(s1)| * s1.pieceLength <= s1.capacity + s1.pieceLength
            && s1.bufferSize * s1.pieceLength <= s1.capacity + 2 * s1.pieceLength
    decreases |ops|
  {
    if ops == [] {
      UsedBound(s);
      ResidentCount(s);
      PoolBytes(s);
      ProductGrows(|Residents(s)|, s.bufferSize - 1, s.pieceLength);
      assert (s.bufferSize - 1) * s.pieceLength == s.bufferSize * s.pieceLength - s.pieceLength;
    } else {
      CalmStep(s, ops[0]);
      MemoryBound(Step(s, ops[0]).s, ops[1..]);
    }
  }

  /** A torrent of one piece: its pool has one buffer, and the first writev never returns. */
  lemma OnePieceHangs(capacity: int, pieceLength: int, length: int, picker: Picker, off: nat, bufs: seq<seq<Byte>>)
    requires Metadata(capacity, pieceLength, [length], picker) && off <= length
    ensures Writev(Init(capacity, pieceLength, [length], picker), 0, off, bufs).out.Spins?
  {
    FreshIsAvailable(capacity, pieceLength, [length], picker);
    var s := Init(capacity, pieceLength, [length], picker);
    QuotientGrows(0, capacity, pieceLength);
    WriteSpins(s, 0, off, bufs);
    assert Residents(s) + {0} == {0};
  }

  /**
   * The bound on the reserved set cannot be relaxed by one: with bufferSize - 1 reserved
   * pieces resident, the next admission hangs.
   */
  lemma ReservedBoundIsTight(s: State, p: int, off: nat, bufs: seq<seq<Byte>>)
    requires Inv(s) && Drift(s) == 0 && Legal(s, Write(p, off, bufs))
    requires !Resident(s, p) && Gate(s, p)
    requires Residents(s) <= s.reserved && |Residents(s)| == s.bufferSize - 1
    ensures Writev(s, p, off, bufs).out.Spins?
  {
    UsedBound(s);
    ResidentCount(s);
    WriteSpins(s, p, off, bufs);
    assert p !in Residents(s);
    assert |Residents(s) + {p}| == |Residents(s)| + 1;
  }

  /** A run whose last call, and no other, fails to return. */
  ghost predicate EndsInSpin(s: State, ops: seq<Op>)
    requires Inv(s) && LegalRun(s, ops)
    decreases |ops|
  {
    && ops != []
    && (if |ops| == 1 then Step(s, ops[0]).out.Spins?
        else StepInv(s, ops[0]); EndsInSpin(Step(s, ops[0]).s, ops[1..]))
  }

  /** Pieces 0 to k-1 are resident, and of all pieces the first bufferSize - 1 are reserved. */
  ghost predicate FilledUpTo(s: State, k: nat) {
    && Inv(s) && Drift(s) == 0 && !s.isReading && s.bufferSize >= 1 && k < s.bufferSize
    && Residents(s) == Range(0, k) && s.reserved == Range(0, s.bufferSize - 1)
  }

  lemma FillNext(s: State, k: nat)
    requires FilledUpTo(s, k)
    ensures k < |s.pieces| && PieceOk(s, k)
    ensures var r := Writev(s, k, 0, []);
            if k == s.bufferSize - 1 then r.out.Spins? else !r.out.Spins? && FilledUpTo(r.s, k + 1)
  {
    assert PieceOk(s, k);
    RangeSize(0, k);
    RangeSize(0, k + 1);
    assert Range(0, k + 1) == Range(0, k) + {k};
    assert k !in Residents(s);
    UsedBound(s);
    ResidentCount(s);
    WriteSpins(s, k, 0, []);
    if k < s.bufferSize - 1 {
      WriteStays(s, k);
    }
  }

  /** A writev that leaves a buffer free evicts nothing. */
  lemma WriteStays(s: State, k: nat)
    requires Inv(s) && Drift(s) == 0 && k < |s.pieces| && 0 <= s.pieces[k].length && Admitted(s, k)
    requires !FillsPool(s, k)
    ensures var s' := Writev(s, k, 0, []).s;
            Inv(s') && Drift(s') == 0 && Residents(s') == Residents(s) + {k} && SameSettings(s, s')
  {
    WriteEvicts(s, k, 0, []);
    WriteStepEffect(s, k, 0, []);
    WriteConfig(s, k, 0, []);
    Conservation(s, Write(k, 0, []));
  }

  lemma {:induction false} FillRun(s: State, k: nat) returns (ops: seq<Op>)
    requires FilledUpTo(s, k)
    ensures LegalRun(s, ops) && EndsInSpin(s, ops)
    decreases s.bufferSize - k
  {
    var op := Write(k, 0, []);
    FillNext(s, k);
    StepInv(s, op);
    var s1 := Step(s, op).s;
    if k == s.bufferSize - 1 {
      ops := [op];
      assert LegalRun(s1, []);
    } else {
      WriteConfig(s, k, 0, []);
      var rest := FillRun(s1, k + 1);
      ops := [op] + rest;
      assert ops[1..] == rest;
    }
  }

  lemma Listed(list: seq<int>)
    requires forall i :: 0 <= i < |list| ==> list[i] == i
    ensures (set i | i in list) == Range(0, |list|)
  {
    forall i | i in Range(0, |list|) ensures i in list {
      assert list[i] == i;
    }
  }

  /**
   * And one more is always within reach: whatever the torrent and the budget, reserving
   * bufferSize - 1 pieces and writing to them and one other makes the last call hang.
   */
  lemma ReservedBoundIsReached(capacity: int, pieceLength: int, lengths: seq<int>, picker: Picker)
      returns (list: seq<int>, ops: seq<Op>)
    requires Metadata(capacity, pieceLength, lengths, picker) && |lengths| > 0
    ensures var s := Init(capacity, pieceLength, lengths, picker);
            && |set i | i in list| == s.bufferSize - 1
            && LegalRun(s, [Reserve(list)] + ops) && EndsInSpin(s, [Reserve(list)] + ops)
  {
    var s := Init(capacity, pieceLength, lengths, picker);
    FreshIsAvailable(capacity, pieceLength, lengths, picker);
    UsedBound(s);
    var n := s.bufferSize - 1;
    list := seq(n, i => i);
    var op := Reserve(list);
    Listed(list);
    RangeSize(0, n);
    Conservation(s, op);
    var s1 := Step(s, op).s;
    assert Residents(s1) == Residents(s) == Range(0, 0);
    ops := FillRun(s1, 0);
    assert ([op] + ops)[1..] == ops;
  }

  // ----- Drift -----

  /**
   * Once set_memory_size has run with pieces taken off the limit, nothing is ever evicted
   * again, no writev hangs, and a full pool turns away every piece that is not in it.
   */
  lemma {:induction false} DriftAbsorbs(s: State, ops: seq<Op>, next: Op)
    requires Inv(s) && Drift(s) > 0 && LegalRun(s, ops) && Legal(Run(s, ops), next)
    ensures var s1 := Run(s, ops);
            && Residents(s) <= Residents(s1) && Drift(s1) > 0
            && Evicted(s1, next) == {} && !Step(s1, next).out.Spins?
            && (next.Write? && Full(s1) && !Resident(s1, next.p) ==>
                  && Step(s1, next).out == Returned(0, [])
                  && Residents(Step(s1, next).s) == Residents(s1))
    decreases |ops|
  {
    if ops == [] {
      StepEffect(s, next);
      if next.Write? {
        WriteSpins(s, next.p, next.off, next.bufs);
        WriteOutput(s, next.p, next.off, next.bufs);
      }
    } else {
      StepEffect(s, ops[0]);
      Conservation(s, ops[0]);
      DriftAbsorbs(Step(s, ops[0]).s, ops[1..], next);
    }
  }

  /** What brings drift about: an effective set_memory_size after a reserved admission. */
  lemma DriftStarts(s: State, op: Op)
    requires Inv(s) && Drift(s) == 0 && Legal(s, op)
    ensures Inv(Step(s, op).s)
    ensures Drift(Step(s, op).s) > 0 <==> op.Resize? && op.m > s.capacity && s.bufferLimit < s.bufferSize
  {
    Conservation(s, op);
  }

  // ----- Growth -----

  function MaxRequest(m: int, ops: seq<Op>): int
    decreases |ops|
  {
    if ops == [] then m
    else MaxRequest(if ops[0].Resize? && ops[0].m > m then ops[0].m else m, ops[1..])
  }

  /** The pool depends on the largest request alone, not on the path that led to it. */
  lemma {:induction false} GrowthIsPathIndependent(s: State, ops: seq<Op>)
    requires Inv(s) && LegalRun(s, ops)
    ensures var s1 := Run(s, ops);
            && s1.capacity == MaxRequest(s.capacity, ops)
            && |s1.buffers| == Min(MaxRequest(s.capacity, ops) / s.pieceLength + 2, |s.pieces|)
            && forall i :: 0 <= i < |s1.buffers| ==> s1.buffers[i].index == i
    decreases |ops|
  {
    if ops == [] {
      forall i | 0 <= i < |s.buffers| ensures s.buffers[i].index == i {
        assert BufferOk(s, i);
      }
    } else {
      StepInv(s, ops[0]);
      StepConfig(s, ops[0]);
      GrowthIsPathIndependent(Step(s, ops[0]).s, ops[1..]);
    }
  }

  ghost predicate SameTorrent(s: State, s': State) {
    && s'.pieceLength == s.pieceLength && |s'.pieces| == |s.pieces| && s'.clock >= s.clock
    && forall q :: 0 <= q < |s.pieces| ==> s'.pieces[q].length == s.pieces[q].length
  }

  ghost predicate SameSettings(s: State, s': State) {
    && s'.capacity == s.capacity && s'.bufferSize == s.bufferSize && s'.reserved == s.reserved
    && s'.hasHandle == s.hasHandle && s'.hasTorrent == s.hasTorrent && s'.isReading == s.isReading
  }

  /** Each setting has one operation that changes it. */
  ghost predicate SettingsAfter(s: State, op: Op, s': State) {
    && s'.capacity == (if op.Resize? && op.m > s.capacity then op.m else s.capacity)
    && s'.reserved == (if op.Reserve? then set i | i in op.list else s.reserved)
    && s'.hasHandle == (s.hasHandle || op.SetHandle?)
    && s'.hasTorrent == (if op.SetHandle? then op.alive else s.hasTorrent)
    && s'.isReading == (s.isReading || op.PlainRead?)
  }

  lemma ReadConfig(s: State, op: Op)
    requires Inv(s) && Legal(s, op) && (op.VectorRead? || op.PlainRead?)
    ensures SameTorrent(s, Step(s, op).s) && SettingsAfter(s, op, Step(s, op).s)
  {
  }

  /** The dimensions of the torrent never change, and the settings as said. */
  lemma StepConfig(s: State, op: Op)
    requires Inv(s) && Legal(s, op)
    ensures SameTorrent(s, Step(s, op).s) && SettingsAfter(s, op, Step(s, op).s)
  {
    if op.Write? {
      WriteConfig(s, op.p, op.off, op.bufs);
    } else if op.VectorRead? || op.PlainRead? {
      ReadConfig(s, op);
    }
  }

  lemma WriteConfig(s: State, p: int, off: nat, bufs: seq<seq<Byte>>)
    requires Inv(s) && 0 <= p < |s.pieces| && off <= s.pieces[p].length
    ensures SameTorrent(s, Writev(s, p, off, bufs).s) && SameSettings(s, Writev(s, p, off, bufs).s)
  {
    StoredInv(s, p, off, bufs);
    StoredConfig(s, p, off, bufs);
    FinishConfig(Stored(s, p, off, bufs), p, |Payload(s, p, off, bufs)|);
  }

  lemma AdmitConfig(s: State, p: int)
    requires Inv(s) && 0 <= p < |s.pieces|
    ensures SameTorrent(s, Admit(s, p)) && SameSettings(s, Admit(s, p))
  {
  }

  lemma StoredConfig(s: State, p: int, off: nat, bufs: seq<seq<Byte>>)
    requires Inv(s) && 0 <= p < |s.pieces| && off <= s.pieces[p].length
    ensures SameTorrent(s, Stored(s, p, off, bufs)) && SameSettings(s, Stored(s, p, off, bufs))
  {
    AdmitConfig(s, p);
    AdmitInv(s, p);
    var s1 := Admit(s, p);
    if s1.pieces[p].bi != -1 {
      StoreConfig(s1, p, off, Payload(s, p, off, bufs));
    }
  }

  lemma StoreConfig(s: State, p: int, off: nat, data: seq<Byte>)
    requires Inv(s) && Resident(s, p) && off + |data| <= s.pieces[p].length
    ensures PieceOk(s, p) && BufferOk(s, s.pieces[p].bi)
    ensures SameTorrent(s, Store(s, p, off, data)) && SameSettings(s, Store(s, p, off, data))
  {
    assert PieceOk(s, p) && BufferOk(s, s.pieces[p].bi);
  }

  lemma FinishConfig(s: State, p: int, n: nat)
    requires Inv(s) && 0 <= p < |s.pieces|
    ensures SameTorrent(s, Finish(s, p, n).s) && SameSettings(s, Finish(s, p, n).s)
  {
    TrimLoopConfig(s, p);
  }

  lemma {:induction false} TrimLoopConfig(s: State, keep: int)
    requires Inv(s)
    ensures SameTorrent(s, TrimLoop(s, keep).s) && SameSettings(s, TrimLoop(s, keep).s)
    decreases |UsedBuffers(s)|
  {
    if s.bufferUsed < s.bufferLimit {
    } else {
      TrimBodyInv(s, keep);
      TrimBodyConfig(s, keep);
      if !TrimBody(s, keep).spins {
        TrimLoopConfig(TrimBody(s, keep).s, keep);
      }
    }
  }

  lemma TrimBodyConfig(s: State, keep: int)
    requires Inv(s)
    ensures SameTorrent(s, TrimBody(s, keep).s) && SameSettings(s, TrimBody(s, keep).s)
  {
    OldestIsCandidate(s, keep, true, s.clock, |s.buffers|);
    OldestIsCandidate(s, keep, false, s.clock + 1, |s.buffers|);
  }

  /** Growing the pool moves no piece and changes no byte. */
  lemma GrowthKeepsPieces(s: State, m: int)
    requires Inv(s)
    ensures var s' := SetMemorySize(s, m);
            && Inv(s') && s'.pieces == s.pieces && s.buffers <= s'.buffers
            && Residents(s') == Residents(s)
    ensures forall q :: Resident(s, q) ==> Content(SetMemorySize(s, m), q) == Content(s, q)
    ensures forall i :: |s.buffers| <= i < |SetMemorySize(s, m).buffers| ==> !SetMemorySize(s, m).buffers[i].used
  {
    var op := Resize(m);
    QuietStep(s, op);
    assert Step(s, op).s == SetMemorySize(s, m);
    assert forall q :: Resident(s, q) ==> SamePiece(s, SetMemorySize(s, m), q);
  }

  // ----- What the counters count under a fixed reserved set -----

  /** bufferUsed counts the residents that may be evicted, bufferLimit the room left for them. */
  ghost predicate CountersMean(s: State) {
    && s.bufferUsed == |Residents(s) - s.reserved|
    && s.bufferLimit == s.bufferSize - |Residents(s) * s.reserved|
  }

  /** The reserved set stays, and the pool grows only while no reserved piece is resident. */
  ghost predicate FixedOp(s: State, op: Op) {
    && !op.Reserve?
    && (op.Resize? && op.m > s.capacity ==> Residents(s) !! s.reserved)
  }

  ghost predicate Fixed(s: State, ops: seq<Op>)
    requires Inv(s) && LegalRun(s, ops)
    decreases |ops|
  {
    ops != [] ==> FixedOp(s, ops[0]) && (StepInv(s, ops[0]); Fixed(Step(s, ops[0]).s, ops[1..]))
  }

  lemma SplitResidents(s: State)
    requires Inv(s)
    ensures |UsedBuffers(s)| == |Residents(s) - s.reserved| + |Residents(s) * s.reserved|
    ensures CountersMean(s) <==> Drift(s) == 0 && s.bufferLimit == s.bufferSize - |Residents(s) * s.reserved|
  {
    ResidentCount(s);
    assert Residents(s) == (Residents(s) - s.reserved) + (Residents(s) * s.reserved);
  }

  /** Only admitting a reserved piece takes anything off the limit. */
  lemma WriteLimit(s: State, p: int, off: nat, bufs: seq<seq<Byte>>)
    requires Inv(s) && Drift(s) >= 0 && Legal(s, Write(p, off, bufs))
    ensures var s' := Writev(s, p, off, bufs).s;
            && s'.bufferSize == s.bufferSize
            && s'.bufferLimit == s.bufferLimit - (if Admitted(s, p) && !Resident(s, p) && p in s.reserved then 1 else 0)
  {
    StoredEffect(s, p, off, bufs);
    AdmitEffect(s, p);
    FirstFreeFinds(s);
    assert PieceOk(s, p);
    TrimEvicts(Stored(s, p, off, bufs), p);
  }

  lemma MeaningStep(s: State, op: Op)
    requires Inv(s) && CountersMean(s) && Legal(s, op) && FixedOp(s, op)
    ensures Inv(Step(s, op).s) && CountersMean(Step(s, op).s)
  {
    SplitResidents(s);
    Conservation(s, op);
    SplitResidents(Step(s, op).s);
    if op.Write? {
      WriteMeaning(s, op.p, op.off, op.bufs);
    } else {
      QuietMeaning(s, op);
    }
  }

  lemma WriteMeaning(s: State, p: int, off: nat, bufs: seq<seq<Byte>>)
    requires Inv(s) && Drift(s) == 0 && Legal(s, Write(p, off, bufs))
    ensures var s' := Writev(s, p, off, bufs).s;
            s'.bufferLimit + |Residents(s') * s'.reserved| - s'.bufferSize
            == s.bufferLimit + |Residents(s) * s.reserved| - s.bufferSize
  {
    var s' := Writev(s, p, off, bufs).s;
    WriteConfig(s, p, off, bufs);
    WriteStepEffect(s, p, off, bufs);
    WriteLimit(s, p, off, bufs);
    var op := Write(p, off, bufs);
    ReservedAfter(Residents(s), Target(s, op), Evicted(s, op), s.reserved);
    assert (Target(s, op) - Residents(s)) * s.reserved
           == if Admitted(s, p) && !Resident(s, p) && p in s.reserved then {p} else {};
  }

  lemma ReservedAfter(r: set<int>, target: set<int>, gone: set<int>, reserved: set<int>)
    requires gone !! reserved
    ensures |(r + target - gone) * reserved| == |r * reserved| + |(target - r) * reserved|
  {
    assert (r + target - gone) * reserved == r * reserved + (target - r) * reserved;
    UnionSize(r * reserved, (target - r) * reserved);
  }

  lemma QuietMeaning(s: State, op: Op)
    requires Inv(s) && Legal(s, op) && !op.Write?
    ensures var s' := Step(s, op).s;
            && Residents(s') == Residents(s)
            && (if op.Resize? && op.m > s.capacity then s'.bufferLimit == s'.bufferSize
                else s'.bufferSize == s.bufferSize && s'.bufferLimit == s.bufferLimit)
            && s'.reserved == (if op.Reserve? then set i | i in op.list else s.reserved)
  {
    QuietStep(s, op);
  }

  lemma {:induction false} CountersUnderFixedReservations(s: State, ops: seq<Op>)
    requires Inv(s) && CountersMean(s) && LegalRun(s, ops) && Fixed(s, ops)
    ensures CountersMean(Run(s, ops))
    decreases |ops|
  {
    if ops == [] {
    } else {
      MeaningStep(s, ops[0]);
      CountersUnderFixedReservations(Step(s, ops[0]).s, ops[1..]);
    }
  }

  /** So the counters of a new storage have their meaning in every state after its first reservation. */
  lemma CountersFromTheStart(capacity: int, pieceLength: int, lengths: seq<int>, picker: Picker,
                             list: seq<int>, ops: seq<Op>)
    requires Metadata(capacity, pieceLength, lengths, picker)
    requires LegalRun(Init(capacity, pieceLength, lengths, picker), [Reserve(list)] + ops)
    requires var s1 := Step(Init(capacity, pieceLength, lengths, picker), Reserve(list)).s;
             Inv(s1) && LegalRun(s1, ops) && Fixed(s1, ops)
    ensures CountersMean(Run(Init(capacity, pieceLength, lengths, picker), [Reserve(list)] + ops))
  {
    var s := Init(capacity, pieceLength, lengths, picker);
    var s1 := Step(s, Reserve(list)).s;
    StepInv(s, Reserve(list));
    SameTables(s, s1);
    CountersUnderFixedReservations(s1, ops);
    assert ([Reserve(list)] + ops)[1..] == ops;
  }

  /** Growth outside those conditions loses the meaning of the counters. */
  lemma GrowthLosesMeaning(s: State, m: int)
    requires Inv(s) && CountersMean(s) && m > s.capacity
    ensures Inv(SetMemorySize(s, m))
    ensures CountersMean(SetMemorySize(s, m)) <==> Residents(s) !! s.reserved
  {
    var op := Resize(m);
    QuietMeaning(s, op);
    SplitResidents(s);
    Conservation(s, op);
    SplitResidents(Step(s, op).s);
    assert Step(s, op).s == SetMemorySize(s, m);
    NoneInCommon(Residents(s), s.reserved);
  }

  /** Replacing the reserved set loses it too, unless as many residents are reserved as before. */
  lemma ReserveLosesMeaning(s: State, list: seq<int>)
    requires Inv(s) && CountersMean(s) && Legal(s, Reserve(list))
    ensures Inv(Step(s, Reserve(list)).s)
    ensures CountersMean(Step(s, Reserve(list)).s) <==>
            |Residents(s) * (set i | i in list)| == |Residents(s) * s.reserved|
  {
    var op := Reserve(list);
    QuietMeaning(s, op);
    SplitResidents(s);
    Conservation(s, op);
    SplitResidents(Step(s, op).s);
  }
}
