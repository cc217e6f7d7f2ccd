// What one operation does to the set of resident pieces and to the bytes of each of them.
module Effects {
  import opened Bytes
  import opened Model
  import opened Trimming

  /** A writev to a piece that is not resident passes this test before it looks for a buffer. */
  ghost predicate Gate(s: State, p: int) {
    !s.isReading || Readered(s, p)
  }

  /** writev stores its payload: the piece is resident, or is let in and finds a free buffer. */
  ghost predicate Admitted(s: State, p: int)
    requires Inv(s) && 0 <= p < |s.pieces|
  {
    Resident(s, p) || (Gate(s, p) && !Full(s))
  }

  /** The bytes of `q`, an all-zero string when it is not resident. */
  ghost function BytesOf(s: State, q: int): (r: seq<Byte>)
    requires Inv(s) && 0 <= q < |s.pieces|
    ensures |r| == s.pieceLength
  {
    if Resident(s, q) then
      assert PieceOk(s, q) && BufferOk(s, s.pieces[q].bi);
      Content(s, q)
    else Zeros(s.pieceLength)
  }

  /** `q` has the same bytes and the same counter in both states. */
  ghost predicate SamePiece(s: State, s': State, q: int) {
    && Resident(s, q) && Resident(s', q)
    && Content(s', q) == Content(s, q) && Size(s', q) == Size(s, q)
  }

  lemma FirstFreeFinds(s: State)
    requires Inv(s)
    ensures FirstFree(s, 0) == -1 <==> Full(s)
  {
    FirstFreeIsFree(s, 0);
    var b := FirstFree(s, 0);
    if b == -1 {
      assert forall c :: 0 <= c < |s.buffers| ==> InUse(s, c);
    } else {
      assert !InUse(s, b);
    }
  }

  lemma AdmitEffect(s: State, p: int)
    requires Inv(s) && 0 <= p < |s.pieces|
    ensures var s1 := Admit(s, p);
            && Inv(s1) && (Resident(s1, p) <==> Admitted(s, p))
            && Residents(s1) == (if Admitted(s, p) then Residents(s) + {p} else Residents(s))
            && BytesOf(s1, p) == BytesOf(s, p) && Size(s1, p) == Size(s, p)
            && s1.reserved == s.reserved && s1.clock >= s.clock && s1.pieceLength == s.pieceLength
    ensures forall q :: Resident(s, q) ==> SamePiece(s, Admit(s, p), q)
  {
    AdmitInv(s, p);
    FirstFreeFinds(s);
    FirstFreeIsFree(s, 0);
    var s1 := Admit(s, p);
    var b := FirstFree(s, 0);
    assert PieceOk(s, p) && PieceOk(s1, p);
    if s.pieces[p].bi != -1 {
      assert Residents(s) == Residents(s) + {p};
    } else if s.isReading && !Readered(s, p) {
      SameTables(s, s1);
    } else if b != -1 {
      AssignInv(s, p, b);
      assert BufferOk(s, b);
    }
    forall q | Resident(s, q) ensures SamePiece(s, s1, q) {
      assert PieceOk(s, q) && PieceOk(s1, q);
      if b != -1 {
        assert BufferOk(s, b);
      }
    }
  }

  lemma StoreEffect(s: State, p: int, off: nat, data: seq<Byte>)
    requires Inv(s) && Resident(s, p) && off + |data| <= s.pieces[p].length
    ensures PieceOk(s, p) && BufferOk(s, s.pieces[p].bi)
    ensures var s1 := Store(s, p, off, data);
            && Inv(s1) && Residents(s1) == Residents(s) && Resident(s1, p)
            && Content(s1, p) == Overwrite(Content(s, p), off, data)
            && Size(s1, p) == Size(s, p) + |data|
    ensures forall q :: Resident(s, q) && q != p ==> SamePiece(s, Store(s, p, off, data), q)
  {
    StoreInv(s, p, off, data);
    var s1 := Store(s, p, off, data);
    forall q | Resident(s, q) && q != p ensures SamePiece(s, s1, q) {
      assert PieceOk(s, q) && PieceOk(s1, q);
    }
  }

  lemma EvictEffect(s: State, b: int)
    requires Inv(s) && 0 <= b < |s.buffers| && s.buffers[b].used
    ensures BufferOk(s, b) && Inv(Evict(s, b))
    ensures Residents(Evict(s, b)) == Residents(s) - {s.buffers[b].pi}
    ensures forall q :: Resident(s, q) && q != s.buffers[b].pi ==> SamePiece(s, Evict(s, b), q)
  {
    EvictInv(s, b);
    var s1 := Evict(s, b);
    forall q | Resident(s, q) && q != s.buffers[b].pi ensures SamePiece(s, s1, q) {
      assert PieceOk(s, q) && PieceOk(s1, q);
    }
  }

  /** Every resident piece outside `except` stays as it was. */
  ghost predicate Keeps(s: State, s': State, except: set<int>) {
    forall q :: Resident(s, q) && q !in except ==> SamePiece(s, s', q)
  }

  /** The pieces whose bytes one operation writes. */
  ghost function Target(s: State, op: Op): set<int>
    requires Inv(s) && Legal(s, op)
  {
    if op.Write? && Admitted(s, op.p) then {op.p} else {}
  }

  /** writev up to its call of trim. */
  lemma StoredEffect(s: State, p: int, off: nat, bufs: seq<seq<Byte>>)
    requires Inv(s) && 0 <= p < |s.pieces| && off <= s.pieces[p].length
    ensures var s1 := Stored(s, p, off, bufs);
            && Inv(s1) && Drift(s1) == Drift(s) && s1.reserved == s.reserved
            && (Resident(s1, p) <==> Admitted(s, p))
            && Residents(s1) == (if Admitted(s, p) then Residents(s) + {p} else Residents(s))
            && (Admitted(s, p) ==>
                  && off + |Payload(s, p, off, bufs)| <= s.pieceLength
                  && Content(s1, p) == Overwrite(BytesOf(s, p), off, Payload(s, p, off, bufs))
                  && Size(s1, p) == Size(s, p) + |Payload(s, p, off, bufs)|)
    ensures Keeps(s, Stored(s, p, off, bufs), Target(s, Write(p, off, bufs)))
  {
    StoredDrift(s, p, off, bufs);
    AdmitEffect(s, p);
    var s0 := Admit(s, p);
    assert PieceOk(s, p) && PieceOk(s0, p);
    if s0.pieces[p].bi != -1 {
      StoreEffect(s0, p, off, Payload(s, p, off, bufs));
      assert s0.pieces[p].length == s.pieces[p].length;
      assert Residents(s0) == Residents(s) + {p};
    }
  }

  ghost predicate Survives(s: State, s': State, gone: set<int>) {
    && Inv(s') && Residents(s') == Residents(s) - gone
    && forall q :: Resident(s, q) && q !in gone ==> SamePiece(s, s', q)
  }

  lemma LaterSurvives(s: State, t: int)
    requires Inv(s) && t >= s.clock
    ensures Survives(s, s.(clock := t), {})
  {
    var s' := s.(clock := t);
    SameTables(s, s');
    forall q | Resident(s, q) ensures SamePiece(s, s', q) {
      assert PieceOk(s, q) && PieceOk(s', q);
    }
  }

  lemma EvictSurvives(s: State, b: int, t: int)
    requires Inv(s) && 0 <= b < |s.buffers| && s.buffers[b].used && t >= s.clock
    ensures BufferOk(s, b) && Survives(s, Evict(s.(clock := t), b), {s.buffers[b].pi})
  {
    assert BufferOk(s, b);
    var s2 := s.(clock := t);
    var s' := Evict(s2, b);
    LaterSurvives(s, t);
    EvictEffect(s2, b);
    forall q | Resident(s, q) && q != s.buffers[b].pi ensures SamePiece(s, s', q) {
      assert SamePiece(s, s2, q) && SamePiece(s2, s', q);
    }
  }

  /** What the call of trim at the end of a writev to `p` takes away. */
  lemma TrimEffect(s: State, p: int) returns (gone: set<int>)
    requires Inv(s) && Drift(s) >= 0 && Resident(s, p)
    ensures Survives(s, Trim(s, p).s, gone) && FairEviction(s, p, gone)
  {
    TrimEvicts(s, p);
    var b := Pick(s, p);
    var r := Trim(s, p);
    gone := {};
    if s.bufferUsed < s.bufferLimit || b == -1 {
      LaterSurvives(s, r.s.clock);
    } else {
      EvictSurvives(s, b, r.s.clock - 1);
      gone := {s.buffers[b].pi};
      assert Resident(s, s.buffers[b].pi);
    }
  }

  /** The pieces that one operation removes from the pool. */
  ghost function Evicted(s: State, op: Op): set<int>
    requires Inv(s) && Legal(s, op)
  {
    if op.Write? then Residents(Stored(s, op.p, op.off, op.bufs)) - Residents(Step(s, op).s) else {}
  }

  /** Whoever has to go: resident, not the piece being written, not reserved, and one at most. */
  ghost predicate FairEviction(s: State, p: int, gone: set<int>) {
    && gone <= Residents(s) && p !in gone && gone !! s.reserved && |gone| <= 1
    && (gone != {} ==> Drift(s) == 0 && Full(s))
  }

  lemma FinishEffect(s: State, p: int, n: nat) returns (gone: set<int>)
    requires Inv(s) && Drift(s) >= 0 && 0 <= p < |s.pieces|
    ensures Survives(s, Finish(s, p, n).s, gone) && FairEviction(s, p, gone)
  {
    if Resident(s, p) {
      gone := TrimEffect(s, p);
      assert Finish(s, p, n).s == Trim(s, p).s;
    } else {
      gone := {};
      LaterSurvives(s, s.clock);
    }
  }

  /** A complete writev is the store, followed by at most one fair eviction. */
  lemma WriteEffect(s: State, p: int, off: nat, bufs: seq<seq<Byte>>) returns (gone: set<int>)
    requires Inv(s) && Drift(s) >= 0 && 0 <= p < |s.pieces| && off <= s.pieces[p].length
    ensures Survives(Stored(s, p, off, bufs), Writev(s, p, off, bufs).s, gone)
    ensures FairEviction(Stored(s, p, off, bufs), p, gone)
  {
    StoredEffect(s, p, off, bufs);
    gone := FinishEffect(Stored(s, p, off, bufs), p, |Payload(s, p, off, bufs)|);
  }

  /** A write that is turned away touches libtorrent's view of the piece at most. */
  lemma RefusedWrite(s: State, p: int, off: nat, bufs: seq<seq<Byte>>)
    requires Inv(s) && 0 <= p < |s.pieces| && off <= s.pieces[p].length && !Admitted(s, p)
    ensures Writev(s, p, off, bufs) == Result(if Gate(s, p) then s else Restore(s, p), Returned(0, []))
    ensures Evicted(s, Write(p, off, bufs)) == {}
  {
    AdmitEffect(s, p);
    FirstFreeFinds(s);
    var s1 := Admit(s, p);
    assert s1 == if Gate(s, p) then s else Restore(s, p);
    assert !Resident(s1, p);
    assert Stored(s, p, off, bufs) == s1;
  }

  /** writev returns the number of bytes stored, 0 for a piece that is not admitted. */
  lemma WriteOutput(s: State, p: int, off: nat, bufs: seq<seq<Byte>>)
    requires Inv(s) && Drift(s) >= 0 && 0 <= p < |s.pieces| && off <= s.pieces[p].length
    ensures var out := Writev(s, p, off, bufs).out;
            out == Spins || out == Returned(if Admitted(s, p) then |Payload(s, p, off, bufs)| else 0, [])
    ensures Writev(s, p, off, bufs).out == Spins ==> Admitted(s, p)
  {
    StoredEffect(s, p, off, bufs);
  }

  /** The pool is full once `p` is in it. */
  ghost predicate FillsPool(s: State, p: int) {
    |Residents(s) + {p}| == s.bufferSize
  }

  /** All residents but `p` are reserved. */
  ghost predicate OthersReserved(s: State, p: int) {
    Residents(s) - {p} <= s.reserved
  }

  lemma StoredIsFull(s: State, p: int, off: nat, bufs: seq<seq<Byte>>)
    requires Inv(s) && 0 <= p < |s.pieces| && off <= s.pieces[p].length && Admitted(s, p)
    ensures Full(Stored(s, p, off, bufs)) <==> FillsPool(s, p)
  {
    StoredEffect(s, p, off, bufs);
    var s1 := Stored(s, p, off, bufs);
    UsedBound(s1);
    ResidentCount(s1);
    assert s1.bufferSize == s.bufferSize;
  }

  lemma StoredHasVictim(s: State, p: int, off: nat, bufs: seq<seq<Byte>>)
    requires Inv(s) && 0 <= p < |s.pieces| && off <= s.pieces[p].length && Admitted(s, p)
    ensures NoVictim(Stored(s, p, off, bufs), p) <==> OthersReserved(s, p)
  {
    StoredEffect(s, p, off, bufs);
    var s1 := Stored(s, p, off, bufs);
    if OthersReserved(s, p) {
      forall b | 0 <= b < |s1.buffers| ensures !Evictable(s1, p, b) {
        assert BufferOk(s1, b);
        if s1.buffers[b].used {
          assert Resident(s1, s1.buffers[b].pi);
          assert s1.buffers[b].pi in Residents(s1);
        }
      }
    } else {
      var q :| q in Residents(s) - {p} && q !in s.reserved;
      assert Resident(s, q) && Resident(s1, q) && PieceOk(s1, q) && BufferOk(s1, s1.pieces[q].bi);
      assert Evictable(s1, p, s1.pieces[q].bi);
    }
  }

  /** Exactly when a writev hangs, said about the state before the call. */
  lemma WriteSpins(s: State, p: int, off: nat, bufs: seq<seq<Byte>>)
    requires Inv(s) && Drift(s) >= 0 && 0 <= p < |s.pieces| && off <= s.pieces[p].length
    ensures Writev(s, p, off, bufs).out.Spins? <==>
            Drift(s) == 0 && Admitted(s, p) && FillsPool(s, p) && OthersReserved(s, p)
  {
    StoredEffect(s, p, off, bufs);
    if Admitted(s, p) {
      StoredIsFull(s, p, off, bufs);
      StoredHasVictim(s, p, off, bufs);
      var s1 := Stored(s, p, off, bufs);
      TrimTerminates(s1, p);
      FullTest(s1);
    }
  }

  /** Exactly when a writev evicts: in the same situation, but for a resident that may go. */
  lemma WriteEvicts(s: State, p: int, off: nat, bufs: seq<seq<Byte>>)
    requires Inv(s) && Drift(s) >= 0 && 0 <= p < |s.pieces| && off <= s.pieces[p].length
    ensures Evicted(s, Write(p, off, bufs)) != {} <==>
            Drift(s) == 0 && Admitted(s, p) && FillsPool(s, p) && !OthersReserved(s, p)
  {
    StoredEffect(s, p, off, bufs);
    if Admitted(s, p) {
      StoredIsFull(s, p, off, bufs);
      StoredHasVictim(s, p, off, bufs);
      FinishEvicts(Stored(s, p, off, bufs), p, |Payload(s, p, off, bufs)|);
    } else {
      RefusedWrite(s, p, off, bufs);
    }
  }

  lemma TrimCounts(s: State, p: int)
    requires Inv(s) && Drift(s) >= 0 && Resident(s, p)
    ensures Inv(Trim(s, p).s)
    ensures |Residents(Trim(s, p).s)| == |Residents(s)| - (if Drift(s) == 0 && Full(s) && !NoVictim(s, p) then 1 else 0)
  {
    TrimTerminates(s, p);
    ResidentCount(s);
    ResidentCount(Trim(s, p).s);
  }

  lemma FinishEvicts(s: State, p: int, n: nat)
    requires Inv(s) && Drift(s) >= 0 && Resident(s, p)
    ensures Residents(s) - Residents(Finish(s, p, n).s) != {} <==> Drift(s) == 0 && Full(s) && !NoVictim(s, p)
  {
    var s' := Finish(s, p, n).s;
    var gone := TrimEffect(s, p);
    TrimCounts(s, p);
    assert s' == Trim(s, p).s;
    assert Residents(s) - Residents(s') == gone;
    RemovedSize(Residents(s), gone);
  }

  lemma RemovedSize(all: set<int>, gone: set<int>)
    requires gone <= all
    ensures |all - gone| == |all| - |gone|
    ensures gone != {} <==> |all - gone| < |all|
  {
    assert all == (all - gone) + gone;
  }

  /** The effect of any operation on residency, and on the bytes of the pieces that stay. */
  ghost predicate Effect(s: State, s': State, target: set<int>, gone: set<int>) {
    && Inv(s')
    && Residents(s') == Residents(s) + target - gone
    && gone !! target + s.reserved && |gone| <= 1
    && (gone != {} ==> Drift(s) == 0)
    && Keeps(s, s', gone + target)
  }

  lemma StepEffect(s: State, op: Op)
    requires Inv(s) && Drift(s) >= 0 && Legal(s, op)
    ensures Effect(s, Step(s, op).s, Target(s, op), Evicted(s, op))
  {
    if op.Write? {
      WriteStepEffect(s, op.p, op.off, op.bufs);
    } else {
      QuietStep(s, op);
      assert Target(s, op) == {} && Evicted(s, op) == {};
    }
  }

  lemma KeepsThenSurvives(s: State, s1: State, s2: State, target: set<int>, gone: set<int>)
    requires Keeps(s, s1, target) && Survives(s1, s2, gone)
    ensures Keeps(s, s2, gone + target)
  {
    forall q | Resident(s, q) && q !in gone + target ensures SamePiece(s, s2, q) {
      assert SamePiece(s, s1, q) && SamePiece(s1, s2, q);
    }
  }

  /** A change of the target only, and then the loss of pieces other than the target. */
  lemma ComposeEffect(s: State, s1: State, s2: State, target: set<int>, gone: set<int>)
    requires Keeps(s, s1, target) && Survives(s1, s2, gone)
    requires Residents(s1) == Residents(s) + target && s1.reserved == s.reserved && Drift(s1) == Drift(s)
    requires gone !! target && gone !! s1.reserved && |gone| <= 1 && (gone != {} ==> Drift(s1) == 0)
    ensures Effect(s, s2, target, gone)
  {
    KeepsThenSurvives(s, s1, s2, target, gone);
  }

  lemma StoredResidents(s: State, p: int, off: nat, bufs: seq<seq<Byte>>)
    requires Inv(s) && 0 <= p < |s.pieces| && off <= s.pieces[p].length
    ensures Residents(Stored(s, p, off, bufs)) == Residents(s) + Target(s, Write(p, off, bufs))
  {
    StoredEffect(s, p, off, bufs);
  }

  lemma SurvivorsGone(s: State, s': State, gone: set<int>)
    requires Survives(s, s', gone) && gone <= Residents(s)
    ensures Residents(s) - Residents(s') == gone
  {
  }

  lemma WriteStepEffect(s: State, p: int, off: nat, bufs: seq<seq<Byte>>)
    requires Inv(s) && Drift(s) >= 0 && 0 <= p < |s.pieces| && off <= s.pieces[p].length
    ensures var op := Write(p, off, bufs);
            Effect(s, Writev(s, p, off, bufs).s, Target(s, op), Evicted(s, op))
  {
    var op := Write(p, off, bufs);
    var s1 := Stored(s, p, off, bufs);
    StoredEffect(s, p, off, bufs);
    StoredResidents(s, p, off, bufs);
    var gone := WriteEffect(s, p, off, bufs);
    SurvivorsGone(s1, Writev(s, p, off, bufs).s, gone);
    ComposeEffect(s, s1, Writev(s, p, off, bufs).s, Target(s, op), gone);
  }

  /** A writev never evicts the piece it writes. */
  lemma OwnPieceStays(s: State, p: int, off: nat, bufs: seq<seq<Byte>>)
    requires Inv(s) && Drift(s) >= 0 && 0 <= p < |s.pieces| && off <= s.pieces[p].length
    ensures p !in Evicted(s, Write(p, off, bufs))
  {
    var gone := WriteEffect(s, p, off, bufs);
    assert Evicted(s, Write(p, off, bufs)) <= gone;
  }

  /** The written piece is resident afterwards, with the payload in place and counted. */
  lemma WriteLands(s: State, p: int, off: nat, bufs: seq<seq<Byte>>)
    requires Inv(s) && Drift(s) >= 0 && 0 <= p < |s.pieces| && off <= s.pieces[p].length && Admitted(s, p)
    ensures var s' := Writev(s, p, off, bufs).s;
            var data := Payload(s, p, off, bufs);
            && Inv(s') && Resident(s', p) && off + |data| <= s.pieces[p].length <= s.pieceLength
            && Content(s', p) == Overwrite(BytesOf(s, p), off, data)
            && Size(s', p) == Size(s, p) + |data|
  {
    assert PieceOk(s, p);
    StoredEffect(s, p, off, bufs);
    var gone := WriteEffect(s, p, off, bufs);
    assert SamePiece(Stored(s, p, off, bufs), Writev(s, p, off, bufs).s, p);
  }

  /** Same pieces, same buffers up to access times, and perhaps more buffers. */
  ghost predicate SameTablesUpToTime(s: State, s': State) {
    && s'.pieces == s.pieces
    && |s'.buffers| >= |s.buffers|
    && forall b :: 0 <= b < |s.buffers| ==>
         s'.buffers[b] == s.buffers[b].(accessed := s'.buffers[b].accessed)
  }

  lemma QuietTables(s: State, op: Op)
    requires Inv(s) && Legal(s, op) && !op.Write?
    ensures SameTablesUpToTime(s, Step(s, op).s)
  {
    match op {
      case VectorRead(p, _, _) =>
        assert PieceOk(s, p);
      case PlainRead(p, _, _) =>
        assert PieceOk(s, p);
      case Resize(m) =>
        if m > s.capacity {
          PoolSizeGrows(s.capacity, m, s.pieceLength, |s.pieces|);
        }
      case _ =>
    }
  }

  /** Every operation but writev leaves residency and bytes alone. */
  lemma QuietStep(s: State, op: Op)
    requires Inv(s) && Legal(s, op) && !op.Write?
    ensures var s' := Step(s, op).s;
            Inv(s') && SameTablesUpToTime(s, s') && Survives(s, s', {})
  {
    StepInv(s, op);
    QuietTables(s, op);
    SamePieces(s, Step(s, op).s);
  }

  lemma SamePieces(s: State, s': State)
    requires Inv(s) && Inv(s') && SameTablesUpToTime(s, s')
    ensures Survives(s, s', {})
  {
    assert forall q :: 0 <= q < |s.pieces| ==> (Resident(s', q) <==> Resident(s, q));
    forall q | Resident(s, q) ensures SamePiece(s, s', q) {
      assert PieceOk(s, q) && PieceOk(s', q);
    }
  }
}
