// Who is evicted: the least recently used of the pieces without priority, or of all pieces
// when every one has priority; with "recently" measured by the run, not by the clock.
module EvictionOrder {
  import opened Bytes
  import opened Model
  import opened Trimming
  import opened Effects
  import opened Runs

  // ----- The two scans -----

  /** find_last_buffer returns the earliest candidate, the lowest-numbered among equals. */
  lemma {:induction false} OldestIsLeast(s: State, keep: int, checkRead: bool, t: int, n: nat)
    requires Inv(s) && n <= |s.buffers|
    ensures var b := Oldest(s, keep, checkRead, t, n);
            b != -1 ==>
              && s.buffers[b].accessed < t
              && forall c :: 0 <= c < n && c != b && Candidate(s, keep, checkRead, c) ==>
                   s.buffers[b].accessed < s.buffers[c].accessed
                   || (s.buffers[b].accessed == s.buffers[c].accessed && b < c)
    ensures Oldest(s, keep, checkRead, t, n) == -1 ==>
              forall c :: 0 <= c < n && Candidate(s, keep, checkRead, c) ==> s.buffers[c].accessed >= t
  {
    if n == 0 {
    } else {
      OldestIsLeast(s, keep, checkRead, t, n - 1);
    }
  }

  /** Strict order of eviction: no priority first, then earlier access, then lower index. */
  ghost predicate GoesBefore(s: State, a: int, b: int)
    requires Inv(s) && InUse(s, a) && InUse(s, b)
  {
    assert BufferOk(s, a) && BufferOk(s, b);
    var ra, rb := Readered(s, s.buffers[a].pi), Readered(s, s.buffers[b].pi);
    if ra != rb then rb
    else
      s.buffers[a].accessed < s.buffers[b].accessed
      || (s.buffers[a].accessed == s.buffers[b].accessed && a < b)
  }

  /** The buffer evicted is the least of all that may be evicted, in that order. */
  lemma PickIsLeast(s: State, keep: int, c: int)
    requires Inv(s) && Pick(s, keep) != -1
    requires 0 <= c < |s.buffers| && Evictable(s, keep, c) && c != Pick(s, keep)
    ensures Evictable(s, keep, Pick(s, keep)) && GoesBefore(s, Pick(s, keep), c)
  {
    var n := |s.buffers|;
    OldestIsLeast(s, keep, true, s.clock, n);
    OldestIsLeast(s, keep, false, s.clock + 1, n);
    OldestIsCandidate(s, keep, true, s.clock, n);
    OldestIsCandidate(s, keep, false, s.clock + 1, n);
    OldestComplete(s, keep, true, s.clock, n);
    var b := Pick(s, keep);
    assert BufferOk(s, b) && BufferOk(s, c);
    assert Candidate(s, keep, false, c) && Candidate(s, keep, false, b);
    assert Candidate(s, keep, true, c) <==> !Readered(s, s.buffers[c].pi);
    assert Candidate(s, keep, true, b) <==> !Readered(s, s.buffers[b].pi);
  }

  // ----- Access times and the trace of the run -----

  /** When the buffer of a resident piece was last accessed. */
  ghost function Accessed(s: State, p: int): int {
    if Resident(s, p) && 0 <= s.pieces[p].bi < |s.buffers| then s.buffers[s.pieces[p].bi].accessed else -1
  }

  /** The piece an operation reads from or writes to, if it gets to it. */
  ghost function Touches(s: State, op: Op): set<int>
    requires Inv(s) && Legal(s, op)
  {
    match op
    case Write(p, _, _) => if Admitted(s, p) then {p} else {}
    case VectorRead(p, _, _) => if Resident(s, p) then {p} else {}
    case PlainRead(p, off, _) =>
      if Resident(s, p) && Size(s, p) >= s.pieces[p].length && off < s.pieceLength then {p} else {}
    case _ => {}
  }

  ghost predicate TimesKept(s: State, s': State, touched: set<int>) {
    forall q :: Resident(s, q) && Resident(s', q) && q !in touched ==> Accessed(s', q) == Accessed(s, q)
  }

  ghost predicate TimesNew(s: State, s': State, touched: set<int>) {
    && s'.clock >= s.clock
    && forall q :: q in touched && Resident(s', q) ==> s.clock <= Accessed(s', q) < s'.clock
  }

  lemma AccessedEarlier(s: State, p: int)
    requires Inv(s) && Resident(s, p)
    ensures Accessed(s, p) < s.clock
  {
    assert PieceOk(s, p) && BufferOk(s, s.pieces[p].bi);
  }

  lemma AdmitTimes(s: State, p: int)
    requires Inv(s) && 0 <= p < |s.pieces|
    ensures TimesKept(s, Admit(s, p), {p}) && Admit(s, p).clock >= s.clock
  {
    FirstFreeIsFree(s, 0);
    var s1 := Admit(s, p);
    forall q | Resident(s, q) && q != p ensures Accessed(s1, q) == Accessed(s, q) {
      assert PieceOk(s, q) && BufferOk(s, s.pieces[q].bi);
    }
  }

  lemma StoreTimes(s: State, p: int, off: nat, data: seq<Byte>)
    requires Inv(s) && Resident(s, p) && off + |data| <= s.pieces[p].length
    ensures PieceOk(s, p) && BufferOk(s, s.pieces[p].bi)
    ensures var s1 := Store(s, p, off, data);
            TimesKept(s, s1, {p}) && Accessed(s1, p) == s.clock && s1.clock == s.clock + 1
  {
    assert PieceOk(s, p) && BufferOk(s, s.pieces[p].bi);
    var s1 := Store(s, p, off, data);
    forall q | Resident(s, q) && q != p ensures Accessed(s1, q) == Accessed(s, q) {
      assert PieceOk(s, q);
    }
  }

  lemma TimesChain(s: State, s1: State, s2: State, touched: set<int>)
    requires TimesKept(s, s1, touched) && TimesKept(s1, s2, touched)
    requires Keeps(s, s1, touched)
    ensures TimesKept(s, s2, touched)
  {
    forall q | Resident(s, q) && Resident(s2, q) && q !in touched ensures Accessed(s2, q) == Accessed(s, q) {
      assert SamePiece(s, s1, q);
    }
  }

  lemma StoredTimes(s: State, p: int, off: nat, bufs: seq<seq<Byte>>)
    requires Inv(s) && Legal(s, Write(p, off, bufs)) && Admitted(s, p)
    ensures var s1 := Stored(s, p, off, bufs);
            TimesKept(s, s1, {p}) && TimesNew(s, s1, {p})
  {
    AdmitEffect(s, p);
    AdmitTimes(s, p);
    StoreTimes(Admit(s, p), p, off, Payload(s, p, off, bufs));
    TimesChain(s, Admit(s, p), Stored(s, p, off, bufs), {p});
  }

  lemma FinishTimes(s: State, p: int, n: nat)
    requires Inv(s) && Drift(s) >= 0 && 0 <= p < |s.pieces|
    ensures TimesKept(s, Finish(s, p, n).s, {}) && Finish(s, p, n).s.clock >= s.clock
  {
    TrimEvicts(s, p);
    var b, r := Pick(s, p), Trim(s, p);
    if s.pieces[p].bi != -1 && s.bufferUsed >= s.bufferLimit && b != -1 {
      forall q | Resident(s, q) && Resident(r.s, q) ensures Accessed(r.s, q) == Accessed(s, q) {
        assert PieceOk(s, q) && BufferOk(s, b);
      }
    }
  }

  lemma WriteTimes(s: State, p: int, off: nat, bufs: seq<seq<Byte>>)
    requires Inv(s) && Drift(s) >= 0 && Legal(s, Write(p, off, bufs))
    ensures var s' := Writev(s, p, off, bufs).s;
            TimesKept(s, s', Target(s, Write(p, off, bufs))) && TimesNew(s, s', Target(s, Write(p, off, bufs)))
  {
    if Admitted(s, p) {
      StoredEffect(s, p, off, bufs);
      StoredTimes(s, p, off, bufs);
      var s1, s' := Stored(s, p, off, bufs), Writev(s, p, off, bufs).s;
      FinishTimes(s1, p, |Payload(s, p, off, bufs)|);
      WriteLands(s, p, off, bufs);
      TimesChain(s, s1, s', {p});
    } else {
      RefusedWrite(s, p, off, bufs);
    }
  }

  lemma ReadTimes(s: State, op: Op)
    requires Inv(s) && Legal(s, op) && (op.VectorRead? || op.PlainRead?)
    ensures TimesKept(s, Step(s, op).s, Touches(s, op)) && TimesNew(s, Step(s, op).s, Touches(s, op))
  {
    var s', p := Step(s, op).s, op.p;
    assert PieceOk(s, p) && s'.pieces == s.pieces;
    forall q | Resident(s, q) && q != p ensures Accessed(s', q) == Accessed(s, q) {
      assert PieceOk(s, q);
    }
  }

  lemma QuietTimes(s: State, op: Op)
    requires Inv(s) && Legal(s, op) && !op.Write?
    ensures TimesKept(s, Step(s, op).s, Touches(s, op)) && TimesNew(s, Step(s, op).s, Touches(s, op))
  {
    if op.VectorRead? || op.PlainRead? {
      ReadTimes(s, op);
    } else {
      QuietStep(s, op);
      forall q | Resident(s, q) ensures Accessed(Step(s, op).s, q) == Accessed(s, q) {
        assert PieceOk(s, q);
      }
    }
  }

  /** Every operation stamps what it touches with a time later than all earlier ones, and nothing else. */
  lemma StepTimes(s: State, op: Op)
    requires Inv(s) && Drift(s) >= 0 && Legal(s, op)
    ensures TimesKept(s, Step(s, op).s, Touches(s, op)) && TimesNew(s, Step(s, op).s, Touches(s, op))
    ensures Residents(Step(s, op).s) <= Residents(s) + Touches(s, op)
  {
    StepEffect(s, op);
    if op.Write? {
      WriteTimes(s, op.p, op.off, op.bufs);
    } else {
      QuietTimes(s, op);
    }
  }

  /** For each piece, the position in the run of the last operation that touched it. */
  ghost function LastTouch(s: State, ops: seq<Op>, i: int, m: map<int, int>): map<int, int>
    requires Inv(s) && LegalRun(s, ops)
    decreases |ops|
  {
    if ops == [] then m else
      StepInv(s, ops[0]);
      LastTouch(Step(s, ops[0]).s, ops[1..], i + 1, Stamp(m, Touches(s, ops[0]), i))
  }

  ghost function Stamp(m: map<int, int>, touched: set<int>, i: int): map<int, int> {
    m + map q | q in touched :: i
  }

  /** Access times order the resident pieces just as the trace `m` of the first `i` operations does. */
  ghost predicate InStep(s: State, m: map<int, int>, i: int) {
    && Residents(s) <= m.Keys
    && (forall p :: p in m ==> m[p] < i)
    && (forall p, q :: Resident(s, p) && Resident(s, q) && p in m && q in m && p != q ==> SameOrder(s, m, p, q))
  }

  ghost predicate SameOrder(s: State, m: map<int, int>, p: int, q: int)
    requires p in m && q in m
  {
    m[p] != m[q] && (Accessed(s, p) < Accessed(s, q) <==> m[p] < m[q]) && Accessed(s, p) != Accessed(s, q)
  }

  /** What one operation may do to the residents and their times. */
  ghost predicate Retimed(s: State, s': State, touched: set<int>) {
    && (forall p, q :: p in touched && q in touched ==> p == q) && Residents(s') <= Residents(s) + touched
    && TimesKept(s, s', touched) && TimesNew(s, s', touched)
  }

  lemma UntouchedBefore(s: State, s': State, m: map<int, int>, touched: set<int>, i: int, p: int)
    requires Inv(s) && InStep(s, m, i) && Retimed(s, s', touched) && Resident(s', p) && p !in touched
    ensures Resident(s, p) && p in m && Stamp(m, touched, i)[p] == m[p] < i
    ensures Accessed(s', p) == Accessed(s, p) < s.clock
  {
    assert p in Residents(s');
    assert p in Residents(s);
    AccessedEarlier(s, p);
  }

  lemma InStepCarries(s: State, s': State, m: map<int, int>, touched: set<int>, i: int)
    requires Inv(s) && InStep(s, m, i) && Retimed(s, s', touched)
    ensures InStep(s', Stamp(m, touched, i), i + 1)
  {
    var m' := Stamp(m, touched, i);
    forall p | Resident(s', p) && p !in touched
      ensures Resident(s, p) && p in m && m'[p] == m[p] < i && Accessed(s', p) == Accessed(s, p) < s.clock
    {
      UntouchedBefore(s, s', m, touched, i, p);
    }
    forall p, q | Resident(s', p) && Resident(s', q) && p in m' && q in m' && p != q
      ensures SameOrder(s', m', p, q)
    {
      if p !in touched && q !in touched {
        assert SameOrder(s, m, p, q);
      }
    }
  }

  lemma InStepStep(s: State, op: Op, m: map<int, int>, i: int)
    requires Inv(s) && Drift(s) >= 0 && Legal(s, op) && InStep(s, m, i)
    ensures Inv(Step(s, op).s)
    ensures InStep(Step(s, op).s, Stamp(m, Touches(s, op), i), i + 1)
  {
    StepInv(s, op);
    StepTimes(s, op);
    InStepCarries(s, Step(s, op).s, m, Touches(s, op), i);
  }

  lemma {:induction false} RunInStep(s: State, ops: seq<Op>, m: map<int, int>, i: int)
    requires Inv(s) && Drift(s) >= 0 && LegalRun(s, ops) && InStep(s, m, i)
    ensures InStep(Run(s, ops), LastTouch(s, ops, i, m), i + |ops|)
    decreases |ops|
  {
    if ops == [] {
    } else {
      InStepStep(s, ops[0], m, i);
      Conservation(s, ops[0]);
      RunInStep(Step(s, ops[0]).s, ops[1..], Stamp(m, Touches(s, ops[0]), i), i + 1);
    }
  }

  // ----- The theorem -----

  /** `v` is the piece in the buffer that the next call of trim will pick. */
  ghost predicate Chosen(s: State, p: int, v: int)
    requires Inv(s)
  {
    var b := Pick(s, p);
    b != -1 && BufferOk(s, b) && s.buffers[b].used && s.buffers[b].pi == v
  }

  lemma FinishPick(s: State, p: int, n: nat, v: int)
    requires Inv(s) && Drift(s) >= 0 && Resident(s, p) && v in Residents(s) && v !in Residents(Finish(s, p, n).s)
    ensures Chosen(s, p, v)
  {
    TrimEvicts(s, p);
    var b, r := Pick(s, p), Trim(s, p);
    if s.bufferUsed < s.bufferLimit {
    } else if b == -1 {
      SameTables(s, r.s);
    } else {
      EvictSurvives(s, b, r.s.clock - 1);
    }
  }

  /** The piece a writev evicts is the one in the buffer that Pick names. */
  lemma EvictedIsPick(s: State, p: int, off: nat, bufs: seq<seq<Byte>>, v: int)
    requires Inv(s) && Drift(s) >= 0 && Legal(s, Write(p, off, bufs)) && v in Evicted(s, Write(p, off, bufs))
    ensures Admitted(s, p) && Inv(Stored(s, p, off, bufs))
    ensures Chosen(Stored(s, p, off, bufs), p, v)
  {
    if !Admitted(s, p) {
      RefusedWrite(s, p, off, bufs);
    }
    StoredEffect(s, p, off, bufs);
    FinishPick(Stored(s, p, off, bufs), p, |Payload(s, p, off, bufs)|, v);
  }

  lemma NoneInStep(s: State)
    requires Inv(s) && Residents(s) == {}
    ensures InStep(s, map[], 0)
  {
    forall p ensures !Resident(s, p) {
      assert p !in Residents(s);
    }
  }

  lemma AdmittedPicker(s: State, p: int, off: nat, bufs: seq<seq<Byte>>)
    requires Inv(s) && Legal(s, Write(p, off, bufs)) && Admitted(s, p)
    ensures Stored(s, p, off, bufs).picker == s.picker
    ensures Stored(s, p, off, bufs).hasHandle == s.hasHandle
  {
    AdmitEffect(s, p);
  }

  /** The piece evicted was accessed no later than any other that could have gone in its place. */
  lemma EvictionByTime(s: State, p: int, off: nat, bufs: seq<seq<Byte>>, v: int, q: int)
    requires Inv(s) && Drift(s) >= 0 && Legal(s, Write(p, off, bufs)) && v in Evicted(s, Write(p, off, bufs))
    requires Resident(s, q) && q != p && q != v && q !in s.reserved
    ensures Resident(s, v) && v != p && v !in s.reserved
    ensures if Readered(s, v) == Readered(s, q) then Accessed(s, v) <= Accessed(s, q) else Readered(s, q)
  {
    var s1 := Stored(s, p, off, bufs);
    VictimWasThere(s, p, off, bufs, v);
    StoredEffect(s, p, off, bufs);
    StoredTimes(s, p, off, bufs);
    AdmittedPicker(s, p, off, bufs);
    assert SamePiece(s, s1, q) && SamePiece(s, s1, v);
    LeastAccessed(s1, p, v, q);
  }

  lemma VictimWasThere(s: State, p: int, off: nat, bufs: seq<seq<Byte>>, v: int)
    requires Inv(s) && Drift(s) >= 0 && Legal(s, Write(p, off, bufs)) && v in Evicted(s, Write(p, off, bufs))
    ensures Admitted(s, p) && Resident(s, v) && v != p && v !in s.reserved
    ensures Inv(Stored(s, p, off, bufs)) && Chosen(Stored(s, p, off, bufs), p, v)
  {
    WriteStepEffect(s, p, off, bufs);
    EvictedIsPick(s, p, off, bufs, v);
    StoredEffect(s, p, off, bufs);
    assert v in Residents(Stored(s, p, off, bufs));
    assert v in Residents(s);
  }

  lemma LeastAccessed(s: State, p: int, v: int, q: int)
    requires Inv(s) && Chosen(s, p, v)
    requires Resident(s, q) && q != p && q != v && q !in s.reserved
    ensures if Readered(s, v) == Readered(s, q) then Accessed(s, v) <= Accessed(s, q) else Readered(s, q)
  {
    var b, c := Pick(s, p), s.pieces[q].bi;
    assert PieceOk(s, q) && BufferOk(s, c) && BufferOk(s, b);
    PickIsLeast(s, p, c);
    assert GoesBefore(s, b, c);
  }

  /**
   * At any moment of a run, a writev that evicts takes, among the resident pieces that are
   * neither reserved nor the one written, one without priority if there is any, and of
   * those that qualify the one touched longest ago.
   */
  lemma EvictionFollowsTrace(s0: State, ops: seq<Op>, p: int, off: nat, bufs: seq<seq<Byte>>, v: int, q: int)
    requires Inv(s0) && Drift(s0) >= 0 && Residents(s0) == {} && LegalRun(s0, ops)
    requires Legal(Run(s0, ops), Write(p, off, bufs)) && v in Evicted(Run(s0, ops), Write(p, off, bufs))
    requires Resident(Run(s0, ops), q) && q != p && q != v && q !in Run(s0, ops).reserved
    ensures var s, last := Run(s0, ops), LastTouch(s0, ops, 0, map[]);
            && Resident(s, v) && v != p && v !in s.reserved && v in last && q in last
            && (if Readered(s, v) == Readered(s, q) then last[v] < last[q] else Readered(s, q))
  {
    var s := Run(s0, ops);
    NoneInStep(s0);
    RunInStep(s0, ops, map[], 0);
    RunDrift(s0, ops);
    EvictionByTime(s, p, off, bufs, v, q);
    assert SameOrder(s, LastTouch(s0, ops, 0, map[]), v, q);
    assert v in Residents(s) && q in Residents(s);
  }
}
