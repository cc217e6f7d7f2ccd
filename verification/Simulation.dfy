// One thread on its own does what the sequential storage does: every run of the storage that
// returns is, as far as tables and counters go, a run of the threads.
module Simulation {
  import opened Bytes
  import opened Model
  import opened Trimming
  import opened Effects
  import opened Runs
  import opened Threads
  import opened Interleaving
  import opened Sections
  import opened Answers
  import opened Solo

  /** Tables, counters, byte counters and reserved set are the same. */
  ghost predicate Shares(a: State, b: State) {
    Alike(a, b) && b.pieces == a.pieces && b.reserved == a.reserved
  }

  /** Nobody is inside m_mutex, and the shared state is that of the storage. */
  ghost predicate Mirrors(y: Sys, s: State) {
    y.lock == -1 && y.drift == Drift(s) && Shares(y.s, s)
  }

  lemma SharesTaken(a: State, b: State, p: int, i: int)
    requires Shares(a, b) && 0 <= p < |b.pieces| && 0 <= i < |b.buffers|
    ensures Shares(Taken(a, p, i), Model.Assign(b, p, i))
  {
    var a', b' := Taken(a, p, i), Model.Assign(b, p, i);
    assert SameUse(a.buffers[i], b.buffers[i]);
    assert SameUse(a'.buffers[i], b'.buffers[i]);
    forall k | 0 <= k < |a.buffers| && k != i ensures SameUse(a'.buffers[k], b'.buffers[k]) {
      assert SameUse(a.buffers[k], b.buffers[k]) && a'.buffers[k] == a.buffers[k] && b'.buffers[k] == b.buffers[k];
    }
    assert a'.pieces == b'.pieces;
  }

  lemma SharesAdded(a: State, b: State, p: int, off: nat, data: seq<Byte>)
    requires Inv(b) && Shares(a, b) && Resident(b, p) && off + |data| <= b.pieces[p].length
    ensures PieceOk(b, p) && BufferOk(b, b.pieces[p].bi)
    ensures Shares(Added(a, p, |data|), Store(b, p, off, data))
  {
    assert PieceOk(b, p) && BufferOk(b, b.pieces[p].bi);
    var b' := Store(b, p, off, data);
    forall k | 0 <= k < |a.buffers| ensures SameUse(a.buffers[k], b'.buffers[k]) {
      assert SameUse(a.buffers[k], b.buffers[k]);
    }
  }

  lemma SharesFreed(a: State, b: State, i: int)
    requires Shares(a, b) && 0 <= i < |b.buffers| && 0 <= b.buffers[i].pi < |b.pieces| == |b.picker.prio|
    ensures a.buffers[i].pi == b.buffers[i].pi && Shares(Freed(a, i), Evict(b, i))
  {
    assert SameUse(a.buffers[i], b.buffers[i]);
    forall k | 0 <= k < |a.buffers| ensures SameUse(Freed(a, i).buffers[k], Evict(b, i).buffers[k]) {
      assert SameUse(a.buffers[k], b.buffers[k]);
    }
  }

  lemma SharesUsed(a: State, b: State, i: int)
    requires Shares(a, b) && 0 <= i < |b.buffers|
    ensures SameUse(a.buffers[i], b.buffers[i])
    ensures forall keep :: Evictable(a, keep, i) <==> Evictable(b, keep, i)
  {
    assert SameUse(a.buffers[i], b.buffers[i]);
  }

  /** get_buffer on its own: with a buffer the thread goes on to copy, without one it returns. */
  lemma GetSimulated(y: Sys, t: int, s: State, p: int) returns (mvs: seq<Move>)
    requires Inv(s) && Mirrors(y, s) && 0 <= t < |y.pcs| && y.pcs[t].Idle? && 0 <= p < |s.pieces|
    ensures Playable(y, mvs)
    ensures var y', s' := Play(y, mvs), Admit(s, p);
            && y'.lock == -1 && y'.drift == y.drift && Shares(y'.s, s')
            && y'.pcs == if s'.pieces[p].bi != -1 then y.pcs[t := Fill(p)] else y.pcs
  {
    var i := FirstFree(s, 0);
    FirstFreeIsFree(s, 0);
    AdmitInv(s, p);
    forall k | 0 <= k < |s.buffers| ensures SameUse(y.s.buffers[k], s.buffers[k]) {
    }
    if s.pieces[p].bi != -1 {
      mvs := BufferedRun(y, t, p);
    } else if s.isReading && !Readered(s, p) {
      mvs := RefusedRun(y, t, p);
    } else if i == -1 {
      mvs := FullRun(y, t, p);
    } else {
      mvs := AdmitRun(y, t, p, i);
      SharesTaken(y.s, s, p, i);
      assert BufferOk(s, i);
    }
  }

  /** With no drift a full pool has the counter at the limit. */
  lemma FullUsed(s: State)
    requires Inv(s) && Drift(s) == 0 && Full(s)
    ensures s.bufferUsed == s.bufferLimit
  {
    UsedBound(s);
  }

  /** writev with something to evict, from the state `s` that its bytes and count lead to. */
  lemma EvictSimulated(y: Sys, t: int, s: State, p: int, n: nat) returns (mvs: seq<Move>)
    requires Inv(s) && Drift(s) >= 0 && y.lock == -1 && 0 <= t < |y.pcs| && y.pcs[t] == Fill(p)
    requires 0 <= p < |y.s.pieces| && Shares(Added(y.s, p, n), s) && Resident(s, p)
    requires s.bufferUsed >= s.bufferLimit && !Trim(s, p).spins
    ensures Playable(y, mvs)
    ensures var y' := Play(y, mvs);
            y'.lock == -1 && y'.drift == y.drift && Shares(y'.s, Trim(s, p).s) && y'.pcs == y.pcs[t := Idle]
  {
    TrimEvicts(s, p);
    var b, r := Pick(s, p), Trim(s, p);
    FullUsed(s);
    SharesUsed(Added(y.s, p, n), s, b);
    SharesFreed(Added(y.s, p, n), s.(clock := r.s.clock - 1), b);
    mvs := FinishRun(y, t, n, b);
  }

  /** The rest of writev on its own, when it returns. */
  lemma FinishSimulated(y: Sys, t: int, s: State, p: int, off: nat, data: seq<Byte>) returns (mvs: seq<Move>)
    requires Inv(s) && Drift(s) >= 0 && Mirrors(y, s) && 0 <= t < |y.pcs| && y.pcs[t] == Fill(p)
    requires Resident(s, p) && off + |data| <= s.pieces[p].length
    requires PieceOk(s, p) && BufferOk(s, s.pieces[p].bi)
    requires Inv(Store(s, p, off, data)) && Drift(Store(s, p, off, data)) == Drift(s)
    requires !Finish(Store(s, p, off, data), p, |data|).out.Spins?
    ensures Playable(y, mvs)
    ensures var y', s' := Play(y, mvs), Finish(Store(s, p, off, data), p, |data|).s;
            y'.lock == -1 && y'.drift == y.drift && Shares(y'.s, s') && y'.pcs == y.pcs[t := Idle]
  {
    var s1 := Store(s, p, off, data);
    SharesAdded(y.s, s, p, off, data);
    if s1.bufferUsed < s1.bufferLimit {
      mvs := ReturnRun(y, t, |data|);
    } else {
      mvs := EvictSimulated(y, t, s1, p, |data|);
    }
  }

  /** The two parts of a writev. */
  lemma WritevParts(s: State, p: int, off: nat, bufs: seq<seq<Byte>>)
    requires Inv(s) && Legal(s, Write(p, off, bufs))
    ensures var s1, data := Admit(s, p), Payload(s, p, off, bufs);
            && Inv(s1) && Drift(s1) == Drift(s) && PieceOk(s1, p)
            && (s1.pieces[p].bi == -1 ==> Writev(s, p, off, bufs) == Result(s1, Returned(0, [])))
            && (s1.pieces[p].bi != -1 ==>
                  && off + |data| <= s1.pieces[p].length && BufferOk(s1, s1.pieces[p].bi)
                  && Inv(Store(s1, p, off, data)) && Drift(Store(s1, p, off, data)) == Drift(s)
                  && Writev(s, p, off, bufs) == Finish(Store(s1, p, off, data), p, |data|))
  {
    StoredDrift(s, p, off, bufs);
    AdmitDrift(s, p);
    assert PieceOk(s, p) && PieceOk(Admit(s, p), p);
    if Admit(s, p).pieces[p].bi != -1 {
      assert BufferOk(Admit(s, p), Admit(s, p).pieces[p].bi);
    }
  }

  /** writev on its own does what Model.Writev does, if that returns. */
  lemma WritevSimulated(y: Sys, t: int, s: State, p: int, off: nat, bufs: seq<seq<Byte>>) returns (mvs: seq<Move>)
    requires Inv(s) && Drift(s) >= 0 && Mirrors(y, s) && 0 <= t < |y.pcs| && y.pcs[t].Idle?
    requires Legal(s, Write(p, off, bufs)) && !Writev(s, p, off, bufs).out.Spins?
    ensures Playable(y, mvs)
    ensures Mirrors(Play(y, mvs), Writev(s, p, off, bufs).s) && Play(y, mvs).pcs == y.pcs
  {
    WriteDrift(s, p, off, bufs);
    WritevParts(s, p, off, bufs);
    var get := GetSimulated(y, t, s, p);
    var y1 := Play(y, get);
    if Admit(s, p).pieces[p].bi == -1 {
      mvs := get;
    } else {
      var rest := FinishSimulated(y1, t, Admit(s, p), p, off, Payload(s, p, off, bufs));
      PlayConcat(y, get, rest);
      mvs := get + rest;
      assert Play(y1, rest).pcs == y.pcs;
    }
  }

  /** And where Model.Writev does not return, the thread is stuck in the loop of trim. */
  lemma SpinSimulated(y: Sys, t: int, s: State, p: int, off: nat, bufs: seq<seq<Byte>>) returns (mvs: seq<Move>)
    requires Inv(s) && Drift(s) >= 0 && Mirrors(y, s) && 0 <= t < |y.pcs| && y.pcs[t].Idle?
    requires Legal(s, Write(p, off, bufs)) && Writev(s, p, off, bufs).out.Spins?
    ensures Playable(y, mvs)
    ensures |Play(y, mvs).pcs| == |y.pcs| && Play(y, mvs).pcs[t] == TrimGuard(p) && !CanGoOn(Play(y, mvs), t)
  {
    WritevParts(s, p, off, bufs);
    var get := GetSimulated(y, t, s, p);
    var rest := FinishStuck(Play(y, get), t, Admit(s, p), p, off, Payload(s, p, off, bufs));
    PlayConcat(y, get, rest);
    mvs := get + rest;
  }

  lemma FinishStuck(y: Sys, t: int, s: State, p: int, off: nat, data: seq<Byte>) returns (mvs: seq<Move>)
    requires Inv(s) && Drift(s) >= 0 && Mirrors(y, s) && 0 <= t < |y.pcs| && y.pcs[t] == Fill(p)
    requires Resident(s, p) && off + |data| <= s.pieces[p].length
    requires PieceOk(s, p) && BufferOk(s, s.pieces[p].bi)
    requires Inv(Store(s, p, off, data)) && Drift(Store(s, p, off, data)) == Drift(s)
    requires Finish(Store(s, p, off, data), p, |data|).out.Spins?
    ensures Playable(y, mvs)
    ensures |Play(y, mvs).pcs| == |y.pcs| && Play(y, mvs).pcs[t] == TrimGuard(p) && !CanGoOn(Play(y, mvs), t)
  {
    var s1 := Store(s, p, off, data);
    SharesAdded(y.s, s, p, off, data);
    TrimTerminates(s1, p);
    mvs := GuardRun(y, t, |data|);
    var y1 := Play(y, mvs);
    forall b | 0 <= b < |y1.s.buffers| ensures !Evictable(y1.s, p, b) {
      SharesUsed(y1.s, s1, b);
    }
  }

  lemma ResizeSimulated(y: Sys, t: int, s: State, m: int) returns (mvs: seq<Move>)
    requires Inv(s) && Mirrors(y, s) && 0 <= t < |y.pcs| && y.pcs[t].Idle?
    ensures Playable(y, mvs)
    ensures Mirrors(Play(y, mvs), SetMemorySize(s, m)) && Play(y, mvs).pcs == y.pcs
  {
    Conservation(s, Resize(m));
    if m <= s.capacity {
      mvs := EnoughRun(y, t, m);
    } else {
      PoolSizeGrows(s.capacity, m, s.pieceLength, |s.pieces|);
      var y';
      mvs, y' := ResizeRun(y, t, m);
      GrownShares(y.s, s, m);
    }
  }

  lemma GrownShares(a: State, b: State, m: int)
    requires Inv(b) && Shares(a, b) && m > b.capacity
    ensures Shares(Grown(a, m), SetMemorySize(b, m))
  {
    PoolSizeGrows(b.capacity, m, b.pieceLength, |b.pieces|);
    var a', b' := Grown(a, m), SetMemorySize(b, m);
    forall k | 0 <= k < |a'.buffers| ensures SameUse(a'.buffers[k], b'.buffers[k]) {
      if k < |a.buffers| {
        assert SameUse(a.buffers[k], b.buffers[k]);
      }
    }
  }

  /** The other operations touch nothing the threads share but the reserved set. */
  lemma RestSimulated(y: Sys, s: State, op: Op) returns (mvs: seq<Move>)
    requires Inv(s) && Mirrors(y, s) && Legal(s, op) && !op.Write? && !op.Resize?
    ensures Playable(y, mvs)
    ensures Mirrors(Play(y, mvs), Step(s, op).s) && Play(y, mvs).pcs == y.pcs
  {
    Conservation(s, op);
    var s' := Step(s, op).s;
    if op.Reserve? {
      var mv := SetReserved(set i | i in op.list);
      First(y, mv, []);
      mvs := [mv] + [];
      assert Play(Do(y, mv), []) == Do(y, mv);
    } else {
      mvs := [];
      QuietTables(s, op);
      StepConfig(s, op);
      QuietMeaning(s, op);
    }
    QuietShares(y.s, s, op);
  }

  lemma QuietShares(a: State, s: State, op: Op)
    requires Inv(s) && Shares(a, s) && Legal(s, op) && !op.Write? && !op.Resize?
    ensures Shares(a.(reserved := Step(s, op).s.reserved), Step(s, op).s)
  {
    QuietTables(s, op);
    QuietSizes(s, op);
    var s' := Step(s, op).s;
    forall k | 0 <= k < |a.buffers| ensures SameUse(a.buffers[k], s'.buffers[k]) {
      assert SameUse(a.buffers[k], s.buffers[k]);
    }
  }

  lemma QuietSizes(s: State, op: Op)
    requires Inv(s) && Legal(s, op) && !op.Write? && !op.Resize?
    ensures var s' := Step(s, op).s;
            && s'.pieceLength == s.pieceLength && s'.capacity == s.capacity && |s'.buffers| == |s.buffers|
            && s'.bufferSize == s.bufferSize && s'.bufferLimit == s.bufferLimit && s'.bufferUsed == s.bufferUsed
  {
    assert op.VectorRead? || op.PlainRead? ==> PieceOk(s, op.p);
  }

  /** No call of the run fails to return. */
  ghost predicate AllReturn(s: State, ops: seq<Op>)
    requires Inv(s) && LegalRun(s, ops)
    decreases |ops|
  {
    ops != [] ==> !Step(s, ops[0]).out.Spins? && (StepInv(s, ops[0]); AllReturn(Step(s, ops[0]).s, ops[1..]))
  }

  lemma StepSimulated(y: Sys, t: int, s: State, op: Op) returns (mvs: seq<Move>)
    requires Inv(s) && Drift(s) >= 0 && Mirrors(y, s) && 0 <= t < |y.pcs| && y.pcs[t].Idle?
    requires Legal(s, op) && !Step(s, op).out.Spins?
    ensures Playable(y, mvs)
    ensures Mirrors(Play(y, mvs), Step(s, op).s) && Play(y, mvs).pcs == y.pcs
  {
    match op
    case Write(p, off, bufs) => mvs := WritevSimulated(y, t, s, p, off, bufs);
    case Resize(m) => mvs := ResizeSimulated(y, t, s, m);
    case _ => mvs := RestSimulated(y, s, op);
  }

  lemma {:induction false} RunSimulated(y: Sys, t: int, s: State, ops: seq<Op>) returns (mvs: seq<Move>)
    requires Inv(s) && Drift(s) >= 0 && Mirrors(y, s) && 0 <= t < |y.pcs| && y.pcs[t].Idle?
    requires LegalRun(s, ops) && AllReturn(s, ops)
    ensures Playable(y, mvs)
    ensures Mirrors(Play(y, mvs), Run(s, ops)) && Play(y, mvs).pcs == y.pcs
    decreases |ops|
  {
    if ops == [] {
      mvs := [];
    } else {
      var a := StepSimulated(y, t, s, ops[0]);
      Conservation(s, ops[0]);
      var y1 := Play(y, a);
      var b := RunSimulated(y1, t, Step(s, ops[0]).s, ops[1..]);
      PlayConcat(y, a, b);
      mvs := a + b;
    }
  }

  /**
   * Every run of a new storage in which all calls return is a run of one of its threads: it
   * leads to the same tables, counters, byte counters and reserved set.
   */
  lemma StorageIsSimulated(capacity: int, pieceLength: int, lengths: seq<int>, picker: Picker, threads: nat,
                           t: int, ops: seq<Op>)
      returns (mvs: seq<Move>)
    requires Metadata(capacity, pieceLength, lengths, picker) && 0 <= t < threads
    requires var s := Init(capacity, pieceLength, lengths, picker); LegalRun(s, ops) && AllReturn(s, ops)
    ensures Playable(Start(Init(capacity, pieceLength, lengths, picker), threads), mvs)
    ensures var s := Run(Init(capacity, pieceLength, lengths, picker), ops);
            var y := Play(Start(Init(capacity, pieceLength, lengths, picker), threads), mvs);
            && y.s.pieces == s.pieces && y.s.reserved == s.reserved && y.s.capacity == s.capacity
            && y.s.bufferSize == s.bufferSize && y.s.bufferLimit == s.bufferLimit && y.s.bufferUsed == s.bufferUsed
            && |y.s.buffers| == |s.buffers| && y.drift == Drift(s)
            && forall b :: 0 <= b < |s.buffers| ==>
                 y.s.buffers[b].index == b && y.s.buffers[b].pi == s.buffers[b].pi
                 && y.s.buffers[b].used == s.buffers[b].used
  {
    var s0 := Init(capacity, pieceLength, lengths, picker);
    var y0 := Start(s0, threads);
    mvs := RunSimulated(y0, t, s0, ops);
    var s, y := Run(s0, ops), Play(y0, mvs);
    forall b | 0 <= b < |s.buffers|
      ensures y.s.buffers[b].index == b && y.s.buffers[b].pi == s.buffers[b].pi
              && y.s.buffers[b].used == s.buffers[b].used
    {
      assert BufferOk(s, b) && SameUse(y.s.buffers[b], s.buffers[b]);
    }
  }
}
