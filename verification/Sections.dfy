// The locked section of trim when several threads run: it can always go on while the reserved
// set leaves room, it evicts one piece at most, and none once set_memory_size has brought drift.
module Sections {
  import opened Bytes
  import opened Model
  import opened Trimming
  import opened Threads
  import opened Interleaving

  // ----- The counters against the pool -----

  /** What set_memory_size, one call at a time, keeps between the two sizes and the limit. */
  ghost predicate Measured(y: Sys) {
    Safe(y) && Indexed(y.s) && Settled(y) && y.s.bufferLimit <= y.s.bufferSize && y.drift >= 0
  }

  lemma MeasuredStep(y: Sys, mv: Move)
    requires Measured(y) && Enabled(y, mv) && (mv.Go? ==> InBounds(y, mv.t)) && OneAtATime(y, mv)
    ensures Measured(Do(y, mv)) && LinksInPlace(y, mv) && InPlace(y, mv)
  {
    SerializedStep(y, mv);
    if mv.Go? {
      LimitStep(y, mv.t);
    }
  }

  lemma LimitStep(y: Sys, t: int)
    requires Safe(y) && Enabled(y, Go(t)) && InBounds(y, t)
    requires y.s.bufferLimit <= y.s.bufferSize && y.drift >= 0
    ensures var y' := Advance(y, t); y'.s.bufferLimit <= y'.s.bufferSize && y'.drift >= 0
  {
    var y' := Advance(y, t);
    if y.pcs[t].SizeApply? {
    } else if y.pcs[t].GetCount? {
    } else {
      assert y'.drift == y.drift && y'.s.bufferSize == y.s.bufferSize && y'.s.bufferLimit == y.s.bufferLimit;
    }
  }

  /** Inside trim there are exactly as many buffers as the pool size says. */
  lemma InTrimSettled(y: Sys)
    requires Safe(y) && Settled(y)
    requires Owner(y).TrimGuard? || Owner(y).TrimReset? || Owner(y).TrimCount? || Owner(y).TrimUnlink?
    ensures |y.s.buffers| == y.s.bufferSize
  {
    forall t | 0 <= t < |y.pcs| ensures !y.pcs[t].SizePush? {
      assert Locked(y.pcs[t]) <==> t == y.lock;
    }
  }

  lemma UsedAtMost(s: State)
    ensures |UsedBuffers(s)| <= |s.buffers|
    ensures |UsedBuffers(s)| == |s.buffers| <==> Full(s)
  {
    var all := Range(0, |s.buffers|);
    RangeSize(0, |s.buffers|);
    SubsetSize(UsedBuffers(s), all);
    if Full(s) {
      assert UsedBuffers(s) == all;
    }
    if |UsedBuffers(s)| == |s.buffers| {
      forall b | 0 <= b < |s.buffers| ensures InUse(s, b) {
        assert b in all;
      }
    }
  }

  /** At its guard, the loop goes on just when there is no drift and no buffer is free. */
  lemma GuardExactly(y: Sys)
    requires Measured(y) && Owner(y).TrimGuard?
    ensures y.s.bufferUsed >= y.s.bufferLimit <==> y.drift == 0 && Full(y.s)
    ensures y.s.bufferUsed <= y.s.bufferLimit
  {
    InTrimSettled(y);
    UsedAtMost(y.s);
  }

  // ----- When the loop can go on -----

  /** The thread at the guard of the loop has a way on: out of it, or to a victim. */
  ghost predicate CanGoOn(y: Sys, t: int)
    requires 0 <= t < |y.pcs|
  {
    y.s.bufferUsed < y.s.bufferLimit || exists b :: Enabled(y, Choose(t, b))
  }

  /**
   * Exactly when trim is stuck, whatever the other threads have done: there is no drift, no
   * buffer is free, and every piece in the pool but the one just written is reserved.
   */
  lemma StuckExactly(y: Sys, t: int)
    requires Measured(y) && 0 <= t < |y.pcs| && y.pcs[t].TrimGuard?
    ensures !CanGoOn(y, t) <==>
            y.drift == 0 && Full(y.s)
            && forall b :: 0 <= b < |y.s.buffers| ==> y.s.buffers[b].pi in y.s.reserved + {y.pcs[t].keep}
  {
    assert Locked(y.pcs[t]) && Owner(y) == y.pcs[t];
    GuardExactly(y);
    if Full(y.s) {
      forall b | 0 <= b < |y.s.buffers|
        ensures Evictable(y.s, y.pcs[t].keep, b) <==> y.s.buffers[b].pi !in y.s.reserved + {y.pcs[t].keep}
      {
        assert InUse(y.s, b) && BufferLinked(y, b);
      }
      if b :| 0 <= b < |y.s.buffers| && y.s.buffers[b].pi !in y.s.reserved + {y.pcs[t].keep} && y.drift == 0 {
        assert Enabled(y, Choose(t, b));
      }
    }
  }

  /** The pieces in the buffers `bs`. */
  ghost function Occupants(s: State, bs: set<int>): set<int>
    requires forall b :: b in bs ==> 0 <= b < |s.buffers|
  {
    set b | b in bs :: s.buffers[b].pi
  }

  lemma {:induction false} OccupantCount(y: Sys, bs: set<int>)
    requires Safe(y) && Plain(Owner(y)) && bs <= UsedBuffers(y.s)
    ensures |Occupants(y.s, bs)| == |bs|
    decreases |bs|
  {
    if bs == {} {
      assert Occupants(y.s, bs) == {};
    } else {
      var b :| b in bs;
      var rest := bs - {b};
      OccupantCount(y, rest);
      assert InUse(y.s, b) && BufferLinked(y, b);
      forall c | c in rest ensures y.s.buffers[c].pi != y.s.buffers[b].pi {
        assert InUse(y.s, c) && BufferLinked(y, c);
      }
      assert Occupants(y.s, bs) == Occupants(y.s, rest) + {y.s.buffers[b].pi};
    }
  }

  /** A reserved set that leaves two buffers never gets trim stuck. */
  lemma RoomToGoOn(y: Sys, t: int)
    requires Measured(y) && 0 <= t < |y.pcs| && y.pcs[t].TrimGuard? && |y.s.reserved| <= y.s.bufferSize - 2
    ensures CanGoOn(y, t)
  {
    assert Locked(y.pcs[t]) && Owner(y) == y.pcs[t];
    StuckExactly(y, t);
    if !CanGoOn(y, t) {
      var used, kept := UsedBuffers(y.s), y.s.reserved + {y.pcs[t].keep};
      InTrimSettled(y);
      UsedAtMost(y.s);
      OccupantCount(y, used);
      UnionSize(y.s.reserved, {y.pcs[t].keep});
      SubsetSize(Occupants(y.s, used), kept);
      assert false;
    }
  }

  // ----- How much a section evicts -----

  /** The victims chosen since m_mutex was last taken, when there were `k` before the move. */
  function Victims(y: Sys, mv: Move, k: nat): nat {
    if mv.Choose? then k + 1
    else if mv.Go? && 0 <= mv.t < |y.pcs| && Acquires(y.pcs[mv.t]) then 0
    else k
  }

  /** No section of the run chooses more than one victim, and none when there is drift. */
  ghost predicate OneVictimEach(y: Sys, mvs: seq<Move>, k: nat)
    requires Playable(y, mvs)
    decreases |mvs|
  {
    && k <= 1
    && (mvs != [] ==>
          && (mvs[0].Choose? ==> y.drift == 0 && Full(y.s))
          && OneVictimEach(Do(y, mvs[0]), mvs[1..], Victims(y, mvs[0], k)))
  }

  /** After its victim the section finds the counter below the limit. */
  ghost predicate Sated(y: Sys, k: nat) {
    && k <= 1
    && (Owner(y).TrimGuard? && k == 1 ==> y.s.bufferUsed < y.s.bufferLimit)
    && (Owner(y).TrimReset? || Owner(y).TrimCount? ==> k == 1 && y.s.bufferUsed <= y.s.bufferLimit)
    && (Owner(y).TrimUnlink? ==> k == 1 && y.s.bufferUsed < y.s.bufferLimit)
  }

  lemma SatedStep(y: Sys, mv: Move, k: nat)
    requires Measured(y) && Sated(y, k) && Enabled(y, mv) && (mv.Go? ==> InBounds(y, mv.t))
    ensures Sated(Do(y, mv), Victims(y, mv, k))
    ensures mv.Choose? ==> y.drift == 0 && Full(y.s)
  {
    var y' := Do(y, mv);
    if mv.SetReserved? {
      assert Owner(y') == Owner(y);
    } else {
      assert Locked(y.pcs[mv.t]) <==> mv.t == y.lock;
      if y.lock != -1 && mv.t != y.lock {
        assert Owner(y') == Owner(y);
      } else if mv.Choose? {
        GuardExactly(y);
      }
    }
  }

  lemma {:induction false} SectionsSated(y: Sys, mvs: seq<Move>, k: nat)
    requires Measured(y) && Sated(y, k) && Playable(y, mvs) && Serialized(y, mvs)
    ensures OneVictimEach(y, mvs, k) && Measured(Play(y, mvs))
    decreases |mvs|
  {
    if mvs == [] {
    } else {
      MeasuredStep(y, mvs[0]);
      SatedStep(y, mvs[0], k);
      SectionsSated(Do(y, mvs[0]), mvs[1..], Victims(y, mvs[0], k));
    }
  }

  /**
   * In every run of a new storage with one set_memory_size at a time: each locked section of
   * trim evicts one piece at most, none when there is drift; and in every state a thread in
   * the loop of trim is stuck in one situation only, which a reserved set that leaves two
   * buffers rules out.
   */
  lemma TrimUnderInterleaving(capacity: int, pieceLength: int, lengths: seq<int>, picker: Picker,
                              threads: nat, mvs: seq<Move>)
    requires Metadata(capacity, pieceLength, lengths, picker)
    requires var y := Start(Init(capacity, pieceLength, lengths, picker), threads);
             Playable(y, mvs) && Serialized(y, mvs)
    ensures OneVictimEach(Start(Init(capacity, pieceLength, lengths, picker), threads), mvs, 0)
    ensures var y := Play(Start(Init(capacity, pieceLength, lengths, picker), threads), mvs);
            forall t :: 0 <= t < |y.pcs| && y.pcs[t].TrimGuard? ==>
              && (|y.s.reserved| <= y.s.bufferSize - 2 ==> CanGoOn(y, t))
              && (!CanGoOn(y, t) <==>
                    y.drift == 0 && Full(y.s)
                    && forall b :: 0 <= b < |y.s.buffers| ==> y.s.buffers[b].pi in y.s.reserved + {y.pcs[t].keep})
  {
    var y0 := Start(Init(capacity, pieceLength, lengths, picker), threads);
    StartSafe(capacity, pieceLength, lengths, picker, threads);
    SectionsSated(y0, mvs, 0);
    var y := Play(y0, mvs);
    forall t | 0 <= t < |y.pcs| && y.pcs[t].TrimGuard?
      ensures |y.s.reserved| <= y.s.bufferSize - 2 ==> CanGoOn(y, t)
      ensures !CanGoOn(y, t) <==>
              y.drift == 0 && Full(y.s)
              && forall b :: 0 <= b < |y.s.buffers| ==> y.s.buffers[b].pi in y.s.reserved + {y.pcs[t].keep}
    {
      StuckExactly(y, t);
      if |y.s.reserved| <= y.s.bufferSize - 2 {
        RoomToGoOn(y, t);
      }
    }
  }
}
