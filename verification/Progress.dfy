// Calls come to an end: every move of a thread brings its call nearer to its return, nobody else
// sets it back, and nobody is stuck but where trim hangs.  And what the tests made outside
// m_mutex decide.
module Progress {
  import opened Bytes
  import opened Model
  import opened Trimming
  import opened Threads
  import opened Interleaving
  import opened Sections

  // ----- A measure of what is left of a call -----

  /** The stages left; `k` is the number of victims the current section has chosen. */
  function StagesLeft(pc: PC, k: nat): nat {
    match pc
    case Idle => 0
    case Leave(p) => if p == -1 then 1 else 11
    case SizePush(_) => 2
    case SizeApply(_) => 3
    case SizeWait(_) => 4
    case SizeCheck(_) => 5
    case TrimGuard(_) => if k == 0 then 6 else 2
    case TrimUnlink(_, _) => 3
    case TrimCount(_, _) => 4
    case TrimReset(_, _) => 5
    case TrimWait(_) => 7
    case TrimCheck(_) => 8
    case Add(_, _, _) => 9
    case Fill(_) => 10
    case GetCount(_) => 12
    case GetLink(_, _) => 13
    case GetScan(_, _) => 14
    case GetRecheck(_) => 15
    case GetWait(_) => 16
    case GetCheck(_) => 17
  }

  /** The buffers left to look at. */
  function BuffersLeft(s: State, pc: PC): nat {
    if pc.GetScan? && pc.i < s.bufferSize then s.bufferSize - pc.i else 0
  }

  /** Nearer to the return: fewer stages left, or as many and fewer buffers. */
  ghost predicate Nearer(y: Sys, k: nat, y': Sys, k': nat, t: int)
    requires 0 <= t < |y.pcs| && |y'.pcs| == |y.pcs|
  {
    var a, b := StagesLeft(y.pcs[t], k), StagesLeft(y'.pcs[t], k');
    b < a || (b == a && BuffersLeft(y'.s, y'.pcs[t]) < BuffersLeft(y.s, y.pcs[t]))
  }

  ghost predicate AsFar(y: Sys, k: nat, y': Sys, k': nat, t: int)
    requires 0 <= t < |y.pcs| && |y'.pcs| == |y.pcs|
  {
    && y'.pcs[t] == y.pcs[t] && StagesLeft(y'.pcs[t], k') == StagesLeft(y.pcs[t], k)
    && BuffersLeft(y'.s, y'.pcs[t]) == BuffersLeft(y.s, y.pcs[t])
  }

  ghost predicate Stuck(y: Sys, t: int)
    requires 0 <= t < |y.pcs|
  {
    y.pcs[t].TrimGuard? && !CanGoOn(y, t)
  }

  /** The move brings the call of its own thread nearer to its return, and leaves the others where they are. */
  ghost predicate MovesOn(y: Sys, mv: Move, k: nat)
    requires Enabled(y, mv) && (mv.Go? ==> InBounds(y, mv.t))
  {
    var y', k' := Do(y, mv), Victims(y, mv, k);
    && |y'.pcs| == |y.pcs|
    && (forall u :: 0 <= u < |y.pcs| && (mv.SetReserved? || u != mv.t) ==> AsFar(y, k, y', k', u))
    && (!mv.SetReserved? && !mv.Call? && !Stuck(y, mv.t) ==> Nearer(y, k, y', k', mv.t))
  }

  lemma TrimNearer(y: Sys, mv: Move, k: nat)
    requires Safe(y) && Sated(y, k) && Enabled(y, mv) && (mv.Go? ==> InBounds(y, mv.t))
    requires (mv.Go? || mv.Choose?) && !Stuck(y, mv.t)
    requires var pc := y.pcs[mv.t]; pc.TrimGuard? || pc.TrimReset? || pc.TrimCount? || pc.TrimUnlink?
    ensures |Do(y, mv).pcs| == |y.pcs| && Nearer(y, k, Do(y, mv), Victims(y, mv, k), mv.t)
  {
    assert Locked(y.pcs[mv.t]) && Owner(y) == y.pcs[mv.t];
    if mv.Go? && y.pcs[mv.t].TrimGuard? {
      forall b | 0 <= b < |y.s.buffers| && Evictable(y.s, y.pcs[mv.t].keep, b)
        ensures y.s.bufferUsed < y.s.bufferLimit
      {
      }
      assert y.s.bufferUsed < y.s.bufferLimit;
    }
  }

  lemma GetNearer(y: Sys, t: int, k: nat)
    requires Safe(y) && Enabled(y, Go(t)) && InBounds(y, t)
    requires var pc := y.pcs[t];
             pc.GetCheck? || pc.GetWait? || pc.GetRecheck? || pc.GetScan? || pc.GetLink? || pc.GetCount?
    ensures |Advance(y, t).pcs| == |y.pcs| && Nearer(y, k, Advance(y, t), Victims(y, Go(t), k), t)
  {
    assert ArgOk(y, y.pcs[t]);
  }

  lemma RestNearer(y: Sys, t: int, k: nat)
    requires Safe(y) && Enabled(y, Go(t)) && InBounds(y, t)
    requires var pc := y.pcs[t];
             pc.TrimCheck? || pc.TrimWait? || pc.SizeCheck? || pc.SizeWait? || pc.SizeApply? || pc.SizePush?
             || pc.Leave? || pc.Add?
    ensures |Advance(y, t).pcs| == |y.pcs| && Nearer(y, k, Advance(y, t), Victims(y, Go(t), k), t)
  {
  }

  lemma OwnMoveNearer(y: Sys, mv: Move, k: nat)
    requires Safe(y) && Sated(y, k) && Enabled(y, mv) && (mv.Go? ==> InBounds(y, mv.t))
    requires !mv.SetReserved? && !mv.Call? && !Stuck(y, mv.t)
    ensures |Do(y, mv).pcs| == |y.pcs| && Nearer(y, k, Do(y, mv), Victims(y, mv, k), mv.t)
  {
    if mv.Choose? {
      TrimNearer(y, mv, k);
    } else if mv.Go? {
      var pc := y.pcs[mv.t];
      if pc.TrimGuard? || pc.TrimReset? || pc.TrimCount? || pc.TrimUnlink? {
        TrimNearer(y, mv, k);
      } else if pc.GetCheck? || pc.GetWait? || pc.GetRecheck? || pc.GetScan? || pc.GetLink? || pc.GetCount? {
        GetNearer(y, mv.t, k);
      } else {
        RestNearer(y, mv.t, k);
      }
    }
  }

  lemma OthersAsFar(y: Sys, mv: Move, k: nat, u: int)
    requires Safe(y) && Enabled(y, mv) && (mv.Go? ==> InBounds(y, mv.t))
    requires 0 <= u < |y.pcs| && (mv.SetReserved? || u != mv.t)
    ensures |Do(y, mv).pcs| == |y.pcs| && AsFar(y, k, Do(y, mv), Victims(y, mv, k), u)
  {
    assert Locked(y.pcs[u]) <==> u == y.lock;
    if !mv.SetReserved? {
      assert Locked(y.pcs[mv.t]) <==> mv.t == y.lock;
    }
  }

  lemma StepMovesOn(y: Sys, mv: Move, k: nat)
    requires Safe(y) && Sated(y, k) && Enabled(y, mv) && (mv.Go? ==> InBounds(y, mv.t))
    ensures MovesOn(y, mv, k)
  {
    forall u | 0 <= u < |y.pcs| && (mv.SetReserved? || u != mv.t)
      ensures |Do(y, mv).pcs| == |y.pcs| && AsFar(y, k, Do(y, mv), Victims(y, mv, k), u)
    {
      OthersAsFar(y, mv, k, u);
    }
    if !mv.SetReserved? && !mv.Call? && !Stuck(y, mv.t) {
      OwnMoveNearer(y, mv, k);
    }
  }

  // ----- Nobody is held up for ever -----

  ghost predicate CanMove(y: Sys, t: int) {
    exists mv :: Enabled(y, mv) && !mv.SetReserved? && !mv.Call? && mv.t == t
  }

  /** Every thread in a call can move, or waits for one that can. */
  ghost predicate NobodyHeldUp(y: Sys) {
    forall t :: 0 <= t < |y.pcs| && !y.pcs[t].Idle? ==>
      CanMove(y, t) || (Acquires(y.pcs[t]) && y.lock != t && CanMove(y, y.lock))
  }

  lemma HolderCanMove(y: Sys, t: int)
    requires Safe(y) && 0 <= t < |y.pcs| && !y.pcs[t].Idle? && (Acquires(y.pcs[t]) ==> y.lock == -1)
    ensures CanMove(y, t)
  {
    assert ArgOk(y, y.pcs[t]);
    if y.pcs[t].Fill? {
      assert Enabled(y, Load(t, 0));
    } else if y.pcs[t].TrimGuard? && y.s.bufferUsed >= y.s.bufferLimit && !NoVictim(y.s, y.pcs[t].keep) {
      var b :| 0 <= b < |y.s.buffers| && Evictable(y.s, y.pcs[t].keep, b);
      assert Enabled(y, Choose(t, b));
    } else {
      assert Enabled(y, Go(t));
    }
  }

  lemma SafeHoldsUpNobody(y: Sys)
    requires Safe(y)
    ensures NobodyHeldUp(y)
  {
    forall t | 0 <= t < |y.pcs| && !y.pcs[t].Idle?
      ensures CanMove(y, t) || (Acquires(y.pcs[t]) && y.lock != t && CanMove(y, y.lock))
    {
      assert Locked(y.pcs[t]) <==> t == y.lock;
      if Acquires(y.pcs[t]) && y.lock != -1 {
        assert Locked(y.pcs[y.lock]);
        HolderCanMove(y, y.lock);
      } else {
        HolderCanMove(y, t);
      }
    }
  }

  // ----- Over runs -----

  ghost predicate AlwaysMovesOn(y: Sys, mvs: seq<Move>, k: nat)
    requires Playable(y, mvs)
    decreases |mvs|
  {
    && NobodyHeldUp(y)
    && (mvs != [] ==> MovesOn(y, mvs[0], k) && AlwaysMovesOn(Do(y, mvs[0]), mvs[1..], Victims(y, mvs[0], k)))
  }

  lemma {:induction false} RunMovesOn(y: Sys, mvs: seq<Move>, k: nat)
    requires Measured(y) && Sated(y, k) && Playable(y, mvs) && Serialized(y, mvs)
    ensures AlwaysMovesOn(y, mvs, k)
    decreases |mvs|
  {
    SafeHoldsUpNobody(y);
    if mvs == [] {
    } else {
      StepMovesOn(y, mvs[0], k);
      MeasuredStep(y, mvs[0]);
      SatedStep(y, mvs[0], k);
      RunMovesOn(Do(y, mvs[0]), mvs[1..], Victims(y, mvs[0], k));
    }
  }

  /**
   * In every run of a new storage with one set_memory_size at a time: each move of a thread in
   * a call brings the call nearer to its return, unless it is stuck in trim; moves of others
   * do not set it back; and each such thread can move, or waits for one that can.
   */
  lemma CallsEnd(capacity: int, pieceLength: int, lengths: seq<int>, picker: Picker, threads: nat, mvs: seq<Move>)
    requires Metadata(capacity, pieceLength, lengths, picker)
    requires var y := Start(Init(capacity, pieceLength, lengths, picker), threads);
             Playable(y, mvs) && Serialized(y, mvs)
    ensures AlwaysMovesOn(Start(Init(capacity, pieceLength, lengths, picker), threads), mvs, 0)
  {
    StartSafe(capacity, pieceLength, lengths, picker, threads);
    RunMovesOn(Start(Init(capacity, pieceLength, lengths, picker), threads), mvs, 0);
  }

  // ----- What the unlocked tests decide -----

  predicate AtTest(pc: PC) {
    pc.GetCheck? || pc.TrimCheck? || pc.SizeCheck?
  }

  /** There is nothing to do: the piece has a buffer, the counters ask for no eviction, the budget is enough. */
  predicate NothingToDo(s: State, pc: PC) {
    match pc
    case GetCheck(p) => 0 <= p < |s.pieces| && s.pieces[p].bi != -1
    case TrimCheck(_) => s.capacity < 0 || s.bufferUsed < s.bufferLimit
    case SizeCheck(m) => m <= s.capacity
    case _ => true
  }

  predicate MoveOf(mv: Move, t: int) {
    !mv.SetReserved? && mv.t == t
  }

  /** The state in which `t` makes its first move. */
  ghost function FirstSeen(y: Sys, mvs: seq<Move>, t: int): State
    requires Playable(y, mvs)
    decreases |mvs|
  {
    if mvs == [] || MoveOf(mvs[0], t) then y.s else FirstSeen(Do(y, mvs[0]), mvs[1..], t)
  }

  ghost predicate TakesLock(y: Sys, mvs: seq<Move>, t: int)
    requires Playable(y, mvs)
    decreases |mvs|
  {
    && mvs != []
    && ((mvs[0] == Go(t) && 0 <= t < |y.pcs| && Acquires(y.pcs[t])) || TakesLock(Do(y, mvs[0]), mvs[1..], t))
  }

  /** The moves of `t` in the run change nothing that is shared. */
  ghost predicate OwnMovesQuiet(y: Sys, mvs: seq<Move>, t: int)
    requires Playable(y, mvs)
    decreases |mvs|
  {
    mvs != [] ==> (MoveOf(mvs[0], t) ==> Do(y, mvs[0]).s == y.s) && OwnMovesQuiet(Do(y, mvs[0]), mvs[1..], t)
  }

  /** The run stays within one call of `t`, or within the part of a writev up to the end of get_buffer. */
  predicate OneCall(mvs: seq<Move>, t: int) {
    forall i :: 0 <= i < |mvs| && MoveOf(mvs[i], t) ==> !mvs[i].Call? && !mvs[i].Load?
  }

  predicate AtEnd(pc: PC) {
    pc.Idle? || pc.Fill?
  }

  lemma {:induction false} EndStays(y: Sys, mvs: seq<Move>, t: int)
    requires Playable(y, mvs) && OneCall(mvs, t) && 0 <= t < |y.pcs| && AtEnd(y.pcs[t])
    ensures !TakesLock(y, mvs, t) && OwnMovesQuiet(y, mvs, t)
    ensures |Play(y, mvs).pcs| == |y.pcs| && Play(y, mvs).pcs[t] == y.pcs[t]
    decreases |mvs|
  {
    if mvs == [] {
    } else {
      assert !MoveOf(mvs[0], t);
      OtherMove(y, mvs[0], t);
      LaterCalls(mvs, t);
      EndStays(Do(y, mvs[0]), mvs[1..], t);
    }
  }

  lemma OtherMove(y: Sys, mv: Move, t: int)
    requires Enabled(y, mv) && (mv.Go? ==> InBounds(y, mv.t)) && 0 <= t < |y.pcs| && !MoveOf(mv, t)
    ensures |Do(y, mv).pcs| == |y.pcs| && Do(y, mv).pcs[t] == y.pcs[t]
  {
  }

  lemma LaterCalls(mvs: seq<Move>, t: int)
    requires mvs != [] && OneCall(mvs, t)
    ensures OneCall(mvs[1..], t)
  {
    forall i | 0 <= i < |mvs[1..]| && MoveOf(mvs[1..][i], t) ensures !mvs[1..][i].Call? && !mvs[1..][i].Load? {
      assert mvs[1..][i] == mvs[i + 1];
    }
  }

  lemma {:induction false} WaitingMustTake(y: Sys, mvs: seq<Move>, t: int)
    requires Playable(y, mvs) && OneCall(mvs, t) && 0 <= t < |y.pcs| && Acquires(y.pcs[t])
    requires |Play(y, mvs).pcs| == |y.pcs| && AtEnd(Play(y, mvs).pcs[t])
    ensures TakesLock(y, mvs, t)
    decreases |mvs|
  {
    if mvs == [] {
    } else if MoveOf(mvs[0], t) {
      assert mvs[0] == Go(t);
    } else {
      OtherMove(y, mvs[0], t);
      LaterCalls(mvs, t);
      WaitingMustTake(Do(y, mvs[0]), mvs[1..], t);
    }
  }

  /**
   * A call at one of its unlocked tests takes m_mutex before its end just if the test, in the
   * state that the thread sees when it makes it, finds something to do; and if it does not take
   * it, it changes nothing.  So get_buffer ends with a buffer and the others return.
   */
  lemma {:induction false} TestsDecide(y: Sys, mvs: seq<Move>, t: int)
    requires Playable(y, mvs) && OneCall(mvs, t) && 0 <= t < |y.pcs| && AtTest(y.pcs[t])
    requires |Play(y, mvs).pcs| == |y.pcs| && AtEnd(Play(y, mvs).pcs[t])
    ensures TakesLock(y, mvs, t) <==> !NothingToDo(FirstSeen(y, mvs, t), y.pcs[t])
    ensures !TakesLock(y, mvs, t) ==>
              && OwnMovesQuiet(y, mvs, t)
              && Play(y, mvs).pcs[t] == if y.pcs[t].GetCheck? then Fill(y.pcs[t].p) else Idle
    decreases |mvs|
  {
    if mvs == [] {
    } else {
      LaterCalls(mvs, t);
      var y' := Do(y, mvs[0]);
      if !MoveOf(mvs[0], t) {
        OtherMove(y, mvs[0], t);
        TestsDecide(y', mvs[1..], t);
      } else {
        assert mvs[0] == Go(t);
        if NothingToDo(y.s, y.pcs[t]) {
          EndStays(y', mvs[1..], t);
        } else {
          WaitingMustTake(y', mvs[1..], t);
        }
      }
    }
  }
}
