// What a writev may count on after get_buffer, when it holds no lock: exactly when it keeps its
// buffer, exactly when the byte counter misses no update, and two rules for callers.
module Writers {
  import opened Bytes
  import opened Model
  import opened Threads
  import opened Interleaving

  /** In a writev of `p`, past get_buffer and before the last use of the buffer. */
  predicate PastBuffer(pc: PC, p: int) {
    (pc.Fill? || pc.Add?) && pc.p == p
  }

  ghost predicate HasBuffer(s: State, p: int) {
    && 0 <= p < |s.pieces| && 0 <= s.pieces[p].bi < |s.buffers|
    && s.buffers[s.pieces[p].bi].pi == p
  }

  /** Each writev of `p` past get_buffer has the buffer of `p`, and no counter stands without a buffer. */
  ghost predicate BufferKept(y: Sys, p: int) {
    && 0 <= p < |y.s.pieces|
    && (forall t :: 0 <= t < |y.pcs| && PastBuffer(y.pcs[t], p) ==> HasBuffer(y.s, p))
    && (y.s.pieces[p].size != 0 ==> y.s.pieces[p].bi != -1)
  }

  // ----- Exactly when a writev keeps its buffer -----

  /**
   * The eviction of `p` does not begin while a writev of it is past get_buffer, and no writev
   * of it passes the unlocked test of get_buffer while that eviction is under way.
   */
  ghost predicate Spares(y: Sys, mv: Move, p: int) {
    mv.Go? && 0 <= mv.t < |y.pcs| ==>
      var pc := y.pcs[mv.t];
      && (pc.TrimReset? && 0 <= pc.b < |y.s.buffers| && y.s.buffers[pc.b].pi == p ==>
            forall u :: 0 <= u < |y.pcs| ==> !PastBuffer(y.pcs[u], p))
      && (pc == GetCheck(p) && 0 <= p < |y.s.pieces| && y.s.pieces[p].bi != -1 ==> !Unlinking(Owner(y), p))
  }

  ghost predicate AllSpare(y: Sys, mvs: seq<Move>, p: int)
    requires Playable(y, mvs)
    decreases |mvs|
  {
    mvs != [] ==> Spares(y, mvs[0], p) && AllSpare(Do(y, mvs[0]), mvs[1..], p)
  }

  ghost predicate BufferAlwaysKept(y: Sys, mvs: seq<Move>, p: int)
    requires Playable(y, mvs)
    decreases |mvs|
  {
    BufferKept(y, p) && (mvs != [] ==> BufferAlwaysKept(Do(y, mvs[0]), mvs[1..], p))
  }

  /** What a step of thread `t` has to respect. */
  ghost predicate Respects(y: Sys, y': Sys, t: int, p: int) {
    && |y'.s.pieces| == |y.s.pieces| && |y'.pcs| == |y.pcs|
    && (forall u :: 0 <= u < |y.pcs| && u != t ==> y'.pcs[u] == y.pcs[u])
    && 0 <= p < |y.s.pieces| && 0 <= t < |y.pcs|
    && (HasBuffer(y.s, p) && !HasBuffer(y'.s, p) ==>
          forall u :: 0 <= u < |y.pcs| && u != t ==> !PastBuffer(y.pcs[u], p))
    && (PastBuffer(y'.pcs[t], p) ==> HasBuffer(y'.s, p))
    && (y'.s.pieces[p].size != 0 ==> y'.s.pieces[p].bi != -1)
  }

  lemma RespectsKeeps(y: Sys, y': Sys, t: int, p: int)
    requires BufferKept(y, p) && Respects(y, y', t, p)
    ensures BufferKept(y', p)
  {
    forall u | 0 <= u < |y'.pcs| && PastBuffer(y'.pcs[u], p) ensures HasBuffer(y'.s, p) {
      assert u != t ==> y'.pcs[u] == y.pcs[u];
    }
  }

  lemma EnterRespects(y: Sys, t: int, p: int)
    requires Safe(y) && BufferKept(y, p) && Enabled(y, Go(t)) && InBounds(y, t) && Spares(y, Go(t), p)
    requires var pc := y.pcs[t]; pc.GetCheck? || pc.GetWait? || pc.GetRecheck?
    ensures Respects(y, Advance(y, t), t, p)
  {
    assert PieceLinked(y, p);
  }

  lemma TakeRespects(y: Sys, t: int, p: int)
    requires Safe(y) && BufferKept(y, p) && Enabled(y, Go(t)) && InBounds(y, t) && LinksInPlace(y, Go(t))
    requires var pc := y.pcs[t]; pc.GetScan? || pc.GetLink? || pc.GetCount?
    ensures Respects(y, Advance(y, t), t, p)
  {
    assert Locked(y.pcs[t]) && Owner(y) == y.pcs[t];
    assert PieceLinked(y, p);
    if y.pcs[t].GetScan? && y.pcs[t].i < y.s.bufferSize {
      assert BufferLinked(y, y.pcs[t].i);
    }
  }

  lemma TrimRespects(y: Sys, t: int, p: int)
    requires Safe(y) && BufferKept(y, p) && Enabled(y, Go(t)) && InBounds(y, t) && Spares(y, Go(t), p)
    requires var pc := y.pcs[t];
             pc.TrimCheck? || pc.TrimWait? || pc.TrimGuard? || pc.TrimReset? || pc.TrimCount? || pc.TrimUnlink?
    ensures Respects(y, Advance(y, t), t, p)
  {
    assert Locked(y.pcs[t]) <==> t == y.lock;
    if y.pcs[t].TrimReset? {
      assert y.s.buffers[y.pcs[t].b].pi != p && HasBuffer(y.s, p) ==> HasBuffer(Advance(y, t).s, p);
    } else if y.pcs[t].TrimUnlink? {
      assert OwnerOk(y) && !HasBuffer(y.s, y.pcs[t].pi);
      assert HasBuffer(y.s, p) ==> HasBuffer(Advance(y, t).s, p);
    }
  }

  lemma RestRespects(y: Sys, t: int, p: int)
    requires Safe(y) && BufferKept(y, p) && Enabled(y, Go(t)) && InBounds(y, t)
    requires var pc := y.pcs[t];
             pc.SizeCheck? || pc.SizeWait? || pc.SizeApply? || pc.SizePush? || pc.Leave? || pc.Add?
    ensures Respects(y, Advance(y, t), t, p)
  {
    assert Locked(y.pcs[t]) <==> t == y.lock;
    assert PieceLinked(y, p);
  }

  lemma GoKeeps(y: Sys, t: int, p: int)
    requires Safe(y) && BufferKept(y, p) && Enabled(y, Go(t)) && InBounds(y, t)
    requires LinksInPlace(y, Go(t)) && Spares(y, Go(t), p)
    ensures BufferKept(Advance(y, t), p)
  {
    var pc := y.pcs[t];
    if pc.TrimCheck? || pc.TrimWait? || pc.TrimGuard? || pc.TrimReset? || pc.TrimCount? || pc.TrimUnlink? {
      TrimRespects(y, t, p);
    } else if pc.SizeCheck? || pc.SizeWait? || pc.SizeApply? || pc.SizePush? || pc.Leave? || pc.Add? {
      RestRespects(y, t, p);
    } else if pc.GetCheck? || pc.GetWait? || pc.GetRecheck? {
      EnterRespects(y, t, p);
    } else {
      TakeRespects(y, t, p);
    }
    RespectsKeeps(y, Advance(y, t), t, p);
  }

  lemma StepKeeps(y: Sys, mv: Move, p: int)
    requires Safe(y) && BufferKept(y, p) && Enabled(y, mv) && (mv.Go? ==> InBounds(y, mv.t))
    requires LinksInPlace(y, mv) && Spares(y, mv, p)
    ensures BufferKept(Do(y, mv), p)
  {
    match mv
    case Go(t) => GoKeeps(y, t, p);
    case SetReserved(_) =>
    case _ => RespectsKeeps(y, Do(y, mv), mv.t, p);
  }

  /** A move that does not spare `p` takes a buffer away from a writev at once. */
  lemma UnsparedLoses(y: Sys, mv: Move, p: int)
    requires Safe(y) && Enabled(y, mv) && (mv.Go? ==> InBounds(y, mv.t)) && !Spares(y, mv, p)
    ensures !BufferKept(Do(y, mv), p)
  {
    var t, y' := mv.t, Do(y, mv);
    assert Locked(y.pcs[t]) <==> t == y.lock;
    if y.pcs[t].TrimReset? {
      var u :| 0 <= u < |y.pcs| && PastBuffer(y.pcs[u], p);
      assert ArgOk(y, y.pcs[u]) && BufferLinked(y, y.pcs[t].b) && u != t;
      assert PastBuffer(y'.pcs[u], p) && !HasBuffer(y'.s, p);
    } else {
      assert PastBuffer(y'.pcs[t], p) && !HasBuffer(y'.s, p);
    }
  }

  /**
   * Every writev of `p` keeps its buffer from get_buffer to the update of the counter, in all
   * states of the run, just if every move of the run spares `p`.
   */
  lemma {:induction false} BufferKeptExactly(y: Sys, mvs: seq<Move>, p: int)
    requires Safe(y) && BufferKept(y, p) && Playable(y, mvs) && AllLinksInPlace(y, mvs)
    ensures BufferAlwaysKept(y, mvs, p) <==> AllSpare(y, mvs, p)
    decreases |mvs|
  {
    if mvs == [] {
    } else if Spares(y, mvs[0], p) {
      DoSafe(y, mvs[0]);
      StepKeeps(y, mvs[0], p);
      BufferKeptExactly(Do(y, mvs[0]), mvs[1..], p);
    } else {
      UnsparedLoses(y, mvs[0], p);
      assert !BufferAlwaysKept(Do(y, mvs[0]), mvs[1..], p);
    }
  }

  // ----- Exactly when the counter misses no update -----

  /** The bytes counted for `p` since it was last evicted, when they were `k` before the move. */
  function Tally(y: Sys, mv: Move, p: int, k: int): int {
    if !mv.Go? || !(0 <= mv.t < |y.pcs|) then k
    else
      match y.pcs[mv.t]
      case Add(q, _, n) => if q == p then k + n else k
      case TrimUnlink(_, q) => if q == p then 0 else k
      case _ => k
  }

  /** In all states of the run the counter of `p` is the number of bytes its writevs have added. */
  ghost predicate AlwaysTallied(y: Sys, mvs: seq<Move>, p: int, k: int)
    requires Playable(y, mvs)
    decreases |mvs|
  {
    && 0 <= p < |y.s.pieces| && y.s.pieces[p].size == k
    && (mvs != [] ==> AlwaysTallied(Do(y, mvs[0]), mvs[1..], p, Tally(y, mvs[0], p, k)))
  }

  /** A writev that writes the counter of `p` finds in it what it had read. */
  ghost predicate UpToDate(y: Sys, mv: Move, p: int) {
    mv.Go? && 0 <= mv.t < |y.pcs| && y.pcs[mv.t].Add? && y.pcs[mv.t].p == p && 0 <= p < |y.s.pieces| ==>
      y.pcs[mv.t].seen == y.s.pieces[p].size
  }

  ghost predicate AllUpToDate(y: Sys, mvs: seq<Move>, p: int)
    requires Playable(y, mvs)
    decreases |mvs|
  {
    mvs != [] ==> UpToDate(y, mvs[0], p) && AllUpToDate(Do(y, mvs[0]), mvs[1..], p)
  }

  lemma TallyStep(y: Sys, mv: Move, p: int)
    requires Enabled(y, mv) && (mv.Go? ==> InBounds(y, mv.t)) && 0 <= p < |y.s.pieces|
    ensures |Do(y, mv).s.pieces| == |y.s.pieces|
    ensures Do(y, mv).s.pieces[p].size == Tally(y, mv, p, y.s.pieces[p].size) <==> UpToDate(y, mv, p)
  {
  }

  /** The counter of `p` misses no update just if nobody else writes it between the read and the write of one. */
  lemma {:induction false} CounterExactly(y: Sys, mvs: seq<Move>, p: int)
    requires Playable(y, mvs) && 0 <= p < |y.s.pieces|
    ensures AlwaysTallied(y, mvs, p, y.s.pieces[p].size) <==> AllUpToDate(y, mvs, p)
    decreases |mvs|
  {
    if mvs == [] {
    } else {
      TallyStep(y, mvs[0], p);
      if UpToDate(y, mvs[0], p) {
        CounterExactly(Do(y, mvs[0]), mvs[1..], p);
      }
    }
  }

  // ----- First rule for callers: keep the piece reserved -----

  /** The thread inside m_mutex is taking the buffer of `p` away. */
  ghost predicate Evicting(y: Sys, p: int) {
    match Owner(y)
    case TrimReset(_, b) => 0 <= b < |y.s.buffers| && y.s.buffers[b].pi == p
    case TrimCount(_, pi) => pi == p
    case TrimUnlink(_, pi) => pi == p
    case _ => false
  }

  ghost predicate StaysReserved(y: Sys, mvs: seq<Move>, p: int)
    requires Playable(y, mvs)
    decreases |mvs|
  {
    p in y.s.reserved && (mvs != [] ==> StaysReserved(Do(y, mvs[0]), mvs[1..], p))
  }

  lemma ReservedStep(y: Sys, mv: Move, p: int)
    requires Safe(y) && Enabled(y, mv) && (mv.Go? ==> InBounds(y, mv.t))
    requires 0 <= p < |y.s.pieces| && p in y.s.reserved && !Evicting(y, p)
    ensures Spares(y, mv, p) && !Evicting(Do(y, mv), p)
  {
    if !mv.SetReserved? {
      assert Locked(y.pcs[mv.t]) <==> mv.t == y.lock;
      if y.lock != -1 && mv.t != y.lock {
        assert Owner(Do(y, mv)) == Owner(y);
      }
    }
    if mv.Choose? {
      assert BufferLinked(y, mv.b);
    }
  }

  lemma {:induction false} ReservedIsSpared(y: Sys, mvs: seq<Move>, p: int)
    requires Safe(y) && Playable(y, mvs) && AllLinksInPlace(y, mvs) && StaysReserved(y, mvs, p)
    requires 0 <= p < |y.s.pieces| && !Evicting(y, p)
    ensures AllSpare(y, mvs, p)
    decreases |mvs|
  {
    if mvs == [] {
    } else {
      ReservedStep(y, mvs[0], p);
      DoSafe(y, mvs[0]);
      ReservedIsSpared(Do(y, mvs[0]), mvs[1..], p);
    }
  }

  // ----- Second rule for callers: one writev at a time -----

  predicate InWritev(pc: PC) {
    match pc
    case Idle => false
    case Leave(p) => p != -1
    case _ => !Resizing(pc)
  }

  /** writev is called only while no other call of it is under way. */
  ghost predicate OneWriter(y: Sys, mv: Move) {
    mv.Call? && mv.pc.GetCheck? ==> forall t :: 0 <= t < |y.pcs| ==> !InWritev(y.pcs[t])
  }

  ghost predicate OneWriterAtATime(y: Sys, mvs: seq<Move>)
    requires Playable(y, mvs)
    decreases |mvs|
  {
    mvs != [] ==> OneWriter(y, mvs[0]) && OneWriterAtATime(Do(y, mvs[0]), mvs[1..])
  }

  /** At most one thread is in writev, and if it has read the counter, it is as it was. */
  ghost predicate Alone(y: Sys) {
    && (forall t, u :: 0 <= t < |y.pcs| && 0 <= u < |y.pcs| && InWritev(y.pcs[t]) && InWritev(y.pcs[u]) ==> t == u)
    && (forall t :: 0 <= t < |y.pcs| && y.pcs[t].Add? && 0 <= y.pcs[t].p < |y.s.pieces| ==>
          y.pcs[t].seen == y.s.pieces[y.pcs[t].p].size)
  }

  /** A step of a thread that is not in writev stays outside it, and writes no counter. */
  lemma GoOutside(y: Sys, t: int)
    requires Enabled(y, Go(t)) && InBounds(y, t)
    ensures var y' := Advance(y, t);
            && |y'.pcs| == |y.pcs| && (forall u :: 0 <= u < |y.pcs| && u != t ==> y'.pcs[u] == y.pcs[u])
            && |y'.s.pieces| == |y.s.pieces| && !y'.pcs[t].Add?
            && (!InWritev(y.pcs[t]) ==> !InWritev(y'.pcs[t]) && y'.s.pieces == y.s.pieces)
  {
  }

  lemma AloneCarries(y: Sys, y': Sys, t: int)
    requires Alone(y) && |y'.pcs| == |y.pcs| && |y'.s.pieces| == |y.s.pieces| && 0 <= t < |y.pcs|
    requires (forall u :: 0 <= u < |y.pcs| && u != t ==> y'.pcs[u] == y.pcs[u]) && !y'.pcs[t].Add?
    requires !InWritev(y.pcs[t]) ==> !InWritev(y'.pcs[t]) && y'.s.pieces == y.s.pieces
    ensures Alone(y')
  {
    forall u | 0 <= u < |y'.pcs| && y'.pcs[u].Add? && 0 <= y'.pcs[u].p < |y'.s.pieces|
      ensures y'.pcs[u].seen == y'.s.pieces[y'.pcs[u].p].size
    {
      assert u != t && InWritev(y.pcs[u]);
    }
  }

  lemma AloneStep(y: Sys, mv: Move)
    requires Alone(y) && Enabled(y, mv) && (mv.Go? ==> InBounds(y, mv.t)) && OneWriter(y, mv)
    ensures Alone(Do(y, mv))
  {
    if mv.Go? {
      GoOutside(y, mv.t);
      AloneCarries(y, Advance(y, mv.t), mv.t);
    }
  }

  lemma AloneSpares(y: Sys, mv: Move, p: int)
    requires Alone(y) && Enabled(y, mv)
    ensures Spares(y, mv, p) && UpToDate(y, mv, p)
  {
  }

  lemma {:induction false} AloneIsSpared(y: Sys, mvs: seq<Move>, p: int)
    requires Alone(y) && Playable(y, mvs) && OneWriterAtATime(y, mvs)
    ensures AllSpare(y, mvs, p) && AllUpToDate(y, mvs, p)
    decreases |mvs|
  {
    if mvs == [] {
    } else {
      AloneSpares(y, mvs[0], p);
      AloneStep(y, mvs[0]);
      AloneIsSpared(Do(y, mvs[0]), mvs[1..], p);
    }
  }

  // ----- From a new storage -----

  /** Both equivalences, for every piece and every run of a new storage with sound tables. */
  lemma WritersExactly(capacity: int, pieceLength: int, lengths: seq<int>, picker: Picker, threads: nat,
                       mvs: seq<Move>, p: int)
    requires Metadata(capacity, pieceLength, lengths, picker) && 0 <= p < |lengths|
    requires Playable(Start(Init(capacity, pieceLength, lengths, picker), threads), mvs)
    ensures var y := Start(Init(capacity, pieceLength, lengths, picker), threads);
            && (AlwaysTallied(y, mvs, p, 0) <==> AllUpToDate(y, mvs, p))
            && (TablesAlwaysSound(y, mvs) ==> (BufferAlwaysKept(y, mvs, p) <==> AllSpare(y, mvs, p)))
  {
    var y := Start(Init(capacity, pieceLength, lengths, picker), threads);
    StartSafe(capacity, pieceLength, lengths, picker, threads);
    TablesExactly(y, mvs);
    CounterExactly(y, mvs, p);
    if TablesAlwaysSound(y, mvs) {
      BufferKeptExactly(y, mvs, p);
    }
  }

  /**
   * Callers that make one call of writev at a time, and one of set_memory_size, get a storage
   * in which all is well: sound tables, every writev with its buffer, every counter complete.
   */
  lemma OneCallOfEachIsSafe(capacity: int, pieceLength: int, lengths: seq<int>, picker: Picker, threads: nat,
                            mvs: seq<Move>, p: int)
    requires Metadata(capacity, pieceLength, lengths, picker) && 0 <= p < |lengths|
    requires var y := Start(Init(capacity, pieceLength, lengths, picker), threads);
             Playable(y, mvs) && Serialized(y, mvs) && OneWriterAtATime(y, mvs)
    ensures var y := Start(Init(capacity, pieceLength, lengths, picker), threads);
            AlwaysSound(y, mvs) && BufferAlwaysKept(y, mvs, p) && AlwaysTallied(y, mvs, p, 0)
  {
    var y := Start(Init(capacity, pieceLength, lengths, picker), threads);
    StartSafe(capacity, pieceLength, lengths, picker, threads);
    SerializedGrowthIsSafe(capacity, pieceLength, lengths, picker, threads, mvs);
    SoundExactly(y, mvs);
    AloneIsSpared(y, mvs, p);
    BufferKeptExactly(y, mvs, p);
    CounterExactly(y, mvs, p);
  }

  /** The same with reservation in place of the rule for writev, but for the counter. */
  lemma ReservedFromTheStart(capacity: int, pieceLength: int, lengths: seq<int>, picker: Picker, threads: nat,
                             r: set<int>, mvs: seq<Move>, p: int)
    requires Metadata(capacity, pieceLength, lengths, picker) && 0 <= p < |lengths|
    requires var y := Start(Init(capacity, pieceLength, lengths, picker).(reserved := r), threads);
             Playable(y, mvs) && Serialized(y, mvs) && StaysReserved(y, mvs, p)
    ensures BufferAlwaysKept(Start(Init(capacity, pieceLength, lengths, picker).(reserved := r), threads), mvs, p)
  {
    var y0 := Start(Init(capacity, pieceLength, lengths, picker), threads);
    var y := Start(Init(capacity, pieceLength, lengths, picker).(reserved := r), threads);
    StartSafe(capacity, pieceLength, lengths, picker, threads);
    assert y == Do(y0, SetReserved(r));
    DoSafe(y0, SetReserved(r));
    SerializedIsSound(y, mvs);
    SoundExactly(y, mvs);
    ReservedIsSpared(y, mvs, p);
    BufferKeptExactly(y, mvs, p);
  }
}
