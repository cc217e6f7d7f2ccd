// Runs of the threads: exactly when the tables stay inverse to each other, exactly when
// positions stay indices as well, and a rule for callers under which both hold.
module Interleaving {
  import opened Bytes
  import opened Model
  import opened Threads

  ghost predicate Playable(y: Sys, mvs: seq<Move>)
    decreases |mvs|
  {
    mvs != [] ==>
      Enabled(y, mvs[0]) && (mvs[0].Go? ==> InBounds(y, mvs[0].t)) && Playable(Do(y, mvs[0]), mvs[1..])
  }

  ghost function Play(y: Sys, mvs: seq<Move>): Sys
    requires Playable(y, mvs)
    decreases |mvs|
  {
    if mvs == [] then y else Play(Do(y, mvs[0]), mvs[1..])
  }

  function Start(s: State, threads: nat): Sys {
    Sys(s, -1, seq(threads, _ => Idle), 0)
  }

  lemma StartSafe(capacity: int, pieceLength: int, lengths: seq<int>, picker: Picker, threads: nat)
    requires Metadata(capacity, pieceLength, lengths, picker)
    ensures var y := Start(Init(capacity, pieceLength, lengths, picker), threads); Safe(y) && Indexed(y.s)
  {
    var s := Init(capacity, pieceLength, lengths, picker);
    var y := Start(s, threads);
    forall b | 0 <= b < |s.buffers| ensures BufferLinked(y, b) && s.buffers[b].index == b {
      assert BufferOk(s, b);
    }
    forall p | 0 <= p < |s.pieces| ensures PieceLinked(y, p) {
      assert PieceOk(s, p);
    }
  }

  // ----- Soundness -----

  /** The two tables are inverse to each other, and "used" means "assigned". */
  ghost predicate Bijection(s: State) {
    && (forall b :: 0 <= b < |s.buffers| ==> (s.buffers[b].used <==> s.buffers[b].pi != -1))
    && (forall p, b :: 0 <= p < |s.pieces| && 0 <= b < |s.buffers| ==>
          (s.buffers[b].pi == p <==> s.pieces[p].bi == b))
    && (forall p :: 0 <= p < |s.pieces| ==> -1 <= s.pieces[p].bi < |s.buffers|)
  }

  ghost predicate OneBufferEach(s: State) {
    forall a, b | 0 <= a < |s.buffers| && 0 <= b < |s.buffers| && s.buffers[a].used && s.buffers[b].used ::
      s.buffers[a].pi == s.buffers[b].pi ==> a == b
  }

  ghost predicate Law(y: Sys) {
    |UsedBuffers(y.s)| == y.s.bufferUsed + (y.s.bufferSize - y.s.bufferLimit) + y.drift
  }

  /**
   * No piece holds two buffers, and each buffer and piece is linked to its partner but for
   * those the thread inside m_mutex is working on; whenever m_mutex is free, the tables are
   * inverse to each other and the counters obey the law.
   */
  ghost predicate TablesSound(y: Sys) {
    Linked(y) && OneBufferEach(y.s) && (y.lock == -1 ==> Bijection(y.s) && Law(y))
  }

  /** And positions are indices. */
  ghost predicate Sound(y: Sys) {
    TablesSound(y) && Indexed(y.s)
  }

  lemma SafeOneBufferEach(y: Sys)
    requires Safe(y)
    ensures OneBufferEach(y.s)
  {
    forall a, b | 0 <= a < |y.s.buffers| && 0 <= b < |y.s.buffers| && y.s.buffers[a].used && y.s.buffers[b].used
                  && y.s.buffers[a].pi == y.s.buffers[b].pi
      ensures a == b
    {
      assert BufferLinked(y, a) && BufferLinked(y, b);
    }
  }

  lemma SafeBijection(y: Sys)
    requires Safe(y) && y.lock == -1
    ensures Bijection(y.s)
  {
    forall p, b | 0 <= p < |y.s.pieces| && 0 <= b < |y.s.buffers|
      ensures y.s.buffers[b].pi == p <==> y.s.pieces[p].bi == b
    {
      assert BufferLinked(y, b) && PieceLinked(y, p);
    }
    forall b | 0 <= b < |y.s.buffers| ensures y.s.buffers[b].used <==> y.s.buffers[b].pi != -1 {
      assert BufferLinked(y, b);
    }
    forall p | 0 <= p < |y.s.pieces| ensures -1 <= y.s.pieces[p].bi < |y.s.buffers| {
      assert PieceLinked(y, p);
    }
  }

  lemma SafeIsSound(y: Sys)
    requires Safe(y)
    ensures TablesSound(y)
  {
    SafeOneBufferEach(y);
    if y.lock == -1 {
      SafeBijection(y);
    }
  }

  // ----- Exactly when a run is sound -----

  ghost predicate TablesAlwaysSound(y: Sys, mvs: seq<Move>)
    requires Playable(y, mvs)
    decreases |mvs|
  {
    TablesSound(y) && (mvs != [] ==> TablesAlwaysSound(Do(y, mvs[0]), mvs[1..]))
  }

  /** Every admission of the run takes a buffer whose index is its position. */
  ghost predicate AllLinksInPlace(y: Sys, mvs: seq<Move>)
    requires Playable(y, mvs)
    decreases |mvs|
  {
    mvs != [] ==> LinksInPlace(y, mvs[0]) && AllLinksInPlace(Do(y, mvs[0]), mvs[1..])
  }

  lemma {:induction false} TablesExactly(y: Sys, mvs: seq<Move>)
    requires Safe(y) && Playable(y, mvs)
    ensures TablesAlwaysSound(y, mvs) <==> AllLinksInPlace(y, mvs)
    ensures AllLinksInPlace(y, mvs) ==> Safe(Play(y, mvs))
    decreases |mvs|
  {
    SafeIsSound(y);
    if mvs == [] {
    } else if LinksInPlace(y, mvs[0]) {
      DoSafe(y, mvs[0]);
      TablesExactly(Do(y, mvs[0]), mvs[1..]);
    } else {
      LinkOutOfPlace(y, mvs[0].t);
      assert !TablesAlwaysSound(Do(y, mvs[0]), mvs[1..]);
    }
  }

  ghost predicate AlwaysSound(y: Sys, mvs: seq<Move>)
    requires Playable(y, mvs)
    decreases |mvs|
  {
    Sound(y) && (mvs != [] ==> AlwaysSound(Do(y, mvs[0]), mvs[1..]))
  }

  /** Every set_memory_size of the run that appends buffers appends them at the end. */
  ghost predicate AllInPlace(y: Sys, mvs: seq<Move>)
    requires Playable(y, mvs)
    decreases |mvs|
  {
    mvs != [] ==> InPlace(y, mvs[0]) && AllInPlace(Do(y, mvs[0]), mvs[1..])
  }

  lemma {:induction false} SoundExactly(y: Sys, mvs: seq<Move>)
    requires Safe(y) && Indexed(y.s) && Playable(y, mvs)
    ensures AlwaysSound(y, mvs) <==> AllInPlace(y, mvs)
    ensures AllInPlace(y, mvs) ==> AllLinksInPlace(y, mvs)
    decreases |mvs|
  {
    SafeIsSound(y);
    if mvs == [] {
    } else if InPlace(y, mvs[0]) {
      IndexedStep(y, mvs[0]);
      DoSafe(y, mvs[0]);
      SoundExactly(Do(y, mvs[0]), mvs[1..]);
    } else {
      PushOutOfPlace(y, mvs[0].t);
      assert !AlwaysSound(Do(y, mvs[0]), mvs[1..]);
    }
  }

  /**
   * However the threads interleave, in the run of a new storage: the tables are sound in all
   * states just if no admission takes a buffer whose index is not its position; and positions
   * are indices as well just if every set_memory_size that appends buffers finds as many as
   * the old buffer_size says.
   */
  lemma InterleavingSafety(capacity: int, pieceLength: int, lengths: seq<int>, picker: Picker,
                           threads: nat, mvs: seq<Move>)
    requires Metadata(capacity, pieceLength, lengths, picker)
    requires Playable(Start(Init(capacity, pieceLength, lengths, picker), threads), mvs)
    ensures var y := Start(Init(capacity, pieceLength, lengths, picker), threads);
            && (TablesAlwaysSound(y, mvs) <==> AllLinksInPlace(y, mvs))
            && (AlwaysSound(y, mvs) <==> AllInPlace(y, mvs))
            && (AllInPlace(y, mvs) ==> AllLinksInPlace(y, mvs))
  {
    StartSafe(capacity, pieceLength, lengths, picker, threads);
    TablesExactly(Start(Init(capacity, pieceLength, lengths, picker), threads), mvs);
    SoundExactly(Start(Init(capacity, pieceLength, lengths, picker), threads), mvs);
  }

  // ----- A rule for callers -----

  /** In the middle of set_memory_size, from its unlocked test to the last buffer appended. */
  predicate Resizing(pc: PC) {
    pc.SizeCheck? || pc.SizeWait? || pc.SizeApply? || pc.SizePush?
  }

  /** set_memory_size is called only while no other call of it is under way. */
  ghost predicate OneAtATime(y: Sys, mv: Move) {
    mv.Call? && mv.pc.SizeCheck? ==> forall t :: 0 <= t < |y.pcs| ==> !Resizing(y.pcs[t])
  }

  ghost predicate Serialized(y: Sys, mvs: seq<Move>)
    requires Playable(y, mvs)
    decreases |mvs|
  {
    mvs != [] ==> OneAtATime(y, mvs[0]) && Serialized(Do(y, mvs[0]), mvs[1..])
  }

  /** The unlocked test of the one call under way still holds, and no buffer is missing or extra. */
  ghost predicate Settled(y: Sys) {
    && (forall t, u :: 0 <= t < |y.pcs| && 0 <= u < |y.pcs| && Resizing(y.pcs[t]) && Resizing(y.pcs[u]) ==> t == u)
    && (forall t :: 0 <= t < |y.pcs| && (y.pcs[t].SizeWait? || y.pcs[t].SizeApply?) ==> y.pcs[t].m > y.s.capacity)
    && (forall t :: 0 <= t < |y.pcs| && y.pcs[t].SizePush? ==> y.pcs[t].prev == |y.s.buffers| <= y.s.bufferSize)
    && ((forall t :: 0 <= t < |y.pcs| ==> !y.pcs[t].SizePush?) ==> |y.s.buffers| == y.s.bufferSize)
  }

  /** The capacity, the pool and all threads but one are as before, and that one is not past its test. */
  ghost predicate PoolUntouched(y: Sys, y': Sys, t: int) {
    && y'.s.capacity == y.s.capacity && y'.s.bufferSize == y.s.bufferSize && |y'.s.buffers| == |y.s.buffers|
    && |y'.pcs| == |y.pcs| && (forall u :: 0 <= u < |y.pcs| && u != t ==> y'.pcs[u] == y.pcs[u])
    && (0 <= t < |y.pcs| ==>
          !Resizing(y.pcs[t]) && !y'.pcs[t].SizeWait? && !y'.pcs[t].SizeApply? && !y'.pcs[t].SizePush?)
  }

  lemma PoolUntouchedSettled(y: Sys, y': Sys, t: int)
    requires Settled(y) && PoolUntouched(y, y', t)
    requires 0 <= t < |y.pcs| && y'.pcs[t].SizeCheck? ==> forall u :: 0 <= u < |y.pcs| ==> !Resizing(y.pcs[u])
    ensures Settled(y')
  {
    forall u, v | 0 <= u < |y'.pcs| && 0 <= v < |y'.pcs| && Resizing(y'.pcs[u]) && Resizing(y'.pcs[v])
      ensures u == v
    {
      assert u != t ==> y'.pcs[u] == y.pcs[u];
      assert v != t ==> y'.pcs[v] == y.pcs[v];
    }
    if forall u :: 0 <= u < |y'.pcs| ==> !y'.pcs[u].SizePush? {
      forall u | 0 <= u < |y.pcs| ensures !y.pcs[u].SizePush? {
        assert u != t ==> y'.pcs[u] == y.pcs[u];
      }
    }
  }

  /** Steps outside set_memory_size touch neither the capacity nor the size of the pool. */
  lemma GoUntouched(y: Sys, t: int)
    requires Enabled(y, Go(t)) && InBounds(y, t) && !Resizing(y.pcs[t])
    ensures PoolUntouched(y, Advance(y, t), t) && !Advance(y, t).pcs[t].SizeCheck?
  {
    assert Advance(y, t).pcs == y.pcs || Advance(y, t).pcs == y.pcs[t := Advance(y, t).pcs[t]];
  }

  lemma SettledElsewhere(y: Sys, mv: Move)
    requires Settled(y) && Enabled(y, mv) && (mv.Go? ==> InBounds(y, mv.t)) && OneAtATime(y, mv)
    requires mv.SetReserved? || !Resizing(y.pcs[mv.t])
    ensures Settled(Do(y, mv))
  {
    if mv.Go? {
      GoUntouched(y, mv.t);
    }
    var t := if mv.SetReserved? then -1 else mv.t;
    assert PoolUntouched(y, Do(y, mv), t);
    PoolUntouchedSettled(y, Do(y, mv), t);
  }

  lemma SettledResizing(y: Sys, t: int)
    requires Safe(y) && Settled(y) && Enabled(y, Go(t)) && Resizing(y.pcs[t])
    ensures InPlace(y, Go(t)) && InBounds(y, t) && Settled(Advance(y, t))
  {
    SafeInBounds(y, t);
    var y' := Advance(y, t);
    assert forall u :: 0 <= u < |y.pcs| && u != t ==> y'.pcs[u] == y.pcs[u] && !Resizing(y.pcs[u]);
    if y.pcs[t].SizeApply? {
      PoolSizeGrows(y.s.capacity, y.pcs[t].m, y.s.pieceLength, |y.s.pieces|);
      assert y'.pcs[t].SizePush?;
    }
  }

  lemma SerializedStep(y: Sys, mv: Move)
    requires Safe(y) && Indexed(y.s) && Settled(y)
    requires Enabled(y, mv) && (mv.Go? ==> InBounds(y, mv.t)) && OneAtATime(y, mv)
    ensures InPlace(y, mv) && LinksInPlace(y, mv)
    ensures Safe(Do(y, mv)) && Indexed(Do(y, mv).s) && Settled(Do(y, mv))
  {
    if !mv.SetReserved? && Resizing(y.pcs[mv.t]) {
      SettledResizing(y, mv.t);
    } else {
      SettledElsewhere(y, mv);
    }
    IndexedStep(y, mv);
    DoSafe(y, mv);
  }

  lemma {:induction false} SerializedIsSound(y: Sys, mvs: seq<Move>)
    requires Safe(y) && Indexed(y.s) && Settled(y) && Playable(y, mvs) && Serialized(y, mvs)
    ensures AlwaysSound(y, mvs) && Settled(Play(y, mvs))
    decreases |mvs|
  {
    SafeIsSound(y);
    if mvs == [] {
    } else {
      SerializedStep(y, mvs[0]);
      SerializedIsSound(Do(y, mvs[0]), mvs[1..]);
    }
  }

  /** Callers that make one call of set_memory_size at a time get a sound storage, whatever else runs. */
  lemma SerializedGrowthIsSafe(capacity: int, pieceLength: int, lengths: seq<int>, picker: Picker,
                               threads: nat, mvs: seq<Move>)
    requires Metadata(capacity, pieceLength, lengths, picker)
    requires Playable(Start(Init(capacity, pieceLength, lengths, picker), threads), mvs)
    requires Serialized(Start(Init(capacity, pieceLength, lengths, picker), threads), mvs)
    ensures var y := Start(Init(capacity, pieceLength, lengths, picker), threads);
            && AlwaysSound(y, mvs)
            && (Play(y, mvs).lock == -1 ==> |Play(y, mvs).s.buffers| == Play(y, mvs).s.bufferSize)
  {
    var y := Start(Init(capacity, pieceLength, lengths, picker), threads);
    StartSafe(capacity, pieceLength, lengths, picker, threads);
    SerializedIsSound(y, mvs);
    SoundExactly(y, mvs);
    TablesExactly(y, mvs);
    var z := Play(y, mvs);
    if z.lock == -1 {
      forall t | 0 <= t < |z.pcs| ensures !z.pcs[t].SizePush? {
        assert Locked(z.pcs[t]) <==> t == z.lock;
      }
    }
  }
}
