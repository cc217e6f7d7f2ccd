// Runs in which threads get in each other's way.
module Races {
  import opened Bytes
  import opened Model
  import opened Threads
  import opened Interleaving
  import opened Solo
  import opened Writers

  lemma {:induction false} NoResizeSerialized(y: Sys, mvs: seq<Move>)
    requires Playable(y, mvs) && NoResize(mvs)
    ensures Serialized(y, mvs)
    decreases |mvs|
  {
    if mvs == [] {
    } else {
      NoResizeSerialized(Do(y, mvs[0]), mvs[1..]);
    }
  }

  predicate Admitting(pc: PC) {
    pc.GetCheck? || pc.GetWait? || pc.GetRecheck? || pc.GetScan? || pc.GetLink?
  }

  /** Without an admission no buffer is linked, in place or not. */
  lemma {:induction false} NoAdmissionLinksInPlace(y: Sys, mvs: seq<Move>)
    requires Playable(y, mvs) && NoAdmission(mvs)
    requires forall t :: 0 <= t < |y.pcs| ==> !Admitting(y.pcs[t])
    ensures AllLinksInPlace(y, mvs)
    decreases |mvs|
  {
    if mvs == [] {
    } else {
      NoAdmissionLinksInPlace(Do(y, mvs[0]), mvs[1..]);
    }
  }

  lemma {:induction false} SoundAtEnd(y: Sys, mvs: seq<Move>)
    requires Playable(y, mvs)
    ensures AlwaysSound(y, mvs) ==> Sound(Play(y, mvs))
    ensures TablesAlwaysSound(y, mvs) ==> TablesSound(Play(y, mvs))
    decreases |mvs|
  {
    if mvs == [] {
    } else {
      SoundAtEnd(Do(y, mvs[0]), mvs[1..]);
    }
  }

  /** Thread 0 makes its test for m0, thread 1 completes a call for m1, and thread 0 goes on. */
  lemma RaceRun(y: Sys, m0: int, m1: int) returns (mvs: seq<Move>, y': Sys)
    requires y.lock == -1 && |y.pcs| >= 2 && y.pcs[0] == y.pcs[1] == Idle && y.s.pieceLength > 0
    requires m0 > y.s.capacity && m1 > y.s.capacity
    ensures Playable(y, mvs) && NoAdmission(mvs) && Play(y, mvs) == y'
    ensures y'.s == Grown(Grown(y.s, m1), m0) && y'.lock == -1 && y'.pcs == y.pcs
  {
    var a := AskRun(y, 0, m0);
    var y1 := Play(y, a);
    var b, y2 := ResizeRun(y1, 1, m1);
    var c := GrowRun(y2, 0, m0);
    y' := Play(y2, c);
    PlayConcat(y1, b, c);
    PlayConcat(y, a, b + c);
    mvs := a + (b + c);
  }

  /** A race that shrinks the pool, and a later call that appends indices already taken. */
  lemma StaleGrowth(y0: Sys) returns (mvs: seq<Move>, y: Sys)
    requires y0.lock == -1 && |y0.pcs| >= 2 && y0.pcs[0] == y0.pcs[1] == Idle
    requires y0.s.pieceLength == 10 && |y0.s.pieces| == 5 && y0.s.capacity == 0
    requires y0.s.bufferSize == |y0.s.buffers| == 2
    ensures Playable(y0, mvs) && NoAdmission(mvs) && Play(y0, mvs) == y
    ensures y.lock == -1 && y.pcs == y0.pcs && y.s.bufferSize == 4 && y.s.pieces == y0.s.pieces
    ensures y.s.buffers == y0.s.buffers + FreshBuffers(2, 3, 10) + FreshBuffers(2, 4, 10)
  {
    var a, y1 := RaceRun(y0, 5, 10);
    assert y1.s.bufferSize == 2 && y1.s.capacity == 5;
    assert y1.s.buffers == y0.s.buffers + FreshBuffers(2, 3, 10);
    var b, y2 := ResizeRun(y1, 0, 20);
    PlayConcat(y0, a, b);
    mvs, y := a + b, y2;
  }

  /** What threads 0 to n-1 have left of piece and position `p` when they have admitted one piece each. */
  ghost predicate StageAt(s: State, n: int, p: int)
    requires 0 <= p < |s.pieces| && p < |s.buffers|
  {
    && s.pieces[p].index == p
    && (s.buffers[p].used <==> p < n)
    && (p < n ==> s.buffers[p].pi == p && s.pieces[p].bi == s.buffers[p].index)
    && (p >= n ==> s.pieces[p].bi == -1)
  }

  /** Pieces 0 to n-1 have been admitted to those positions of a pool with a repeated index. */
  ghost predicate Stage(y: Sys, n: int) {
    && y.lock == -1 && |y.pcs| == 4 && |y.s.pieces| == 5 && y.s.bufferSize == 4 && |y.s.buffers| == 5
    && y.s.buffers[2].index == y.s.buffers[3].index == 2
    && (forall t :: 0 <= t < 4 && t >= n ==> y.pcs[t].Idle?)
    && (forall p :: 0 <= p < 5 ==> StageAt(y.s, n, p))
  }

  lemma StageTaken(y: Sys, n: int)
    requires 0 <= n < 4 && Stage(y, n)
    ensures Stage(At(y.(s := Taken(y.s, n, n)), n, Fill(n)), n + 1)
  {
    var s', m := Taken(y.s, n, n), n + 1;
    forall p | 0 <= p < 5 ensures StageAt(s', m, p) {
      assert StageAt(y.s, n, p);
    }
  }

  lemma {:induction false} AdmitUpTo(y: Sys, n: int) returns (mvs: seq<Move>, y': Sys)
    requires 0 <= n <= 4 && Stage(y, n)
    ensures Playable(y, mvs) && Play(y, mvs) == y' && Stage(y', 4)
    decreases 4 - n
  {
    if n == 4 {
      mvs, y' := [], y;
    } else {
      assert StageAt(y.s, n, n);
      assert forall p :: 0 <= p < n ==> StageAt(y.s, n, p) && y.s.buffers[p].used;
      var a := AdmitRun(y, n, n, n);
      var y1 := Play(y, a);
      StageTaken(y, n);
      var b;
      b, y' := AdmitUpTo(y1, n + 1);
      PlayConcat(y, a, b);
      mvs := a + b;
    }
  }

  /** Growth out of place does no harm to the tables as long as nothing is admitted. */
  lemma StaleGrowthAlone(picker: Picker) returns (mvs: seq<Move>)
    requires |picker.prio| == 5
    ensures Metadata(0, 10, [10, 10, 10, 10, 10], picker)
    ensures var y0 := Start(Init(0, 10, [10, 10, 10, 10, 10], picker), 4);
            Playable(y0, mvs) && TablesAlwaysSound(y0, mvs) && !AlwaysSound(y0, mvs)
  {
    var y0 := Start(Init(0, 10, [10, 10, 10, 10, 10], picker), 4);
    var y;
    mvs, y := StaleGrowth(y0);
    InterleavingSafety(0, 10, [10, 10, 10, 10, 10], picker, 4, mvs);
    NoAdmissionLinksInPlace(y0, mvs);
    SoundAtEnd(y0, mvs);
    assert y.s.buffers[3].index == 2;
  }

  /**
   * A run that is not in place: two calls of set_memory_size that both pass the unlocked test
   * and are served in the wrong order shrink the pool, a third one then appends buffers under
   * indices already taken, and after four admissions two pieces point to the same buffer.
   */
  lemma StaleGrowthBreaks(picker: Picker) returns (mvs: seq<Move>)
    requires |picker.prio| == 5
    ensures Metadata(0, 10, [10, 10, 10, 10, 10], picker)
    ensures var y0 := Start(Init(0, 10, [10, 10, 10, 10, 10], picker), 4);
            && Playable(y0, mvs) && !TablesAlwaysSound(y0, mvs)
            && var y := Play(y0, mvs);
               && y.lock == -1 && |y.s.pieces| == 5 && !Bijection(y.s)
               && y.s.pieces[2].bi == y.s.pieces[3].bi == 2
  {
    var y0 := Start(Init(0, 10, [10, 10, 10, 10, 10], picker), 4);
    var grow, y1 := StaleGrowth(y0);
    assert Stage(y1, 0);
    var admit, y2 := AdmitUpTo(y1, 0);
    assert StageAt(y2.s, 4, 2) && StageAt(y2.s, 4, 3);
    PlayConcat(y0, grow, admit);
    mvs := grow + admit;
    SoundAtEnd(y0, mvs);
  }

  // ----- A writer whose buffer is taken away -----

  lemma {:induction false} KeptAfter(y: Sys, a: seq<Move>, b: seq<Move>, p: int)
    requires Playable(y, a) && Playable(Play(y, a), b) && Playable(y, a + b) && BufferAlwaysKept(y, a + b, p)
    ensures BufferAlwaysKept(Play(y, a), b, p)
    decreases |a|
  {
    if a == [] {
      assert a + b == b;
    } else {
      assert (a + b)[1..] == a[1..] + b;
      KeptAfter(Do(y, a[0]), a[1..], b, p);
    }
  }

  /** A pool of two buffers, given to pieces 0 and 1. */
  ghost predicate TwoStored(y: Sys) {
    && y.lock == -1 && y.pcs == [Fill(0), Fill(1)] && y.s.capacity >= 0 && y.s.reserved == {}
    && y.s.bufferUsed == y.s.bufferLimit == y.s.bufferSize == |y.s.buffers| == 2
    && y.s.buffers[0] == Buffer(0, 0, true, y.s.buffers[0].accessed, y.s.buffers[0].bytes) && y.s.buffers[1].used
    && |y.s.pieces| == 3 && y.s.pieces[0] == Piece(0, 10, 0, 0)
  }

  lemma TwoWriters(y0: Sys) returns (mvs: seq<Move>, y: Sys)
    requires y0.lock == -1 && y0.pcs == [Idle, Idle] && y0.s.reserved == {} && y0.s.capacity >= 0
    requires y0.s.bufferUsed == 0 && y0.s.bufferLimit == y0.s.bufferSize == |y0.s.buffers| == 2
    requires y0.s.buffers == FreshBuffers(0, 2, 10) && y0.s.pieces == NewPieces([10, 10, 10])
    ensures Playable(y0, mvs) && NoResize(mvs) && Play(y0, mvs) == y && TwoStored(y)
  {
    var a := AdmitRun(y0, 0, 0, 0);
    var y1 := Play(y0, a);
    var b := AdmitRun(y1, 1, 1, 1);
    y := Play(y1, b);
    PlayConcat(y0, a, b);
    mvs := a + b;
  }

  /** Thread 1 completes its writev and evicts piece 0, and then thread 0 completes its own. */
  lemma FirstLosesBuffer(y0: Sys) returns (mvs: seq<Move>, y: Sys)
    requires TwoStored(y0)
    ensures Playable(y0, mvs) && NoResize(mvs) && Play(y0, mvs) == y
    ensures y.lock == -1 && y.pcs == [Idle, Idle] && |y.s.pieces| == 3 && y.s.pieces[0] == Piece(0, 10, 10, -1)
    ensures y.s.bufferSize == |y.s.buffers| == 2 && !y.s.buffers[0].used && y.s.buffers[0].index == 0
  {
    var a := FinishRun(y0, 1, 10, 0);
    var y1 := Play(y0, a);
    var b := ReturnRun(y1, 0, 10);
    y := Play(y1, b);
    PlayConcat(y0, a, b);
    mvs := a + b;
  }

  /**
   * A run that is sound in all its states and yet takes a buffer from a writev.  Thread 0 has its buffer
   * for piece 0 when thread 1, writing piece 1, evicts it; thread 0 then counts the bytes it
   * has copied all the same.  When piece 0 gets a buffer again, its counter has reached its
   * length before a byte is stored.
   */
  lemma DanglingWriter(picker: Picker) returns (mvs: seq<Move>)
    requires |picker.prio| == 3
    ensures Metadata(0, 10, [10, 10, 10], picker)
    ensures var y0 := Start(Init(0, 10, [10, 10, 10], picker), 2);
            && Playable(y0, mvs) && AlwaysSound(y0, mvs) && !BufferAlwaysKept(y0, mvs, 0)
            && var y := Play(y0, mvs);
               && y.pcs == [Fill(0), Idle] && |y.s.pieces| == 3
               && y.s.pieces[0].bi == 0 && y.s.pieces[0].size == y.s.pieces[0].length
  {
    var y0 := Start(Init(0, 10, [10, 10, 10], picker), 2);
    var a, y2 := TwoWriters(y0);
    var b, y4 := FirstLosesBuffer(y2);
    var c := AdmitRun(y4, 0, 0, 0);
    PlayConcat(y2, b, c);
    PlayConcat(y0, a, b + c);
    mvs := a + (b + c);
    if BufferAlwaysKept(y0, mvs, 0) {
      KeptAfter(y0, a, b + c, 0);
      KeptAfter(y2, b, c, 0);
      assert false;
    }
    NoResizeSerialized(y0, mvs);
    SerializedGrowthIsSafe(0, 10, [10, 10, 10], picker, 2, mvs);
  }

  // ----- A lost update of the counter -----

  /**
   * A run, sound in all its states, in which two writevs of a piece add five bytes each and
   * the counter ends at five: both have read it before either writes it.
   */
  lemma LostUpdate(picker: Picker) returns (mvs: seq<Move>)
    requires |picker.prio| == 3
    ensures Metadata(0, 10, [10, 10, 10], picker)
    ensures var y0 := Start(Init(0, 10, [10, 10, 10], picker), 2);
            && Playable(y0, mvs) && AlwaysSound(y0, mvs) && !AlwaysTallied(y0, mvs, 0, 0)
            && var y := Play(y0, mvs);
               && y.pcs == [TrimCheck(0), TrimCheck(0)] && |y.s.pieces| == 3
               && y.s.pieces[0].bi == 0 && y.s.pieces[0].size == 5
  {
    var y0 := Start(Init(0, 10, [10, 10, 10], picker), 2);
    var a := AdmitRun(y0, 0, 0, 0);
    var y1 := Play(y0, a);
    var b, y2 := JoinRun(y1);
    var c := RaceToAdd(y2);
    PlayConcat(y1, b, c);
    PlayConcat(y0, a, b + c);
    mvs := a + (b + c);
    CounterExactly(y0, mvs, 0);
    UpToDateAfter(y0, a, b + c, 0);
    UpToDateAfter(y1, b, c, 0);
    NoResizeSerialized(y0, mvs);
    SerializedGrowthIsSafe(0, 10, [10, 10, 10], picker, 2, mvs);
  }

  /** Thread 1 finds piece 0 in the pool. */
  lemma JoinRun(y: Sys) returns (mvs: seq<Move>, y': Sys)
    requires y.pcs == [Fill(0), Idle] && |y.s.pieces| > 0 && y.s.pieces[0].bi != -1
    ensures Playable(y, mvs) && NoResize(mvs) && Play(y, mvs) == y'
    ensures y' == y.(pcs := [Fill(0), Fill(0)])
  {
    var y1 := Do(y, Call(1, GetCheck(0)));
    y' := Do(y1, Go(1));
    First(y1, Go(1), []);
    First(y, Call(1, GetCheck(0)), [Go(1)]);
    mvs := [Call(1, GetCheck(0))] + [Go(1)];
    assert Play(y', []) == y';
  }

  lemma RaceToAdd(y: Sys) returns (mvs: seq<Move>)
    requires y.pcs == [Fill(0), Fill(0)] && |y.s.pieces| > 0 && y.s.pieces[0].size == 0
    ensures Playable(y, mvs) && NoResize(mvs) && !AllUpToDate(y, mvs, 0)
    ensures Play(y, mvs) == y.(pcs := [TrimCheck(0), TrimCheck(0)], s := Added(y.s, 0, 5))
  {
    var y1 := Do(y, Load(0, 5));
    var y2 := Do(y1, Load(1, 5));
    var y3 := Do(y2, Go(0));
    var y4 := Do(y3, Go(1));
    First(y3, Go(1), []);
    First(y2, Go(0), [Go(1)]);
    First(y1, Load(1, 5), [Go(0)] + [Go(1)]);
    First(y, Load(0, 5), [Load(1, 5)] + ([Go(0)] + [Go(1)]));
    mvs := [Load(0, 5)] + ([Load(1, 5)] + ([Go(0)] + [Go(1)]));
    assert !UpToDate(y3, Go(1), 0);
    assert mvs[1..] == [Load(1, 5)] + ([Go(0)] + [Go(1)]) && mvs[1..][1..] == [Go(0)] + [Go(1)];
    assert mvs[1..][1..][1..] == [Go(1)];
    assert !AllUpToDate(y3, [Go(1)], 0) && !AllUpToDate(y2, [Go(0)] + [Go(1)], 0);
    assert !AllUpToDate(y1, mvs[1..], 0);
    assert Play(y4, []) == y4;
  }

  lemma {:induction false} UpToDateAfter(y: Sys, a: seq<Move>, b: seq<Move>, p: int)
    requires Playable(y, a) && Playable(Play(y, a), b) && Playable(y, a + b)
    ensures AllUpToDate(y, a + b, p) ==> AllUpToDate(Play(y, a), b, p)
    decreases |a|
  {
    if a == [] {
      assert a + b == b;
    } else {
      assert (a + b)[1..] == a[1..] + b;
      UpToDateAfter(Do(y, a[0]), a[1..], b, p);
    }
  }
}
