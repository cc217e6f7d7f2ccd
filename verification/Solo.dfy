// Calls of a single thread, made without interference from the others.
module Solo {
  import opened Bytes
  import opened Model
  import opened Threads
  import opened Interleaving

  /** A run that starts with one move. */
  lemma First(y: Sys, mv: Move, rest: seq<Move>)
    requires Enabled(y, mv) && (mv.Go? ==> InBounds(y, mv.t)) && Playable(Do(y, mv), rest)
    ensures Playable(y, [mv] + rest) && Play(y, [mv] + rest) == Play(Do(y, mv), rest)
  {
    assert ([mv] + rest)[1..] == rest;
  }

  lemma {:induction false} PlayConcat(y: Sys, a: seq<Move>, b: seq<Move>)
    requires Playable(y, a) && Playable(Play(y, a), b)
    ensures Playable(y, a + b) && Play(y, a + b) == Play(Play(y, a), b)
    decreases |a|
  {
    if a == [] {
      assert a + b == b;
    } else {
      assert (a + b)[1..] == a[1..] + b;
      PlayConcat(Do(y, a[0]), a[1..], b);
    }
  }

  /** No set_memory_size is called. */
  predicate NoResize(mvs: seq<Move>) {
    forall k :: 0 <= k < |mvs| && mvs[k].Call? ==> mvs[k].pc.GetCheck?
  }

  /** No writev is called. */
  predicate NoAdmission(mvs: seq<Move>) {
    forall k :: 0 <= k < |mvs| && mvs[k].Call? ==> mvs[k].pc.SizeCheck?
  }

  /** From the new fields to the release of the lock. */
  lemma PushRun(y: Sys, t: int, prev: int) returns (mvs: seq<Move>)
    requires 0 <= t < |y.pcs| && y.pcs[t] == SizePush(prev) && y.s.pieceLength > 0
    ensures Playable(y, mvs) && NoAdmission(mvs)
    ensures var bs := if y.s.bufferSize <= prev || prev < 0 then y.s.buffers
                      else y.s.buffers + FreshBuffers(prev, y.s.bufferSize, y.s.pieceLength);
            Play(y, mvs) == At(y.(s := y.s.(buffers := bs), lock := -1), t, Idle)
  {
    var go := Go(t);
    var y1 := Do(y, go);
    var y2 := Do(y1, go);
    First(y1, go, []);
    First(y, go, [go]);
    mvs := [go] + [go];
    assert Play(y2, []) == y2;
  }

  lemma GrowRun(y: Sys, t: int, m: int) returns (mvs: seq<Move>)
    requires 0 <= t < |y.pcs| && y.lock == -1 && y.pcs[t] == SizeWait(m) && y.s.pieceLength > 0
    ensures Playable(y, mvs) && NoAdmission(mvs)
    ensures Play(y, mvs) == At(y.(s := Grown(y.s, m), drift := y.drift + y.s.bufferSize - y.s.bufferLimit), t, Idle)
  {
    var go := Go(t);
    var y1 := Do(y, go);
    var y2 := Do(y1, go);
    var rest := PushRun(y2, t, y.s.bufferSize);
    First(y1, go, rest);
    First(y, go, [go] + rest);
    mvs := [go] + ([go] + rest);
    assert Play(y2, rest).pcs == y.pcs[t := Idle];
  }

  /** An idle thread makes a call of set_memory_size that passes the unlocked test. */
  lemma AskRun(y: Sys, t: int, m: int) returns (mvs: seq<Move>)
    requires 0 <= t < |y.pcs| && y.pcs[t].Idle? && m > y.s.capacity
    ensures Playable(y, mvs) && NoAdmission(mvs) && Play(y, mvs) == At(y, t, SizeWait(m))
  {
    var y1 := Do(y, Call(t, SizeCheck(m)));
    var y2 := Do(y1, Go(t));
    First(y1, Go(t), []);
    First(y, Call(t, SizeCheck(m)), [Go(t)]);
    mvs := [Call(t, SizeCheck(m))] + [Go(t)];
    assert Play(y2, []) == y2;
  }

  lemma {:induction false} ScanRun(y: Sys, t: int, p: int, j: int, i: int) returns (mvs: seq<Move>)
    requires 0 <= t < |y.pcs| && y.pcs[t] == GetScan(p, j) && 0 <= p < |y.s.pieces|
    requires 0 <= j <= i <= y.s.bufferSize <= |y.s.buffers|
    requires forall k :: j <= k < i ==> y.s.buffers[k].used
    ensures Playable(y, mvs) && NoResize(mvs) && Play(y, mvs) == At(y, t, GetScan(p, i))
    decreases i - j
  {
    if j == i {
      mvs := [];
      assert At(y, t, GetScan(p, i)) == y;
    } else {
      var y1 := Do(y, Go(t));
      var rest := ScanRun(y1, t, p, j + 1, i);
      First(y, Go(t), rest);
      mvs := [Go(t)] + rest;
      assert At(y1, t, GetScan(p, i)) == At(y, t, GetScan(p, i));
    }
  }

  /** From the link of the piece to the release of the lock. */
  lemma LinkRun(y: Sys, t: int, p: int, i: int) returns (mvs: seq<Move>)
    requires 0 <= t < |y.pcs| && y.pcs[t] == GetLink(p, i) && 0 <= p < |y.s.pieces| && 0 <= i < |y.s.buffers|
    ensures Playable(y, mvs) && NoResize(mvs)
    ensures Play(y, mvs) == At(y.(s := Assigned(y.s, p, i), lock := -1), t, Fill(p))
  {
    var go := Go(t);
    var y1 := Do(y, go);
    var y2 := Do(y1, go);
    var y3 := Do(y2, go);
    First(y2, go, []);
    First(y1, go, [go]);
    First(y, go, [go] + [go]);
    mvs := [go] + ([go] + [go]);
    assert Play(y3, []) == y3;
  }

  lemma TakeRun(y: Sys, t: int, p: int, i: int) returns (mvs: seq<Move>)
    requires 0 <= t < |y.pcs| && y.pcs[t] == GetScan(p, i) && 0 <= p < |y.s.pieces|
    requires 0 <= i < y.s.bufferSize <= |y.s.buffers| && !y.s.buffers[i].used
    ensures Playable(y, mvs) && NoResize(mvs)
    ensures Play(y, mvs) == At(y.(s := Taken(y.s, p, i), lock := -1), t, Fill(p))
  {
    var y1 := Do(y, Go(t));
    var rest := LinkRun(y1, t, p, i);
    First(y, Go(t), rest);
    mvs := [Go(t)] + rest;
    assert At(y1.(s := Assigned(y1.s, p, i), lock := -1), t, Fill(p)).pcs == y.pcs[t := Fill(p)];
  }

  /** From the call of get_buffer for a piece that has no buffer to the start of the scan. */
  lemma EnterRun(y: Sys, t: int, p: int) returns (mvs: seq<Move>)
    requires 0 <= t < |y.pcs| && y.lock == -1 && y.pcs[t].Idle?
    requires 0 <= p < |y.s.pieces| && y.s.pieces[p].bi == -1
    ensures Playable(y, mvs) && NoResize(mvs)
    ensures Play(y, mvs) == At(y.(lock := t), t, GetScan(p, 0))
  {
    var go, call := Go(t), Call(t, GetCheck(p));
    var y1 := Do(y, call);
    var y2 := Do(y1, go);
    var y3 := Do(y2, go);
    var y4 := Do(y3, go);
    First(y3, go, []);
    First(y2, go, [go]);
    First(y1, go, [go] + [go]);
    First(y, call, [go] + ([go] + [go]));
    mvs := [call] + ([go] + ([go] + [go]));
    assert Play(y4, []) == y4;
  }

  /** The get_buffer of a writev admits `p` without interference: it gets the first free position `i`. */
  lemma AdmitRun(y: Sys, t: int, p: int, i: int) returns (mvs: seq<Move>)
    requires 0 <= t < |y.pcs| && y.lock == -1 && y.pcs[t].Idle?
    requires 0 <= p < |y.s.pieces| && y.s.pieces[p].bi == -1
    requires 0 <= i < y.s.bufferSize <= |y.s.buffers|
    requires (forall k :: 0 <= k < i ==> y.s.buffers[k].used) && !y.s.buffers[i].used
    ensures Playable(y, mvs) && NoResize(mvs)
    ensures Play(y, mvs) == At(y.(s := Taken(y.s, p, i)), t, Fill(p))
  {
    var enter := EnterRun(y, t, p);
    var y1 := Play(y, enter);
    var scan := ScanRun(y1, t, p, 0, i);
    var y2 := Play(y1, scan);
    var take := TakeRun(y2, t, p, i);
    PlayConcat(y1, scan, take);
    PlayConcat(y, enter, scan + take);
    mvs := enter + (scan + take);
    assert Play(y2, take).pcs == y.pcs[t := Fill(p)];
  }

  /** A get_buffer that finds every buffer used. */
  lemma FullRun(y: Sys, t: int, p: int) returns (mvs: seq<Move>)
    requires 0 <= t < |y.pcs| && y.lock == -1 && y.pcs[t].Idle?
    requires 0 <= p < |y.s.pieces| && y.s.pieces[p].bi == -1
    requires 0 <= y.s.bufferSize <= |y.s.buffers| && forall k :: 0 <= k < y.s.bufferSize ==> y.s.buffers[k].used
    ensures Playable(y, mvs) && NoResize(mvs) && Play(y, mvs) == y
  {
    var enter := EnterRun(y, t, p);
    var y1 := Play(y, enter);
    var scan := ScanRun(y1, t, p, 0, y.s.bufferSize);
    var y2 := Play(y1, scan);
    var y3 := Do(y2, Go(t));
    var y4 := Do(y3, Go(t));
    First(y3, Go(t), []);
    First(y2, Go(t), [Go(t)]);
    PlayConcat(y1, scan, [Go(t)] + [Go(t)]);
    PlayConcat(y, enter, scan + ([Go(t)] + [Go(t)]));
    mvs := enter + (scan + ([Go(t)] + [Go(t)]));
    assert Play(y4, []) == y4 && y4.pcs == y.pcs;
  }

  /** A get_buffer whose piece the reader gate turns away. */
  lemma RefusedRun(y: Sys, t: int, p: int) returns (mvs: seq<Move>)
    requires 0 <= t < |y.pcs| && y.lock == -1 && y.pcs[t].Idle?
    requires 0 <= p < |y.s.pieces| && y.s.pieces[p].bi == -1
    ensures Playable(y, mvs) && NoResize(mvs) && Play(y, mvs) == y
  {
    var go, call, refuse := Go(t), Call(t, GetCheck(p)), Refuse(t);
    var y1 := Do(y, call);
    var y2 := Do(y1, go);
    var y3 := Do(y2, go);
    var y4 := Do(y3, refuse);
    var y5 := Do(y4, go);
    First(y4, go, []);
    First(y3, refuse, [go]);
    First(y2, go, [refuse] + [go]);
    First(y1, go, [go] + ([refuse] + [go]));
    First(y, call, [go] + ([go] + ([refuse] + [go])));
    mvs := [call] + ([go] + ([go] + ([refuse] + [go])));
    assert Play(y5, []) == y5 && y5.pcs == y.pcs;
  }

  /** A get_buffer whose piece has a buffer. */
  lemma BufferedRun(y: Sys, t: int, p: int) returns (mvs: seq<Move>)
    requires 0 <= t < |y.pcs| && y.pcs[t].Idle? && 0 <= p < |y.s.pieces| && y.s.pieces[p].bi != -1
    ensures Playable(y, mvs) && NoResize(mvs) && Play(y, mvs) == At(y, t, Fill(p))
  {
    var y1 := Do(y, Call(t, GetCheck(p)));
    First(y1, Go(t), []);
    First(y, Call(t, GetCheck(p)), [Go(t)]);
    mvs := [Call(t, GetCheck(p))] + [Go(t)];
    assert Play(Do(y1, Go(t)), []) == At(y, t, Fill(p));
  }

  /** One call of set_memory_size from start to end, without interference. */
  lemma ResizeRun(y: Sys, t: int, m: int) returns (mvs: seq<Move>, y': Sys)
    requires 0 <= t < |y.pcs| && y.lock == -1 && y.pcs[t].Idle? && m > y.s.capacity && y.s.pieceLength > 0
    ensures Playable(y, mvs) && NoAdmission(mvs) && Play(y, mvs) == y'
    ensures y'.s == Grown(y.s, m) && y'.lock == -1 && y'.pcs == y.pcs
    ensures y'.drift == y.drift + y.s.bufferSize - y.s.bufferLimit
  {
    var a := AskRun(y, t, m);
    var y1 := Play(y, a);
    var b := GrowRun(y1, t, m);
    PlayConcat(y, a, b);
    mvs, y' := a + b, Play(y1, b);
  }

  /** The end of an eviction, when it leaves the counter below the limit. */
  lemma UnlinkRun(y: Sys, t: int) returns (mvs: seq<Move>)
    requires 0 <= t < |y.pcs| && y.pcs[t].TrimUnlink? && 0 <= y.pcs[t].pi < |y.s.pieces|
    requires y.s.bufferUsed < y.s.bufferLimit
    ensures Playable(y, mvs) && NoResize(mvs)
    ensures var pi := y.pcs[t].pi;
            Play(y, mvs) == At(y.(s := y.s.(pieces := y.s.pieces[pi := y.s.pieces[pi].(bi := -1, size := 0)]),
                                  lock := -1), t, Idle)
  {
    var go := Go(t);
    var y1 := Do(y, go);
    var y2 := Do(y1, go);
    var y3 := Do(y2, go);
    First(y2, go, []);
    First(y1, go, [go]);
    First(y, go, [go] + [go]);
    mvs := [go] + ([go] + [go]);
    assert Play(y3, []) == y3;
  }

  lemma EvictRun(y: Sys, t: int, b: int) returns (mvs: seq<Move>)
    requires 0 <= t < |y.pcs| && y.lock == t && y.pcs[t].TrimGuard?
    requires 0 <= b < |y.s.buffers| && y.s.buffers[b].index == b && 0 <= y.s.buffers[b].pi < |y.s.pieces|
    requires Evictable(y.s, y.pcs[t].keep, b) && y.s.bufferUsed == y.s.bufferLimit
    ensures Playable(y, mvs) && NoResize(mvs)
    ensures Play(y, mvs) == At(y.(s := Freed(y.s, b), lock := -1), t, Idle)
  {
    var go, choose := Go(t), Choose(t, b);
    var y1 := Do(y, choose);
    var y2 := Do(y1, go);
    var y3 := Do(y2, go);
    var rest := UnlinkRun(y3, t);
    First(y2, go, rest);
    First(y1, go, [go] + rest);
    First(y, choose, [go] + ([go] + rest));
    mvs := [choose] + ([go] + ([go] + rest));
    assert Play(y3, rest).pcs == y.pcs[t := Idle];
  }

  /** Thread `t` reads the counter and writes it back without interference. */
  lemma AddRun(y: Sys, t: int, n: nat) returns (mvs: seq<Move>)
    requires 0 <= t < |y.pcs| && y.pcs[t].Fill? && 0 <= y.pcs[t].p < |y.s.pieces|
    ensures Playable(y, mvs) && NoResize(mvs)
    ensures Play(y, mvs) == At(y.(s := Added(y.s, y.pcs[t].p, n)), t, TrimCheck(y.pcs[t].p))
  {
    var y1 := Do(y, Load(t, n));
    First(y1, Go(t), []);
    First(y, Load(t, n), [Go(t)]);
    mvs := [Load(t, n)] + [Go(t)];
    assert Play(Do(y1, Go(t)), []) == At(y.(s := Added(y.s, y.pcs[t].p, n)), t, TrimCheck(y.pcs[t].p));
  }

  /** Thread `t` completes its writev of `n` bytes and evicts position `b` on the way out. */
  lemma FinishRun(y: Sys, t: int, n: nat, b: int) returns (mvs: seq<Move>)
    requires 0 <= t < |y.pcs| && y.lock == -1 && y.pcs[t].Fill? && 0 <= y.pcs[t].p < |y.s.pieces|
    requires 0 <= b < |y.s.buffers| && y.s.buffers[b].index == b && 0 <= y.s.buffers[b].pi < |y.s.pieces|
    requires Evictable(y.s, y.pcs[t].p, b) && y.s.capacity >= 0 && y.s.bufferUsed == y.s.bufferLimit
    ensures Playable(y, mvs) && NoResize(mvs)
    ensures Play(y, mvs) == At(y.(s := Freed(Added(y.s, y.pcs[t].p, n), b)), t, Idle)
  {
    var add := AddRun(y, t, n);
    var go, y1 := Go(t), Play(y, add);
    var y2 := Do(y1, go);
    var y3 := Do(y2, go);
    var rest := EvictRun(y3, t, b);
    First(y2, go, rest);
    First(y1, go, [go] + rest);
    PlayConcat(y, add, [go] + ([go] + rest));
    mvs := add + ([go] + ([go] + rest));
    assert Play(y3, rest).pcs == y.pcs[t := Idle];
  }

  /** Thread `t` completes its writev of `n` bytes and has nothing to evict. */
  lemma ReturnRun(y: Sys, t: int, n: nat) returns (mvs: seq<Move>)
    requires 0 <= t < |y.pcs| && y.pcs[t].Fill? && 0 <= y.pcs[t].p < |y.s.pieces|
    requires y.s.bufferUsed < y.s.bufferLimit
    ensures Playable(y, mvs) && NoResize(mvs)
    ensures Play(y, mvs) == At(y.(s := Added(y.s, y.pcs[t].p, n)), t, Idle)
  {
    var add := AddRun(y, t, n);
    var y1 := Play(y, add);
    First(y1, Go(t), []);
    PlayConcat(y, add, [Go(t)]);
    mvs := add + [Go(t)];
    assert Play(Do(y1, Go(t)), []).pcs == y.pcs[t := Idle];
  }

  /** A set_memory_size that asks for no more than there is. */
  lemma EnoughRun(y: Sys, t: int, m: int) returns (mvs: seq<Move>)
    requires 0 <= t < |y.pcs| && y.pcs[t].Idle? && m <= y.s.capacity
    ensures Playable(y, mvs) && NoAdmission(mvs) && Play(y, mvs) == y
  {
    var y1 := Do(y, Call(t, SizeCheck(m)));
    First(y1, Go(t), []);
    First(y, Call(t, SizeCheck(m)), [Go(t)]);
    mvs := [Call(t, SizeCheck(m))] + [Go(t)];
    assert Play(Do(y1, Go(t)), []).pcs == y.pcs;
  }

  /** A writev of `n` bytes up to the guard of trim's loop. */
  lemma GuardRun(y: Sys, t: int, n: nat) returns (mvs: seq<Move>)
    requires 0 <= t < |y.pcs| && y.lock == -1 && y.pcs[t].Fill? && 0 <= y.pcs[t].p < |y.s.pieces|
    requires y.s.capacity >= 0 && y.s.bufferUsed >= y.s.bufferLimit
    ensures Playable(y, mvs) && NoResize(mvs)
    ensures Play(y, mvs) == At(y.(s := Added(y.s, y.pcs[t].p, n), lock := t), t, TrimGuard(y.pcs[t].p))
  {
    var add := AddRun(y, t, n);
    var go, y1 := Go(t), Play(y, add);
    var y2 := Do(y1, go);
    First(y2, go, []);
    First(y1, go, [go]);
    PlayConcat(y, add, [go] + [go]);
    mvs := add + ([go] + [go]);
    assert Play(Do(y2, go), []).pcs == y.pcs[t := TrimGuard(y.pcs[t].p)];
  }
}
