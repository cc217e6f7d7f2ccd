// Several threads in writev and set_memory_size at once.  Each test made outside m_mutex and
// each acquisition and release of it is a step of its own, and so are the reading and the
// writing of the byte counter, which happen outside it, and each stage of the work inside
// it: marking a buffer, linking the piece, counting, resetting a victim, and so on.
// Four stages write two or three fields at once: marking a buffer, resetting one, resetting its
// piece, and setting the capacity and the sizes; and new buffers are appended all at once.
// No test outside the mutex can tell: each reads one of those fields, but for trim's, which
// reads the limit and whether the capacity is negative, and it never is.  Between any two
// steps other threads may run, and libtorrent may change the reserved set.  Bytes and access
// times are not part of this model.
module Threads {
  import opened Bytes
  import opened Model
  import opened Trimming

  datatype PC =
    | Idle
    // get_buffer(p, true)
    | GetCheck(p: int)            // before the unlocked test
    | GetWait(p: int)             // at the lock
    | GetRecheck(p: int)          // holds the lock
    | GetScan(p: int, i: int)     // at buffer i of the loop
    | GetLink(p: int, i: int)     // buffer i is marked as used by p
    | GetCount(p: int)            // p points to its buffer
    // writev(p), after get_buffer has said yes: no lock is held
    | Fill(p: int)                // copying into the buffer
    | Add(p: int, seen: int, n: nat)        // the counter has been read, and n is to be added
    // trim(keep), as writev(keep) calls it
    | TrimCheck(keep: int)
    | TrimWait(keep: int)
    | TrimGuard(keep: int)         // holds the lock, at the loop guard
    | TrimReset(keep: int, b: int)          // a victim has been chosen
    | TrimCount(keep: int, pi: int)         // its buffer has been reset
    | TrimUnlink(keep: int, pi: int)        // and the counter decremented
    // set_memory_size(m)
    | SizeCheck(m: int)
    | SizeWait(m: int)
    | SizeApply(m: int)           // holds the lock
    | SizePush(prev: int)         // the fields are set, the buffers not yet appended
    // about to release the lock; `p` is the piece whose writev goes on, or -1
    | Leave(p: int)

  /** `lock` is the thread that holds m_mutex, or -1; `drift` records what set_memory_size forgets. */
  datatype Sys = Sys(s: State, lock: int, pcs: seq<PC>, drift: int)

  predicate Locked(pc: PC) {
    match pc
    case Idle => false
    case GetCheck(_) => false
    case GetWait(_) => false
    case Fill(_) => false
    case Add(_, _, _) => false
    case TrimCheck(_) => false
    case TrimWait(_) => false
    case SizeCheck(_) => false
    case SizeWait(_) => false
    case _ => true
  }

  // ----- Moves -----

  datatype Move =
    | Call(t: int, pc: PC)        // an idle thread makes a call
    | Go(t: int)                  // a thread takes its next step
    | Refuse(t: int)              // a rechecked piece is turned away by the reader gate
    | Load(t: int, n: nat)        // a writev has copied n bytes and reads the counter
    | Choose(t: int, b: int)      // a scan of trim settles on the buffer at position b
    | SetReserved(reserved: set<int>) // libtorrent replaces the reserved set

  predicate Acquires(pc: PC) {
    pc.GetWait? || pc.TrimWait? || pc.SizeWait?
  }

  ghost predicate Enabled(y: Sys, mv: Move) {
    match mv
    case Call(t, pc) =>
      && 0 <= t < |y.pcs| && y.pcs[t].Idle?
      && (pc.SizeCheck? || (pc.GetCheck? && 0 <= pc.p < |y.s.pieces|))
    case Go(t) =>
      && 0 <= t < |y.pcs| && !y.pcs[t].Idle? && !y.pcs[t].Fill?
      && (Acquires(y.pcs[t]) ==> y.lock == -1)
      // a scan that finds nothing: the loop goes round
      && (y.pcs[t].TrimGuard? ==> y.s.bufferUsed < y.s.bufferLimit || NoVictim(y.s, y.pcs[t].keep))
    case Refuse(t) =>
      && 0 <= t < |y.pcs| && y.pcs[t].GetRecheck?
      && 0 <= y.pcs[t].p < |y.s.pieces| && y.s.pieces[y.pcs[t].p].bi == -1
    case Load(t, _) => 0 <= t < |y.pcs| && y.pcs[t].Fill? && 0 <= y.pcs[t].p < |y.s.pieces|
    case Choose(t, b) =>
      && 0 <= t < |y.pcs| && y.pcs[t].TrimGuard?
      && y.s.bufferUsed >= y.s.bufferLimit
      && 0 <= b < |y.s.buffers| && Evictable(y.s, y.pcs[t].keep, b)
    case SetReserved(_) => true
  }

  function At(y: Sys, t: int, pc: PC): Sys
    requires 0 <= t < |y.pcs|
  {
    y.(pcs := y.pcs[t := pc])
  }

  /** Everything the step of a thread relies on to index the tables. */
  ghost predicate InBounds(y: Sys, t: int)
    requires 0 <= t < |y.pcs|
  {
    match y.pcs[t]
    case GetCheck(p) => 0 <= p < |y.s.pieces|
    case GetRecheck(p) => 0 <= p < |y.s.pieces|
    case GetScan(p, i) => 0 <= p < |y.s.pieces| && 0 <= i && y.s.bufferSize <= |y.s.buffers|
    case GetLink(p, i) => 0 <= p < |y.s.pieces| && 0 <= i < |y.s.buffers|
    case GetCount(p) => 0 <= p < |y.s.pieces|
    case Add(p, _, _) => 0 <= p < |y.s.pieces|
    case TrimReset(_, b) => 0 <= b < |y.s.buffers|
    case TrimUnlink(_, pi) => -1 <= pi < |y.s.pieces|
    case SizeApply(_) => y.s.pieceLength > 0
    case SizePush(_) => y.s.pieceLength >= 0
    case _ => true
  }

  /** A free buffer is taken for a piece that does not point to it yet. */
  function MarkUsed(s: State, p: int, i: int): State
    requires 0 <= p < |s.pieces| && 0 <= i < |s.buffers|
  {
    s.(buffers := s.buffers[i := s.buffers[i].(used := true, pi := s.pieces[p].index)])
  }

  function Advance(y: Sys, t: int): Sys
    requires 0 <= t < |y.pcs| && InBounds(y, t)
  {
    var s := y.s;
    match y.pcs[t]
    case Idle => y
    case GetCheck(p) => At(y, t, if s.pieces[p].bi != -1 then Fill(p) else GetWait(p))
    case GetWait(p) => At(y.(lock := t), t, GetRecheck(p))
    case GetRecheck(p) => At(y, t, if s.pieces[p].bi != -1 then Leave(p) else GetScan(p, 0))
    case GetScan(p, i) =>
      if i >= s.bufferSize then At(y, t, Leave(-1))
      else if s.buffers[i].used then At(y, t, GetScan(p, i + 1))
      else At(y.(s := MarkUsed(s, p, i)), t, GetLink(p, i))
    case GetLink(p, i) =>
      At(y.(s := s.(pieces := s.pieces[p := s.pieces[p].(bi := s.buffers[i].index)])), t, GetCount(p))
    case GetCount(p) =>
      At(y.(s := if s.pieces[p].index in s.reserved then s.(bufferLimit := s.bufferLimit - 1)
                 else s.(bufferUsed := s.bufferUsed + 1)), t, Leave(p))
    case Fill(_) => y
    case Add(p, seen, n) =>
      At(y.(s := s.(pieces := s.pieces[p := s.pieces[p].(size := seen + n)])), t, TrimCheck(p))
    case TrimCheck(keep) =>
      At(y, t, if s.capacity < 0 || s.bufferUsed < s.bufferLimit then Idle else TrimWait(keep))
    case TrimWait(keep) => At(y.(lock := t), t, TrimGuard(keep))
    case TrimGuard(keep) => if s.bufferUsed < s.bufferLimit then At(y, t, Leave(-1)) else y
    case TrimReset(keep, b) =>
      At(y.(s := s.(buffers := s.buffers[b := s.buffers[b].(used := false, pi := -1)])), t,
         TrimCount(keep, s.buffers[b].pi))
    case TrimCount(keep, pi) => At(y.(s := s.(bufferUsed := s.bufferUsed - 1)), t, TrimUnlink(keep, pi))
    case TrimUnlink(keep, pi) =>
      At(if pi == -1 then y else y.(s := s.(pieces := s.pieces[pi := s.pieces[pi].(bi := -1, size := 0)])), t,
         TrimGuard(keep))
    case SizeCheck(m) => At(y, t, if m <= s.capacity then Idle else SizeWait(m))
    case SizeWait(m) => At(y.(lock := t), t, SizeApply(m))
    case SizeApply(m) =>
      var n := PoolSize(m, s.pieceLength, |s.pieces|);
      At(y.(s := s.(capacity := m, bufferSize := n, bufferLimit := n),
            drift := y.drift + s.bufferSize - s.bufferLimit), t, SizePush(s.bufferSize))
    case SizePush(prev) =>
      At(if s.bufferSize <= prev || prev < 0 then y
         else y.(s := s.(buffers := s.buffers + FreshBuffers(prev, s.bufferSize, s.pieceLength))), t, Leave(-1))
    case Leave(p) => At(y.(lock := -1), t, if p == -1 then Idle else Fill(p))
  }

  function Do(y: Sys, mv: Move): Sys
    requires Enabled(y, mv) && (mv.Go? ==> InBounds(y, mv.t))
  {
    match mv
    case Call(t, pc) => At(y, t, pc)
    case Go(t) => Advance(y, t)
    case Refuse(t) => At(y, t, Leave(-1))
    case Load(t, n) =>
      var p := y.pcs[t].p;
      At(y, t, Add(p, y.s.pieces[p].size, n))
    case Choose(t, b) => At(y, t, TrimReset(y.pcs[t].keep, y.s.buffers[b].index))
    case SetReserved(reserved) => y.(s := y.s.(reserved := reserved))
  }

  // ----- What every reachable state keeps -----

  /** What the thread inside m_mutex is doing; Idle when nobody is. */
  function Owner(y: Sys): PC {
    if 0 <= y.lock < |y.pcs| then y.pcs[y.lock] else Idle
  }

  /** Mutual exclusion. */
  ghost predicate LockOk(y: Sys) {
    && -1 <= y.lock < |y.pcs|
    && forall t :: 0 <= t < |y.pcs| ==> (Locked(y.pcs[t]) <==> t == y.lock)
  }

  ghost predicate ArgsOk(y: Sys) {
    forall t :: 0 <= t < |y.pcs| ==> ArgOk(y, y.pcs[t])
  }

  ghost predicate ArgOk(y: Sys, pc: PC) {
    && (pc.GetCheck? || pc.GetWait? || pc.GetRecheck? || pc.GetScan? || pc.GetLink? || pc.GetCount?
        || pc.Fill? || pc.Add? ==>
          0 <= pc.p < |y.s.pieces|)
    && (pc.Leave? ==> -1 <= pc.p < |y.s.pieces|)
    && (pc.SizeWait? || pc.SizeApply? ==> pc.m > 0)
  }

  /** There are at least as many buffers as the pool size says. */
  ghost predicate Sized(y: Sys) {
    0 <= (if Owner(y).SizePush? then Owner(y).prev else y.s.bufferSize) <= |y.s.buffers|
  }

  /** A used buffer is at its index and points to a piece that points back, but for the buffer just marked. */
  ghost predicate BufferLinked(y: Sys, b: int)
    requires 0 <= b < |y.s.buffers|
  {
    var f := y.s.buffers[b];
    && (f.used <==> f.pi != -1)
    && -1 <= f.pi < |y.s.pieces|
    && (f.used && Owner(y) != GetLink(f.pi, b) ==>
          f.index == b && y.s.pieces[f.pi].bi == b)
  }

  /** The piece whose buffer has been reset, while its own entry has not. */
  predicate Unlinking(pc: PC, p: int) {
    (pc.TrimCount? || pc.TrimUnlink?) && pc.pi == p
  }

  /** A piece points to a buffer that points back, but for the piece being evicted. */
  ghost predicate PieceLinked(y: Sys, p: int)
    requires 0 <= p < |y.s.pieces|
  {
    var q := y.s.pieces[p];
    && q.index == p
    && (q.bi != -1 && !Unlinking(Owner(y), p) ==> 0 <= q.bi < |y.s.buffers| && y.s.buffers[q.bi].pi == p)
  }

  ghost predicate Linked(y: Sys) {
    && (forall b :: 0 <= b < |y.s.buffers| ==> BufferLinked(y, b))
    && (forall p :: 0 <= p < |y.s.pieces| ==> PieceLinked(y, p))
  }

  /** What the thread inside m_mutex has established so far. */
  ghost predicate OwnerOk(y: Sys) {
    match Owner(y)
    case GetScan(p, i) => 0 <= p < |y.s.pieces| && y.s.pieces[p].bi == -1 && i >= 0
    case GetLink(p, i) =>
      && 0 <= p < |y.s.pieces| && y.s.pieces[p].bi == -1
      && 0 <= i < |y.s.buffers| && y.s.buffers[i].pi == p
      && forall b :: 0 <= b < |y.s.buffers| && y.s.buffers[b].pi == p ==> b == i
    case GetCount(p) => 0 <= p < |y.s.pieces| && y.s.pieces[p].bi != -1
    case Leave(p) => p != -1 ==> 0 <= p < |y.s.pieces| && y.s.pieces[p].bi != -1
    case TrimReset(_, b) => 0 <= b < |y.s.buffers| && y.s.buffers[b].used
    case TrimCount(_, pi) => 0 <= pi < |y.s.pieces| && NoBuffer(y.s, pi)
    case TrimUnlink(_, pi) => 0 <= pi < |y.s.pieces| && NoBuffer(y.s, pi)
    case _ => true
  }

  ghost predicate NoBuffer(s: State, p: int) {
    forall b :: 0 <= b < |s.buffers| ==> s.buffers[b].pi != p
  }

  /** Used buffers not yet counted, less those still counted. */
  function Pending(pc: PC): int {
    if pc.GetLink? || pc.GetCount? then 1 else if pc.TrimCount? then -1 else 0
  }

  ghost predicate Counted(y: Sys) {
    |UsedBuffers(y.s)| == y.s.bufferUsed + (y.s.bufferSize - y.s.bufferLimit) + y.drift + Pending(Owner(y))
  }

  ghost predicate Safe(y: Sys) {
    && y.s.pieceLength > 0 && y.s.capacity >= 0
    && y.s.bufferSize == PoolSize(y.s.capacity, y.s.pieceLength, |y.s.pieces|)
    && LockOk(y) && ArgsOk(y) && Sized(y) && Linked(y) && OwnerOk(y) && Counted(y)
  }

  /** An admission takes a buffer whose index is its position. */
  ghost predicate LinksInPlace(y: Sys, mv: Move) {
    mv.Go? && 0 <= mv.t < |y.pcs| && y.pcs[mv.t].GetLink? && InBounds(y, mv.t) ==>
      y.s.buffers[y.pcs[mv.t].i].index == y.pcs[mv.t].i
  }

  lemma SafeInBounds(y: Sys, t: int)
    requires Safe(y) && 0 <= t < |y.pcs|
    ensures InBounds(y, t)
  {
    assert ArgOk(y, y.pcs[t]);
    if Locked(y.pcs[t]) {
      assert Owner(y) == y.pcs[t];
    }
  }

  // ----- Each step keeps it -----

  /** The links, the counters of the pool and the thread inside are as before. */
  ghost predicate SameInside(y: Sys, y': Sys) {
    && y'.s == y.s.(reserved := y'.s.reserved, pieces := y'.s.pieces)
    && |y'.s.pieces| == |y.s.pieces|
    && (forall p :: 0 <= p < |y.s.pieces| ==> y'.s.pieces[p] == y.s.pieces[p].(size := y'.s.pieces[p].size))
    && y'.drift == y.drift && |y'.pcs| == |y.pcs|
    && Owner(y') == Owner(y)
  }

  lemma InsideUntouched(y: Sys, y': Sys)
    requires Safe(y) && SameInside(y, y') && LockOk(y') && ArgsOk(y')
    ensures Safe(y')
  {
    forall b | 0 <= b < |y'.s.buffers| ensures BufferLinked(y', b) {
      assert BufferLinked(y, b);
    }
    forall p | 0 <= p < |y'.s.pieces| ensures PieceLinked(y', p) {
      assert PieceLinked(y, p);
    }
    forall b | 0 <= b < |y.s.buffers| ensures InUse(y.s, b) <==> InUse(y'.s, b) {
    }
    assert UsedBuffers(y.s) == UsedBuffers(y'.s);
  }

  lemma Outside(y: Sys, t: int, pc: PC)
    requires Safe(y) && 0 <= t < |y.pcs| && !Locked(y.pcs[t]) && !Locked(pc) && ArgOk(y, pc)
    ensures Safe(At(y, t, pc))
  {
    var y' := At(y, t, pc);
    assert t != y.lock;
    forall u | 0 <= u < |y'.pcs| ensures ArgOk(y', y'.pcs[u]) {
      assert ArgOk(y, y.pcs[u]);
    }
    InsideUntouched(y, y');
  }

  /** Bookkeeping for the thread that holds the lock. */
  lemma InsideStep(y: Sys, t: int, y': Sys)
    requires Safe(y) && 0 <= t < |y.pcs| && t == y.lock
    requires y'.lock == t && |y'.pcs| == |y.pcs| && Locked(y'.pcs[t]) && |y'.s.pieces| == |y.s.pieces|
    requires ArgOk(y', y'.pcs[t])
    requires forall u :: 0 <= u < |y.pcs| && u != t ==> y'.pcs[u] == y.pcs[u]
    ensures LockOk(y') && ArgsOk(y') && Owner(y') == y'.pcs[t] && Owner(y) == y.pcs[t]
  {
    forall u | 0 <= u < |y'.pcs| ensures ArgOk(y', y'.pcs[u]) {
      assert ArgOk(y, y.pcs[u]);
    }
  }

  /** Neither before nor after the step is an exception to the links open. */
  predicate Plain(pc: PC) {
    !pc.GetLink? && !pc.TrimCount? && !pc.TrimUnlink? && !pc.SizePush?
  }

  lemma PlainStep(y: Sys, t: int, pc: PC)
    requires Safe(y) && 0 <= t < |y.pcs| && t == y.lock && Locked(pc) && ArgOk(y, pc)
    requires Plain(y.pcs[t]) && Plain(pc) && !y.pcs[t].GetCount? && !pc.GetCount?
    requires pc.GetScan? ==> y.s.pieces[pc.p].bi == -1 && pc.i >= 0
    requires pc.TrimReset? ==> 0 <= pc.b < |y.s.buffers| && y.s.buffers[pc.b].used
    requires pc.Leave? && pc.p != -1 ==> y.s.pieces[pc.p].bi != -1
    ensures Safe(At(y, t, pc))
  {
    var y' := At(y, t, pc);
    InsideStep(y, t, y');
    forall b | 0 <= b < |y'.s.buffers| ensures BufferLinked(y', b) {
      assert BufferLinked(y, b);
    }
    forall p | 0 <= p < |y'.s.pieces| ensures PieceLinked(y', p) {
      assert PieceLinked(y, p);
    }
  }

  lemma Acquire(y: Sys, t: int, pc: PC)
    requires Safe(y) && 0 <= t < |y.pcs| && y.lock == -1 && !Locked(y.pcs[t])
    requires pc.GetRecheck? || pc.TrimGuard? || pc.SizeApply?
    requires ArgOk(y, pc)
    ensures Safe(At(y.(lock := t), t, pc))
  {
    var y' := At(y.(lock := t), t, pc);
    forall u | 0 <= u < |y'.pcs| ensures ArgOk(y', y'.pcs[u]) {
      assert ArgOk(y, y.pcs[u]);
    }
    forall b | 0 <= b < |y'.s.buffers| ensures BufferLinked(y', b) {
      assert BufferLinked(y, b);
    }
    forall p | 0 <= p < |y'.s.pieces| ensures PieceLinked(y', p) {
      assert PieceLinked(y, p);
    }
  }

  lemma Release(y: Sys, t: int)
    requires Safe(y) && 0 <= t < |y.pcs| && y.pcs[t].Leave?
    ensures Safe(Advance(y, t))
  {
    var y' := Advance(y, t);
    assert t == y.lock && Owner(y) == y.pcs[t];
    assert ArgOk(y, y.pcs[t]);
    forall u | 0 <= u < |y'.pcs| ensures ArgOk(y', y'.pcs[u]) {
      assert ArgOk(y, y.pcs[u]);
    }
    forall b | 0 <= b < |y'.s.buffers| ensures BufferLinked(y', b) {
      assert BufferLinked(y, b);
    }
    forall p | 0 <= p < |y'.s.pieces| ensures PieceLinked(y', p) {
      assert PieceLinked(y, p);
    }
  }

  lemma AddStep(y: Sys, t: int)
    requires Safe(y) && 0 <= t < |y.pcs| && y.pcs[t].Add? && InBounds(y, t)
    ensures Safe(Advance(y, t))
  {
    var y' := Advance(y, t);
    assert t != y.lock;
    forall u | 0 <= u < |y'.pcs| ensures ArgOk(y', y'.pcs[u]) {
      assert ArgOk(y, y.pcs[u]);
    }
    InsideUntouched(y, y');
  }

  lemma MarkUse(s: State, p: int, i: int)
    requires 0 <= p < |s.pieces| && 0 <= i < |s.buffers| && !s.buffers[i].used
    ensures |UsedBuffers(MarkUsed(s, p, i))| == |UsedBuffers(s)| + 1
  {
    var s' := MarkUsed(s, p, i);
    assert forall b :: 0 <= b < |s.buffers| ==> (InUse(s', b) <==> b == i || InUse(s, b));
    assert UsedBuffers(s') == UsedBuffers(s) + {i};
    assert !InUse(s, i);
  }

  lemma MarkStep(y: Sys, t: int)
    requires Safe(y) && 0 <= t < |y.pcs| && y.pcs[t].GetScan? && InBounds(y, t)
    requires y.pcs[t].i < y.s.bufferSize && !y.s.buffers[y.pcs[t].i].used
    ensures Safe(Advance(y, t))
  {
    var p, i := y.pcs[t].p, y.pcs[t].i;
    var y' := At(y.(s := MarkUsed(y.s, p, i)), t, GetLink(p, i));
    assert t == y.lock && Owner(y) == y.pcs[t];
    InsideStep(y, t, y');
    assert PieceLinked(y, p) && BufferLinked(y, i);
    forall b | 0 <= b < |y'.s.buffers|
      ensures BufferLinked(y', b) && (y'.s.buffers[b].pi == p ==> b == i)
    {
      assert BufferLinked(y, b);
    }
    forall q | 0 <= q < |y'.s.pieces| ensures PieceLinked(y', q) {
      assert PieceLinked(y, q);
    }
    MarkUse(y.s, p, i);
    assert Safe(y');
    assert y' == Advance(y, t);
  }

  lemma LinkStep(y: Sys, t: int)
    requires Safe(y) && 0 <= t < |y.pcs| && y.pcs[t].GetLink? && InBounds(y, t) && LinksInPlace(y, Go(t))
    ensures Safe(Advance(y, t))
  {
    var p, i := y.pcs[t].p, y.pcs[t].i;
    var y' := Advance(y, t);
    assert t == y.lock && Owner(y) == y.pcs[t];
    InsideStep(y, t, y');
    forall b | 0 <= b < |y'.s.buffers| ensures BufferLinked(y', b) {
      assert BufferLinked(y, b);
    }
    forall q | 0 <= q < |y'.s.pieces| ensures PieceLinked(y', q) {
      assert PieceLinked(y, q);
    }
    assert forall b :: 0 <= b < |y.s.buffers| ==> (InUse(y'.s, b) <==> InUse(y.s, b));
    assert UsedBuffers(y'.s) == UsedBuffers(y.s);
  }

  /** Steps that write a counter and leave the tables as they are. */
  lemma CountStep(y: Sys, t: int)
    requires Safe(y) && 0 <= t < |y.pcs| && (y.pcs[t].GetCount? || y.pcs[t].TrimCount?) && InBounds(y, t)
    ensures Safe(Advance(y, t))
  {
    var y' := Advance(y, t);
    assert t == y.lock && Owner(y) == y.pcs[t];
    InsideStep(y, t, y');
    forall b | 0 <= b < |y'.s.buffers| ensures BufferLinked(y', b) {
      assert BufferLinked(y, b);
    }
    forall q | 0 <= q < |y'.s.pieces| ensures PieceLinked(y', q) {
      assert PieceLinked(y, q);
    }
    assert forall b :: 0 <= b < |y.s.buffers| ==> (InUse(y'.s, b) <==> InUse(y.s, b));
    assert UsedBuffers(y'.s) == UsedBuffers(y.s);
  }

  lemma ResetStep(y: Sys, t: int)
    requires Safe(y) && 0 <= t < |y.pcs| && y.pcs[t].TrimReset? && InBounds(y, t)
    ensures Safe(Advance(y, t))
  {
    var c := y.pcs[t].b;
    var y' := Advance(y, t);
    assert t == y.lock && Owner(y) == y.pcs[t];
    assert BufferLinked(y, c);
    InsideStep(y, t, y');
    forall b | 0 <= b < |y'.s.buffers| ensures BufferLinked(y', b) && y'.s.buffers[b].pi != y.s.buffers[c].pi {
      assert BufferLinked(y, b);
    }
    forall q | 0 <= q < |y'.s.pieces| ensures PieceLinked(y', q) {
      assert PieceLinked(y, q);
    }
    assert forall b :: 0 <= b < |y.s.buffers| ==> (InUse(y'.s, b) <==> b != c && InUse(y.s, b));
    assert UsedBuffers(y'.s) == UsedBuffers(y.s) - {c};
    assert InUse(y.s, c);
  }

  lemma UnlinkStep(y: Sys, t: int)
    requires Safe(y) && 0 <= t < |y.pcs| && y.pcs[t].TrimUnlink? && InBounds(y, t)
    ensures Safe(Advance(y, t))
  {
    var y' := Advance(y, t);
    assert t == y.lock && Owner(y) == y.pcs[t];
    InsideStep(y, t, y');
    forall b | 0 <= b < |y'.s.buffers| ensures BufferLinked(y', b) {
      assert BufferLinked(y, b);
    }
    forall q | 0 <= q < |y'.s.pieces| ensures PieceLinked(y', q) {
      assert PieceLinked(y, q);
    }
    assert forall b :: 0 <= b < |y.s.buffers| ==> (InUse(y'.s, b) <==> InUse(y.s, b));
    assert UsedBuffers(y'.s) == UsedBuffers(y.s);
  }

  lemma ApplyStep(y: Sys, t: int)
    requires Safe(y) && 0 <= t < |y.pcs| && y.pcs[t].SizeApply? && InBounds(y, t)
    ensures Safe(Advance(y, t))
  {
    var y' := Advance(y, t);
    assert t == y.lock && Owner(y) == y.pcs[t];
    assert ArgOk(y, y.pcs[t]);
    PoolSizeGrows(0, y.pcs[t].m, y.s.pieceLength, |y.s.pieces|);
    InsideStep(y, t, y');
    forall b | 0 <= b < |y'.s.buffers| ensures BufferLinked(y', b) {
      assert BufferLinked(y, b);
    }
    forall q | 0 <= q < |y'.s.pieces| ensures PieceLinked(y', q) {
      assert PieceLinked(y, q);
    }
    assert forall b :: 0 <= b < |y.s.buffers| ==> (InUse(y'.s, b) <==> InUse(y.s, b));
    assert UsedBuffers(y'.s) == UsedBuffers(y.s);
  }

  /** Taking a buffer whose index is not its position leaves it without a piece that points back. */
  lemma LinkOutOfPlace(y: Sys, t: int)
    requires Safe(y) && 0 <= t < |y.pcs| && InBounds(y, t) && !LinksInPlace(y, Go(t))
    ensures !Linked(Advance(y, t))
  {
    assert Locked(y.pcs[t]) && Owner(y) == y.pcs[t];
    assert !BufferLinked(Advance(y, t), y.pcs[t].i);
  }

  lemma PushStep(y: Sys, t: int)
    requires Safe(y) && 0 <= t < |y.pcs| && y.pcs[t].SizePush? && InBounds(y, t)
    ensures Safe(Advance(y, t))
  {
    var y' := Advance(y, t);
    assert t == y.lock && Owner(y) == y.pcs[t];
    InsideStep(y, t, y');
    forall b | 0 <= b < |y'.s.buffers| ensures BufferLinked(y', b) {
      assert b < |y.s.buffers| ==> BufferLinked(y, b);
    }
    forall q | 0 <= q < |y'.s.pieces| ensures PieceLinked(y', q) {
      assert PieceLinked(y, q);
    }
    assert forall b :: 0 <= b < |y'.s.buffers| ==> (InUse(y'.s, b) <==> InUse(y.s, b));
    assert UsedBuffers(y'.s) == UsedBuffers(y.s);
  }

  lemma GetSafe(y: Sys, t: int)
    requires Safe(y) && Enabled(y, Go(t)) && LinksInPlace(y, Go(t)) && InBounds(y, t)
    requires var pc := y.pcs[t];
             pc.GetCheck? || pc.GetWait? || pc.GetRecheck? || pc.GetScan? || pc.GetLink? || pc.GetCount?
    ensures Safe(Advance(y, t))
  {
    var pc := y.pcs[t];
    assert ArgOk(y, pc);
    match pc
    case GetCheck(p) => Outside(y, t, if y.s.pieces[p].bi != -1 then Fill(p) else GetWait(p));
    case GetWait(p) => Acquire(y, t, GetRecheck(p));
    case GetRecheck(p) => PlainStep(y, t, if y.s.pieces[p].bi != -1 then Leave(p) else GetScan(p, 0));
    case GetScan(p, i) =>
      assert Owner(y) == pc;
      if i >= y.s.bufferSize {
        PlainStep(y, t, Leave(-1));
      } else if y.s.buffers[i].used {
        PlainStep(y, t, GetScan(p, i + 1));
      } else {
        MarkStep(y, t);
      }
    case GetLink(p, i) => LinkStep(y, t);
    case GetCount(p) => CountStep(y, t);
  }

  lemma TrimSafe(y: Sys, t: int)
    requires Safe(y) && Enabled(y, Go(t)) && InBounds(y, t)
    requires var pc := y.pcs[t];
             pc.TrimCheck? || pc.TrimWait? || pc.TrimGuard? || pc.TrimReset? || pc.TrimCount? || pc.TrimUnlink?
    ensures Safe(Advance(y, t))
  {
    match y.pcs[t]
    case TrimCheck(keep) =>
      Outside(y, t, if y.s.capacity < 0 || y.s.bufferUsed < y.s.bufferLimit then Idle else TrimWait(keep));
    case TrimWait(keep) => Acquire(y, t, TrimGuard(keep));
    case TrimGuard(keep) =>
      if y.s.bufferUsed < y.s.bufferLimit { PlainStep(y, t, Leave(-1)); }
    case TrimReset(keep, b) => ResetStep(y, t);
    case TrimCount(keep, pi) => CountStep(y, t);
    case TrimUnlink(keep, pi) => UnlinkStep(y, t);
  }

  lemma SizeSafe(y: Sys, t: int)
    requires Safe(y) && Enabled(y, Go(t)) && InBounds(y, t)
    requires var pc := y.pcs[t]; pc.SizeCheck? || pc.SizeWait? || pc.SizeApply? || pc.SizePush? || pc.Leave?
    ensures Safe(Advance(y, t))
  {
    assert ArgOk(y, y.pcs[t]);
    match y.pcs[t]
    case SizeCheck(m) => Outside(y, t, if m <= y.s.capacity then Idle else SizeWait(m));
    case SizeWait(m) => Acquire(y, t, SizeApply(m));
    case SizeApply(m) => ApplyStep(y, t);
    case SizePush(prev) => PushStep(y, t);
    case Leave(_) => Release(y, t);
  }

  lemma GoSafe(y: Sys, t: int)
    requires Safe(y) && Enabled(y, Go(t)) && LinksInPlace(y, Go(t)) && InBounds(y, t)
    ensures Safe(Advance(y, t))
  {
    var pc := y.pcs[t];
    if pc.TrimCheck? || pc.TrimWait? || pc.TrimGuard? || pc.TrimReset? || pc.TrimCount? || pc.TrimUnlink? {
      TrimSafe(y, t);
    } else if pc.SizeCheck? || pc.SizeWait? || pc.SizeApply? || pc.SizePush? || pc.Leave? {
      SizeSafe(y, t);
    } else if pc.Add? {
      AddStep(y, t);
    } else {
      GetSafe(y, t);
    }
  }

  lemma DoSafe(y: Sys, mv: Move)
    requires Safe(y) && Enabled(y, mv) && LinksInPlace(y, mv)
    ensures (mv.Go? ==> InBounds(y, mv.t)) && Safe(Do(y, mv))
  {
    match mv
    case Call(t, pc) => Outside(y, t, pc);
    case Go(t) =>
      SafeInBounds(y, t);
      GoSafe(y, t);
    case Refuse(t) =>
      PlainStep(y, t, Leave(-1));
    case Load(t, n) => Outside(y, t, Add(y.pcs[t].p, y.s.pieces[y.pcs[t].p].size, n));
    case Choose(t, b) =>
      assert BufferLinked(y, b);
      PlainStep(y, t, TrimReset(y.pcs[t].keep, y.s.buffers[b].index));
    case SetReserved(reserved) =>
      var y' := Do(y, mv);
      forall u | 0 <= u < |y'.pcs| ensures ArgOk(y', y'.pcs[u]) {
        assert ArgOk(y, y.pcs[u]);
      }
      InsideUntouched(y, y');
  }

  // ----- Positions and indices -----

  ghost predicate Indexed(s: State) {
    forall b :: 0 <= b < |s.buffers| ==> s.buffers[b].index == b
  }

  /**
   * A set_memory_size that appends buffers does so at the end of the vector.  It takes the old
   * buffer_size for the number of buffers there are.
   */
  ghost predicate InPlace(y: Sys, mv: Move) {
    mv.Go? && 0 <= mv.t < |y.pcs| && y.pcs[mv.t].SizePush? && y.pcs[mv.t].prev < y.s.bufferSize ==>
      y.pcs[mv.t].prev == |y.s.buffers|
  }

  /** Appending anywhere but at the end gives a buffer an index that is not its position. */
  lemma PushOutOfPlace(y: Sys, t: int)
    requires Safe(y) && 0 <= t < |y.pcs| && InBounds(y, t) && !InPlace(y, Go(t))
    ensures !Indexed(Advance(y, t).s)
  {
    assert Locked(y.pcs[t]) && Owner(y) == y.pcs[t];
    var n := |y.s.buffers|;
    assert Advance(y, t).s.buffers[n].index == y.pcs[t].prev != n;
  }

  lemma IndexedStep(y: Sys, mv: Move)
    requires Safe(y) && Indexed(y.s) && Enabled(y, mv) && (mv.Go? ==> InBounds(y, mv.t)) && InPlace(y, mv)
    ensures Indexed(Do(y, mv).s) && LinksInPlace(y, mv)
  {
  }

  // ----- What a call does as a whole -----

  /** The locked part of set_memory_size(m) as a whole. */
  function Grown(s: State, m: int): State
    requires s.pieceLength > 0
  {
    var n := PoolSize(m, s.pieceLength, |s.pieces|);
    s.(capacity := m, bufferSize := n, bufferLimit := n,
       buffers := if n <= s.bufferSize || s.bufferSize < 0 then s.buffers
                  else s.buffers + FreshBuffers(s.bufferSize, n, s.pieceLength))
  }

  /** What get_buffer does after it has marked position `i` for `p`. */
  function Assigned(s: State, p: int, i: int): State
    requires 0 <= p < |s.pieces| && 0 <= i < |s.buffers|
  {
    var s1 := s.(pieces := s.pieces[p := s.pieces[p].(bi := s.buffers[i].index)]);
    if s.pieces[p].index in s.reserved then s1.(bufferLimit := s.bufferLimit - 1)
    else s1.(bufferUsed := s.bufferUsed + 1)
  }

  /** What get_buffer does to the tables and counters when it gives position `i` to `p`. */
  function Taken(s: State, p: int, i: int): State
    requires 0 <= p < |s.pieces| && 0 <= i < |s.buffers|
  {
    Assigned(MarkUsed(s, p, i), p, i)
  }

  /** What an iteration of trim that evicts position `b` does to the tables and the counter. */
  function Freed(s: State, b: int): State
    requires 0 <= b < |s.buffers| && 0 <= s.buffers[b].pi < |s.pieces|
  {
    var p := s.buffers[b].pi;
    s.(buffers := s.buffers[b := s.buffers[b].(used := false, pi := -1)],
       bufferUsed := s.bufferUsed - 1,
       pieces := s.pieces[p := s.pieces[p].(bi := -1, size := 0)])
  }

  function Added(s: State, p: int, n: nat): State
    requires 0 <= p < |s.pieces|
  {
    s.(pieces := s.pieces[p := s.pieces[p].(size := s.pieces[p].size + n)])
  }
}
