// What the locked part of a call does and answers when other threads run: exactly what the
// operation of module Model does to the tables and counters that it found on entry.
module Answers {
  import opened Bytes
  import opened Model
  import opened Trimming
  import opened Threads
  import opened Interleaving
  import opened Sections

  /**
   * The same but for the byte counters, which change outside m_mutex, for the reserved set,
   * and for what the thread model leaves out (bytes, access times, libtorrent's record).
   */
  ghost predicate Alike(a: State, b: State) {
    && b.pieceLength == a.pieceLength && b.capacity == a.capacity
    && b.bufferSize == a.bufferSize && b.bufferLimit == a.bufferLimit && b.bufferUsed == a.bufferUsed
    && |b.pieces| == |a.pieces| && |b.buffers| == |a.buffers|
    && (forall p :: 0 <= p < |a.pieces| ==> b.pieces[p].index == a.pieces[p].index && b.pieces[p].bi == a.pieces[p].bi)
    && (forall i :: 0 <= i < |a.buffers| ==> SameUse(a.buffers[i], b.buffers[i]))
  }

  predicate SameUse(a: Buffer, b: Buffer) {
    b.index == a.index && b.pi == a.pi && b.used == a.used
  }

  /** A locked section: the call it is part of, what it found on entry, and what has happened in it since. */
  datatype Section = Section(
    pc: PC,                  // where its thread waited for m_mutex
    s: State,                // the state on entry
    refused: bool,           // the reader gate has turned the piece away
    reserved: set<int>,      // the reserved set when an admission was counted
    victims: seq<int>)       // the positions chosen to be evicted

  function Follow(y: Sys, mv: Move, sec: Section): Section {
    match mv
    case Refuse(_) => sec.(refused := true)
    case Choose(_, b) => sec.(victims := sec.victims + [b])
    case Go(t) =>
      if !(0 <= t < |y.pcs|) then sec
      else if Acquires(y.pcs[t]) then Section(y.pcs[t], y.s, false, {}, [])
      else if y.pcs[t].GetCount? then sec.(reserved := y.s.reserved)
      else sec
    case _ => sec
  }

  ghost predicate AllUsed(s: State) {
    forall i :: 0 <= i < s.bufferSize && i < |s.buffers| ==> s.buffers[i].used
  }

  /** get_buffer turns `p` away: it has no buffer, and the gate is closed or every buffer is used. */
  ghost predicate TurnedAway(sec: Section, p: int) {
    0 <= p < |sec.s.pieces| && sec.s.pieces[p].bi == -1 && (sec.refused || AllUsed(sec.s))
  }

  /** The buffers at these positions taken away from their pieces, one after the other. */
  ghost function Emptied(s: State, victims: seq<int>): State
    decreases |victims|
  {
    if victims == [] then s else
      var s1, b := Emptied(s, victims[..|victims| - 1]), victims[|victims| - 1];
      if Occupied(s1, b) then Model.Detach(s1, b) else s1
  }

  predicate Occupied(s: State, b: int) {
    0 <= b < |s.buffers| && 0 <= s.buffers[b].pi < |s.pieces|
  }

  /** A section that found its tables well sized. */
  ghost predicate SectionBase(sec: Section) {
    && 0 <= sec.s.bufferSize <= |sec.s.buffers| && sec.s.pieceLength > 0
    && (sec.pc.GetWait? ==> 0 <= sec.pc.p < |sec.s.pieces|)
    && (sec.pc.GetWait? || sec.pc.TrimWait? || sec.pc.SizeWait?)
  }

  /** The tables and counters that the operation of the section makes of those it found. */
  ghost function Outcome(sec: Section): State
    requires SectionBase(sec)
  {
    match sec.pc
    case GetWait(p) =>
      var i := FirstFree(sec.s, 0);
      if sec.s.pieces[p].bi != -1 || TurnedAway(sec, p) || i == -1 then sec.s
      else Model.Assign(sec.s.(reserved := sec.reserved), p, i)
    case TrimWait(_) => Emptied(sec.s, sec.victims)
    case SizeWait(m) => Grown(sec.s, m)
    case _ => sec.s
  }

  /** What a section has done, and what its call answers, when its thread `t` has released m_mutex. */
  ghost predicate Answered(sec: Section, y: Sys, t: int)
    requires 0 <= t < |y.pcs|
  {
    && SectionBase(sec) && Alike(Outcome(sec), y.s)
    && match sec.pc
       case GetWait(p) =>
         && |y.s.pieces| == |sec.s.pieces|
         && (y.pcs[t] == Fill(p) || y.pcs[t] == Idle)
         && (y.pcs[t] == Fill(p) <==> y.s.pieces[p].bi != -1)
         && (y.pcs[t] == Idle <==> TurnedAway(sec, p))
       case TrimWait(keep) => y.pcs[t] == Idle && y.s.bufferUsed < y.s.bufferLimit
       case _ => y.pcs[t] == Idle
  }

  predicate Releases(y: Sys, mv: Move) {
    mv.Go? && 0 <= mv.t < |y.pcs| && y.pcs[mv.t].Leave?
  }

  /** Every locked section of the run that ends does what its operation does. */
  ghost predicate AllAnswered(y: Sys, mvs: seq<Move>, sec: Section)
    requires Playable(y, mvs)
    decreases |mvs|
  {
    mvs != [] ==>
      && (Releases(y, mvs[0]) ==> mvs[0].t < |Do(y, mvs[0]).pcs| && Answered(sec, Do(y, mvs[0]), mvs[0].t))
      && AllAnswered(Do(y, mvs[0]), mvs[1..], Follow(y, mvs[0], sec))
  }

  // ----- Inside a section -----

  /** The victims but for the last, and the last. */
  function Before(victims: seq<int>): seq<int> {
    if victims == [] then [] else victims[..|victims| - 1]
  }

  function Last(victims: seq<int>): int {
    if victims == [] then -1 else victims[|victims| - 1]
  }

  /** The thread at `pc` is where its section can have got to. */
  ghost predicate Reached(sec: Section, pc: PC)
    requires SectionBase(sec)
  {
    var free := FirstFree(sec.s, 0);
    var s1, last := Emptied(sec.s, Before(sec.victims)), Last(sec.victims);
    match pc
    case GetRecheck(p) => sec.pc == GetWait(p) && !sec.refused
    case GetScan(p, i) =>
      sec.pc == GetWait(p) && !sec.refused && sec.s.pieces[p].bi == -1 && i >= 0 && FirstFree(sec.s, i) == free
    case GetLink(p, i) => sec.pc == GetWait(p) && !sec.refused && sec.s.pieces[p].bi == -1 && i == free != -1
    case GetCount(p) => sec.pc == GetWait(p) && !sec.refused && sec.s.pieces[p].bi == -1 && free != -1
    case TrimGuard(keep) => sec.pc == TrimWait(keep)
    case TrimReset(keep, b) => sec.pc == TrimWait(keep) && sec.victims != [] && b == last && Occupied(s1, b)
    case TrimCount(keep, pi) =>
      sec.pc == TrimWait(keep) && sec.victims != [] && Occupied(s1, last) && pi == s1.buffers[last].pi
    case TrimUnlink(keep, pi) =>
      sec.pc == TrimWait(keep) && sec.victims != [] && Occupied(s1, last) && pi == s1.buffers[last].pi
    case SizeApply(m) => sec.pc == SizeWait(m)
    case SizePush(prev) => sec.pc.SizeWait? && prev == sec.s.bufferSize
    case Leave(q) =>
      && (sec.pc.GetWait? ==> (q == sec.pc.p || q == -1) && (q == -1 <==> TurnedAway(sec, sec.pc.p)))
      && (!sec.pc.GetWait? ==> q == -1)
      && (sec.pc.TrimWait? ==> Outcome(sec).bufferUsed < Outcome(sec).bufferLimit)
    case _ => false
  }

  ghost function HalfEmptied(s: State, b: int, k: int): State
    requires Occupied(s, b)
  {
    s.(buffers := s.buffers[b := s.buffers[b].(used := false, pi := -1)], bufferUsed := s.bufferUsed - k)
  }

  /** Position `i` marked and linked, but not yet counted. */
  ghost function Uncounted(s: State, p: int, i: int): State
    requires 0 <= p < |s.pieces| && 0 <= i < |s.buffers|
  {
    MarkUsed(s, p, i).(pieces := s.pieces[p := s.pieces[p].(bi := s.buffers[i].index)])
  }

  /** And the tables and counters it has made of those it found. */
  ghost function SoFar(sec: Section, pc: PC): State
    requires SectionBase(sec) && Reached(sec, pc)
  {
    match pc
    case GetLink(p, i) => MarkUsed(sec.s, p, i)
    case GetCount(p) => Uncounted(sec.s, p, FirstFree(sec.s, 0))
    case TrimGuard(_) => Emptied(sec.s, sec.victims)
    case TrimReset(_, _) => Emptied(sec.s, Before(sec.victims))
    case TrimCount(_, _) => HalfEmptied(Emptied(sec.s, Before(sec.victims)), Last(sec.victims), 0)
    case TrimUnlink(_, _) => HalfEmptied(Emptied(sec.s, Before(sec.victims)), Last(sec.victims), 1)
    case SizePush(_) =>
      var n := PoolSize(sec.pc.m, sec.s.pieceLength, |sec.s.pieces|);
      sec.s.(capacity := sec.pc.m, bufferSize := n, bufferLimit := n)
    case Leave(_) => Outcome(sec)
    case _ => sec.s
  }

  ghost predicate Within(sec: Section, pc: PC, s: State) {
    SectionBase(sec) && Reached(sec, pc) && Alike(SoFar(sec, pc), s)
  }

  ghost predicate SectionOk(y: Sys, sec: Section) {
    y.lock != -1 ==> Within(sec, Owner(y), y.s)
  }

  // ----- Steps -----

  lemma AlikeChain(a: State, b: State, c: State)
    requires Alike(a, b) && Alike(b, c)
    ensures Alike(a, c)
  {
    forall i | 0 <= i < |a.buffers| ensures SameUse(a.buffers[i], c.buffers[i]) {
      assert SameUse(a.buffers[i], b.buffers[i]) && SameUse(b.buffers[i], c.buffers[i]);
    }
  }

  /** A move that leaves the thread inside m_mutex, and all that it relies on, alone. */
  lemma OutsideIsAlike(y: Sys, mv: Move)
    requires Safe(y) && Enabled(y, mv) && (mv.Go? ==> InBounds(y, mv.t))
    requires mv.SetReserved? || (mv.t != y.lock && !(mv.Go? && Acquires(y.pcs[mv.t])))
    ensures var y' := Do(y, mv); Alike(y.s, y'.s) && y'.lock == y.lock && Owner(y') == Owner(y)
  {
    if !mv.SetReserved? {
      assert Locked(y.pcs[mv.t]) <==> mv.t == y.lock;
    }
  }

  lemma OthersKeepSection(y: Sys, mv: Move, sec: Section)
    requires Safe(y) && SectionOk(y, sec) && Enabled(y, mv) && (mv.Go? ==> InBounds(y, mv.t))
    requires mv.SetReserved? || (mv.t != y.lock && !(mv.Go? && Acquires(y.pcs[mv.t])))
    ensures SectionOk(Do(y, mv), Follow(y, mv, sec))
  {
    OutsideIsAlike(y, mv);
    if !mv.SetReserved? {
      assert Locked(y.pcs[mv.t]) <==> mv.t == y.lock;
    }
    assert Follow(y, mv, sec) == sec;
    if y.lock != -1 {
      AlikeChain(SoFar(sec, Owner(y)), y.s, Do(y, mv).s);
    }
  }

  /** The thread inside m_mutex is at `pc`, in a section that has got there. */
  ghost predicate Inside(y: Sys, t: int, sec: Section) {
    && 0 <= t < |y.pcs| && t == y.lock && InBounds(y, t) && ArgOk(y, y.pcs[t])
    && Within(sec, y.pcs[t], y.s)
  }

  lemma RecheckSection(y: Sys, t: int, sec: Section)
    requires Inside(y, t, sec) && y.pcs[t].GetRecheck?
    ensures Within(Follow(y, Go(t), sec), Advance(y, t).pcs[t], Advance(y, t).s)
  {
  }

  lemma RefuseSection(y: Sys, t: int, sec: Section)
    requires Inside(y, t, sec) && y.pcs[t].GetRecheck? && Enabled(y, Refuse(t))
    ensures Within(Follow(y, Refuse(t), sec), Do(y, Refuse(t)).pcs[t], Do(y, Refuse(t)).s)
  {
  }

  lemma ScanSection(y: Sys, t: int, sec: Section)
    requires Inside(y, t, sec) && y.pcs[t].GetScan?
    ensures Within(Follow(y, Go(t), sec), Advance(y, t).pcs[t], Advance(y, t).s)
  {
    var p, i := y.pcs[t].p, y.pcs[t].i;
    if i < y.s.bufferSize {
      assert SameUse(sec.s.buffers[i], y.s.buffers[i]);
    } else {
      FirstFreeIsFree(sec.s, 0);
    }
  }

  lemma LinkSection(y: Sys, t: int, sec: Section)
    requires Inside(y, t, sec) && y.pcs[t].GetLink?
    ensures Within(Follow(y, Go(t), sec), Advance(y, t).pcs[t], Advance(y, t).s)
  {
    var s1 := MarkUsed(sec.s, y.pcs[t].p, y.pcs[t].i);
    assert SameUse(s1.buffers[y.pcs[t].i], y.s.buffers[y.pcs[t].i]);
  }

  /** The count completes the admission. */
  lemma CountedIsAssigned(s: State, p: int, i: int, c: State, reserved: set<int>)
    requires 0 <= p < |s.pieces| && 0 <= i < |s.buffers| && Alike(Uncounted(s, p, i), c)
    ensures Alike(Model.Assign(s.(reserved := reserved), p, i),
                  if c.pieces[p].index in reserved then c.(bufferLimit := c.bufferLimit - 1)
                  else c.(bufferUsed := c.bufferUsed + 1))
  {
    forall k | 0 <= k < |s.buffers| ensures SameUse(Model.Assign(s, p, i).buffers[k], c.buffers[k]) {
      assert SameUse(Uncounted(s, p, i).buffers[k], c.buffers[k]);
    }
  }

  lemma CountSection(y: Sys, t: int, sec: Section)
    requires Inside(y, t, sec) && y.pcs[t].GetCount?
    ensures Within(Follow(y, Go(t), sec), Advance(y, t).pcs[t], Advance(y, t).s)
  {
    FirstFreeIsFree(sec.s, 0);
    CountedIsAssigned(sec.s, y.pcs[t].p, FirstFree(sec.s, 0), y.s, y.s.reserved);
  }

  lemma GuardSection(y: Sys, t: int, sec: Section)
    requires Inside(y, t, sec) && y.pcs[t].TrimGuard?
    ensures Within(Follow(y, Go(t), sec), Advance(y, t).pcs[t], Advance(y, t).s)
  {
  }

  lemma ChooseSection(y: Sys, t: int, b: int, sec: Section)
    requires Safe(y) && Inside(y, t, sec) && Enabled(y, Choose(t, b))
    ensures Within(Follow(y, Choose(t, b), sec), Do(y, Choose(t, b)).pcs[t], Do(y, Choose(t, b)).s)
  {
    assert Before(sec.victims + [b]) == sec.victims;
    assert BufferLinked(y, b) && Owner(y) == y.pcs[t];
    assert SameUse(Emptied(sec.s, sec.victims).buffers[b], y.s.buffers[b]);
  }

  lemma ResetSection(y: Sys, t: int, sec: Section)
    requires Inside(y, t, sec) && y.pcs[t].TrimReset?
    ensures Within(Follow(y, Go(t), sec), Advance(y, t).pcs[t], Advance(y, t).s)
  {
    var s1, b := Emptied(sec.s, Before(sec.victims)), Last(sec.victims);
    assert SameUse(s1.buffers[b], y.s.buffers[b]);
  }

  lemma UncountSection(y: Sys, t: int, sec: Section)
    requires Inside(y, t, sec) && y.pcs[t].TrimCount?
    ensures Within(Follow(y, Go(t), sec), Advance(y, t).pcs[t], Advance(y, t).s)
  {
  }

  lemma UnlinkSection(y: Sys, t: int, sec: Section)
    requires Inside(y, t, sec) && y.pcs[t].TrimUnlink?
    ensures Within(Follow(y, Go(t), sec), Advance(y, t).pcs[t], Advance(y, t).s)
  {
    var s1, b := Emptied(sec.s, Before(sec.victims)), Last(sec.victims);
    assert Emptied(sec.s, sec.victims) == Model.Detach(s1, b);
  }

  lemma ApplySection(y: Sys, t: int, sec: Section)
    requires Inside(y, t, sec) && y.pcs[t].SizeApply?
    ensures Within(Follow(y, Go(t), sec), Advance(y, t).pcs[t], Advance(y, t).s)
  {
  }

  lemma PushSection(y: Sys, t: int, sec: Section)
    requires Inside(y, t, sec) && y.pcs[t].SizePush?
    ensures Within(Follow(y, Go(t), sec), Advance(y, t).pcs[t], Advance(y, t).s)
  {
  }

  lemma EnterSection(y: Sys, t: int, sec: Section)
    requires Safe(y) && Enabled(y, Go(t)) && InBounds(y, t) && Acquires(y.pcs[t])
    ensures Within(Follow(y, Go(t), sec), Advance(y, t).pcs[t], Advance(y, t).s)
  {
    assert ArgOk(y, y.pcs[t]);
  }

  lemma LeaveSection(y: Sys, t: int, sec: Section)
    requires Safe(y) && Inside(y, t, sec) && y.pcs[t].Leave?
    ensures Answered(sec, Advance(y, t), t)
  {
    assert Owner(y) == y.pcs[t];
  }

  lemma GoInside(y: Sys, t: int, sec: Section)
    requires Safe(y) && Inside(y, t, sec) && Locked(y.pcs[t]) && Enabled(y, Go(t)) && !y.pcs[t].Leave?
    ensures Within(Follow(y, Go(t), sec), Advance(y, t).pcs[t], Advance(y, t).s)
  {
    match y.pcs[t]
    case GetRecheck(_) => RecheckSection(y, t, sec);
    case GetScan(_, _) => ScanSection(y, t, sec);
    case GetLink(_, _) => LinkSection(y, t, sec);
    case GetCount(_) => CountSection(y, t, sec);
    case TrimGuard(_) => GuardSection(y, t, sec);
    case TrimReset(_, _) => ResetSection(y, t, sec);
    case TrimCount(_, _) => UncountSection(y, t, sec);
    case TrimUnlink(_, _) => UnlinkSection(y, t, sec);
    case SizeApply(_) => ApplySection(y, t, sec);
    case SizePush(_) => PushSection(y, t, sec);
  }

  lemma OwnerStep(y: Sys, mv: Move, sec: Section)
    requires Safe(y) && Enabled(y, mv) && (mv.Go? ==> InBounds(y, mv.t))
    requires !mv.SetReserved? && Inside(y, mv.t, sec) && Locked(y.pcs[mv.t]) && !Releases(y, mv)
    ensures Within(Follow(y, mv, sec), Do(y, mv).pcs[mv.t], Do(y, mv).s)
  {
    if mv.Refuse? {
      RefuseSection(y, mv.t, sec);
    } else if mv.Choose? {
      ChooseSection(y, mv.t, mv.b, sec);
    } else {
      GoInside(y, mv.t, sec);
    }
  }

  lemma OwnerStays(y: Sys, mv: Move)
    requires Safe(y) && Enabled(y, mv) && (mv.Go? ==> InBounds(y, mv.t)) && !mv.SetReserved?
    requires (mv.Go? && Acquires(y.pcs[mv.t])) || mv.t == y.lock
    ensures var y' := Do(y, mv); Releases(y, mv) || (y'.lock == mv.t && Owner(y') == y'.pcs[mv.t])
    ensures !(mv.Go? && Acquires(y.pcs[mv.t])) ==> Owner(y) == y.pcs[mv.t] && Locked(y.pcs[mv.t]) && InBounds(y, mv.t)
  {
    assert Locked(y.pcs[mv.t]) <==> mv.t == y.lock;
    SafeInBounds(y, mv.t);
  }

  lemma SectionStep(y: Sys, mv: Move, sec: Section)
    requires Safe(y) && SectionOk(y, sec) && Enabled(y, mv) && (mv.Go? ==> InBounds(y, mv.t))
    ensures SectionOk(Do(y, mv), Follow(y, mv, sec))
    ensures Releases(y, mv) ==> mv.t < |Do(y, mv).pcs| && Answered(sec, Do(y, mv), mv.t)
  {
    if mv.SetReserved? || (mv.t != y.lock && !(mv.Go? && Acquires(y.pcs[mv.t]))) {
      OthersKeepSection(y, mv, sec);
    } else {
      OwnerStays(y, mv);
      assert ArgOk(y, y.pcs[mv.t]);
      if mv.Go? && Acquires(y.pcs[mv.t]) {
        EnterSection(y, mv.t, sec);
      } else if Releases(y, mv) {
        LeaveSection(y, mv.t, sec);
      } else {
        OwnerStep(y, mv, sec);
      }
    }
  }

  lemma {:induction false} SectionsAnswer(y: Sys, mvs: seq<Move>, sec: Section)
    requires Safe(y) && SectionOk(y, sec) && Playable(y, mvs) && AllLinksInPlace(y, mvs)
    ensures AllAnswered(y, mvs, sec)
    decreases |mvs|
  {
    if mvs == [] {
    } else {
      SectionStep(y, mvs[0], sec);
      DoSafe(y, mvs[0]);
      SectionsAnswer(Do(y, mvs[0]), mvs[1..], Follow(y, mvs[0], sec));
    }
  }

  // ----- How many victims -----

  /** The section of trim has, or should have, a victim. */
  ghost predicate NeedsVictim(y: Sys, sec: Section) {
    y.drift == 0 && Full(sec.s)
  }

  ghost predicate VictimsOk(y: Sys, sec: Section) {
    y.lock != -1 && sec.pc.TrimWait? ==>
      && Sated(y, |sec.victims|)
      && (sec.victims != [] ==> NeedsVictim(y, sec))
      && (Owner(y).Leave? && sec.victims == [] ==> !NeedsVictim(y, sec))
  }

  /** Every section of trim that ends has evicted one piece if it found the pool full and no drift, else none. */
  ghost predicate AllEvictRight(y: Sys, mvs: seq<Move>, sec: Section)
    requires Playable(y, mvs)
    decreases |mvs|
  {
    mvs != [] ==>
      && (Releases(y, mvs[0]) && sec.pc.TrimWait? ==> |sec.victims| == if NeedsVictim(y, sec) then 1 else 0)
      && AllEvictRight(Do(y, mvs[0]), mvs[1..], Follow(y, mvs[0], sec))
  }

  lemma AlikeFull(a: State, b: State)
    requires Alike(a, b)
    ensures Full(a) <==> Full(b)
  {
    forall i | 0 <= i < |a.buffers| ensures InUse(a, i) <==> InUse(b, i) {
      assert SameUse(a.buffers[i], b.buffers[i]);
    }
  }

  /** The loop is left, or a victim chosen, as the pool found on entry asks for. */
  lemma GuardRight(y: Sys, mv: Move, sec: Section)
    requires Measured(y) && SectionOk(y, sec) && VictimsOk(y, sec) && Enabled(y, mv) && (mv.Go? ==> InBounds(y, mv.t))
    requires !mv.SetReserved? && mv.t == y.lock && y.pcs[mv.t].TrimGuard?
    ensures VictimsOk(Do(y, mv), Follow(y, mv, sec))
  {
    assert Owner(y) == y.pcs[mv.t];
    GuardExactly(y);
    SatedStep(y, mv, |sec.victims|);
    if sec.victims == [] {
      AlikeFull(sec.s, y.s);
    }
  }

  lemma VictimsStep(y: Sys, mv: Move, sec: Section)
    requires Measured(y) && SectionOk(y, sec) && VictimsOk(y, sec) && Enabled(y, mv) && (mv.Go? ==> InBounds(y, mv.t))
    ensures VictimsOk(Do(y, mv), Follow(y, mv, sec))
    ensures Releases(y, mv) && sec.pc.TrimWait? ==> |sec.victims| == if NeedsVictim(y, sec) then 1 else 0
  {
    if mv.SetReserved? {
      assert Owner(Do(y, mv)) == Owner(y);
    } else {
      assert Locked(y.pcs[mv.t]) <==> mv.t == y.lock;
      if mv.t == y.lock && y.pcs[mv.t].TrimGuard? {
        GuardRight(y, mv, sec);
      } else if mv.t == y.lock || (mv.Go? && Acquires(y.pcs[mv.t])) {
        assert mv.t == y.lock ==> Owner(y) == y.pcs[mv.t];
      } else {
        OutsideIsAlike(y, mv);
      }
    }
  }

  lemma {:induction false} SectionsEvict(y: Sys, mvs: seq<Move>, sec: Section)
    requires Measured(y) && SectionOk(y, sec) && VictimsOk(y, sec) && Playable(y, mvs) && Serialized(y, mvs)
    ensures AllEvictRight(y, mvs, sec)
    decreases |mvs|
  {
    if mvs == [] {
    } else {
      MeasuredStep(y, mvs[0]);
      SectionStep(y, mvs[0], sec);
      VictimsStep(y, mvs[0], sec);
      SectionsEvict(Do(y, mvs[0]), mvs[1..], Follow(y, mvs[0], sec));
    }
  }

  // ----- From a new storage -----

  /**
   * In every run of a new storage with sound tables, each locked section that ends has done to
   * the tables and counters what its operation of module Model does, and answers what it
   * answers; and with one set_memory_size at a time trim evicts in it as it should.
   */
  lemma SectionsAreOperations(capacity: int, pieceLength: int, lengths: seq<int>, picker: Picker,
                              threads: nat, mvs: seq<Move>, sec: Section)
    requires Metadata(capacity, pieceLength, lengths, picker)
    requires Playable(Start(Init(capacity, pieceLength, lengths, picker), threads), mvs)
    ensures var y := Start(Init(capacity, pieceLength, lengths, picker), threads);
            && (TablesAlwaysSound(y, mvs) ==> AllAnswered(y, mvs, sec))
            && (Serialized(y, mvs) ==> AllEvictRight(y, mvs, sec))
  {
    var y := Start(Init(capacity, pieceLength, lengths, picker), threads);
    StartSafe(capacity, pieceLength, lengths, picker, threads);
    TablesExactly(y, mvs);
    if TablesAlwaysSound(y, mvs) {
      SectionsAnswer(y, mvs, sec);
    }
    if Serialized(y, mvs) {
      SectionsEvict(y, mvs, sec);
    }
  }
}
