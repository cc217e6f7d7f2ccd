// The storage with everything inside it forgotten: a least-recently-used cache of write logs that
// answers each operation from what its callers and libtorrent have told it.  Unlike the cache
// of module Ledger it is handed nothing by the storage, and it leaves nothing open.
module Lru {
  import opened Bytes
  import opened Model
  import opened Trimming
  import opened Effects
  import opened Runs
  import opened Ledger
  import opened Segments
  import opened EvictionOrder

  datatype LruCache = LruCache(
    cache: Cache,            // the pieces in it, each the log of its writes
    capacity: int,           // the largest budget asked for
    reserved: set<int>,      // the reserved set last given
    reading: bool,           // whether read has been called
    hasHandle: bool,
    hasTorrent: bool,
    picker: Picker,          // libtorrent's record
    pending: int,            // reserved pieces let in since the budget last grew
    forgotten: int,          // and before that
    last: map<int, int>,     // the operation that last touched each piece
    now: int)                // the number of operations so far

  ghost predicate LruOk(x: LruCache) {
    CacheOk(x.cache) && x.cache.pieceLength > 0 && |x.picker.prio| == |x.cache.lengths|
  }

  ghost predicate LruLegal(x: LruCache, op: Op) {
    && CacheLegal(x.cache, op)
    && (op.Reserve? ==> forall i :: i in op.list ==> 0 <= i < |x.cache.lengths| + BITSET_SLACK)
    && (op.MarkHave? || op.SetPrio? ==> 0 <= op.p < |x.cache.lengths|)
  }

  // ----- What it decides -----

  ghost function Slots(x: LruCache): int
    requires LruOk(x)
  {
    PoolSize(x.capacity, x.cache.pieceLength, |x.cache.lengths|)
  }

  ghost predicate Wanted(x: LruCache, p: int) {
    x.hasHandle && 0 <= p < |x.picker.prio| ==> x.picker.prio[p] != 0
  }

  /** The terms on which it decides, all its own. */
  ghost function OwnTerms(x: LruCache, op: Op): Terms
    requires LruOk(x)
  {
    Terms(Slots(x), op.Write? ==> !x.reading || Wanted(x, op.p), x.forgotten == 0, x.reserved)
  }

  ghost predicate LetsIn(x: LruCache, op: Op)
    requires LruOk(x)
  {
    op.Write? && (op.p in x.cache.log || (OwnTerms(x, op).gate && |x.cache.log.Keys| < Slots(x)))
  }

  /** The write takes the last place, and the cache still makes room when it is full. */
  ghost predicate MakesRoom(x: LruCache, op: Op)
    requires LruOk(x)
  {
    LetsIn(x, op) && x.forgotten == 0 && |x.cache.log.Keys + {op.p}| == Slots(x)
  }

  ghost predicate MayGo(x: LruCache, p: int, v: int) {
    v in x.cache.log && v != p && v !in x.reserved
  }

  ghost function LastTouched(x: LruCache, p: int): int {
    if p in x.last then x.last[p] else -1
  }

  /** Pieces that are not wanted go first, and then those touched longest ago. */
  ghost predicate GoesFirst(x: LruCache, v: int, q: int) {
    if Wanted(x, v) == Wanted(x, q) then LastTouched(x, v) < LastTouched(x, q) else Wanted(x, q)
  }

  ghost predicate IsVictim(x: LruCache, p: int, v: int) {
    MayGo(x, p, v) && forall q :: MayGo(x, p, q) && q != v ==> GoesFirst(x, v, q)
  }

  ghost function Losers(x: LruCache, op: Op): set<int>
    requires LruOk(x)
  {
    if MakesRoom(x, op) then set v | v in x.cache.log.Keys && IsVictim(x, op.p, v) else {}
  }

  ghost function Decision(x: LruCache, op: Op): Choice
    requires LruOk(x)
  {
    Choice(LetsIn(x, op), Losers(x, op))
  }

  ghost function Reply(x: LruCache, op: Op): Output
    requires LruOk(x) && LruLegal(x, op)
  {
    Answer(x.cache, OwnTerms(x, op), op, Decision(x, op))
  }

  // ----- What it becomes -----

  /** A read that gives nothing: the piece is not there, or its counter is short of its length. */
  ghost predicate ReadFails(x: LruCache, op: Op)
    requires LruLegal(x, op)
  {
    op.PlainRead? && (op.p !in x.cache.log || Written(x.cache.log[op.p]) < x.cache.lengths[op.p])
  }

  /** The pieces that libtorrent is told it does not have. */
  ghost function Disclaimed(x: LruCache, op: Op): set<int>
    requires LruOk(x) && LruLegal(x, op)
  {
    if op.Write? then Losers(x, op) + (if op.p !in x.cache.log && !OwnTerms(x, op).gate then {op.p} else {})
    else if ReadFails(x, op) then {op.p}
    else {}
  }

  ghost function Told(picker: Picker, gone: set<int>): Picker {
    Picker(picker.have - gone, seq(|picker.prio|, i requires 0 <= i < |picker.prio| =>
      if i in gone then 0 else picker.prio[i]))
  }

  ghost function NextPicker(x: LruCache, op: Op): Picker
    requires LruOk(x) && LruLegal(x, op)
  {
    if op.MarkHave? then x.picker.(have := x.picker.have + {op.p})
    else if op.SetPrio? then x.picker.(prio := x.picker.prio[op.p := op.v])
    else if x.hasHandle && x.hasTorrent then Told(x.picker, Disclaimed(x, op))
    else x.picker
  }

  ghost function Touched(x: LruCache, op: Op): set<int>
    requires LruOk(x) && LruLegal(x, op)
  {
    match op
    case Write(p, _, _) => if LetsIn(x, op) then {p} else {}
    case VectorRead(p, _, _) => if p in x.cache.log then {p} else {}
    case PlainRead(p, off, _) => if !ReadFails(x, op) && off < x.cache.pieceLength then {p} else {}
    case _ => {}
  }

  ghost predicate Grows(x: LruCache, op: Op) {
    op.Resize? && op.m > x.capacity
  }

  ghost function NextPending(x: LruCache, op: Op): int
    requires LruOk(x)
  {
    if Grows(x, op) then 0
    else if LetsIn(x, op) && op.p !in x.cache.log && op.p in x.reserved then x.pending + 1
    else x.pending
  }

  ghost function Next(x: LruCache, op: Op): (x': LruCache)
    requires LruOk(x) && LruLegal(x, op)
    ensures LruOk(x')
  {
    LruCache(
      CacheStep(x.cache, op, Decision(x, op)),
      if Grows(x, op) then op.m else x.capacity,
      if op.Reserve? then set i | i in op.list else x.reserved,
      x.reading || op.PlainRead?,
      x.hasHandle || op.SetHandle?,
      if op.SetHandle? then op.alive else x.hasTorrent,
      NextPicker(x, op),
      NextPending(x, op),
      if Grows(x, op) then x.forgotten + x.pending else x.forgotten,
      Stamp(x.last, Touched(x, op), x.now),
      x.now + 1)
  }

  // ----- The storage is that cache -----

  ghost predicate Matches(s: State, x: LruCache) {
    && Represents(s, x.cache) && x.cache.pieceLength > 0
    && s.capacity == x.capacity && s.reserved == x.reserved && s.isReading == x.reading
    && s.hasHandle == x.hasHandle && s.hasTorrent == x.hasTorrent && s.picker == x.picker
    && |x.picker.prio| == |x.cache.lengths|
    && s.bufferSize - s.bufferLimit == x.pending && Drift(s) == x.forgotten && x.forgotten >= 0
    && InStep(s, x.last, x.now)
  }

  lemma SameLegal(s: State, x: LruCache, op: Op)
    requires Inv(s) && Matches(s, x)
    ensures LruOk(x) && (Legal(s, op) <==> LruLegal(x, op))
  {
  }

  lemma SameTerms(s: State, x: LruCache, op: Op)
    requires Inv(s) && Matches(s, x) && Legal(s, op) && LruOk(x)
    ensures OwnTerms(x, op) == TermsOf(s, op)
  {
  }

  lemma OneVictim(x: LruCache, p: int, v: int, w: int)
    requires IsVictim(x, p, v) && IsVictim(x, p, w)
    ensures v == w
  {
  }

  /** The piece the storage evicts is the victim of the cache. */
  lemma EvictedIsVictim(s: State, x: LruCache, op: Op, v: int)
    requires Inv(s) && Matches(s, x) && Legal(s, op) && op.Write? && v in Evicted(s, op)
    ensures IsVictim(x, op.p, v)
  {
    VictimWasThere(s, op.p, op.off, op.bufs, v);
    assert v in Residents(s);
    forall q | MayGo(x, op.p, q) && q != v ensures GoesFirst(x, v, q) {
      assert q in Residents(s);
      EvictionByTime(s, op.p, op.off, op.bufs, v, q);
      assert SameOrder(s, x.last, v, q);
    }
  }

  lemma NoLosers(x: LruCache, op: Op)
    requires LruOk(x) && (MakesRoom(x, op) ==> x.cache.log.Keys - {op.p} <= x.reserved)
    ensures Losers(x, op) == {}
  {
    if MakesRoom(x, op) {
      forall v | v in x.cache.log.Keys ensures !IsVictim(x, op.p, v) {
        assert v != op.p ==> v in x.cache.log.Keys - {op.p};
      }
    }
  }

  lemma OneLoser(x: LruCache, op: Op, v: int)
    requires LruOk(x) && MakesRoom(x, op) && IsVictim(x, op.p, v)
    ensures Losers(x, op) == {v}
  {
    forall w | w in Losers(x, op) ensures w == v {
      OneVictim(x, op.p, v, w);
    }
    assert v in x.cache.log.Keys;
  }

  lemma OnlyMember(a: set<int>, v: int)
    requires v in a && |a| == 1
    ensures a == {v}
  {
    SubsetSize({v}, a);
  }

  lemma SameLosers(s: State, x: LruCache, op: Op)
    requires Inv(s) && Matches(s, x) && Legal(s, op) && LruOk(x) && op.Write?
    requires Fair(x.cache, OwnTerms(x, op), op, ChoiceOf(s, op))
    ensures Losers(x, op) == Evicted(s, op)
  {
    var gone := Evicted(s, op);
    if gone == {} {
      NoLosers(x, op);
    } else {
      var v :| v in gone;
      EvictedIsVictim(s, x, op, v);
      OneLoser(x, op, v);
      OnlyMember(gone, v);
    }
  }

  lemma SameDecision(s: State, x: LruCache, op: Op)
    requires Inv(s) && Matches(s, x) && Legal(s, op) && LruOk(x)
    ensures OwnTerms(x, op) == TermsOf(s, op) && Decision(x, op) == ChoiceOf(s, op)
  {
    SameTerms(s, x, op);
    ChoiceIsFair(s, x.cache, op);
    if op.Write? {
      SameLosers(s, x, op);
    }
  }

  lemma SameTouched(s: State, x: LruCache, op: Op)
    requires Inv(s) && Matches(s, x) && Legal(s, op) && LruOk(x) && LruLegal(x, op)
    requires Decision(x, op) == ChoiceOf(s, op)
    ensures Touched(x, op) == Touches(s, op)
  {
    if op.Write? || op.VectorRead? || op.PlainRead? {
      assert op.p in x.cache.log <==> op.p in Residents(s);
    }
  }

  /** The picker is determined by its two parts. */
  lemma ToldIs(before: Picker, after: Picker, gone: set<int>)
    requires PickerAfter(before, after, gone)
    ensures after == Told(before, gone)
  {
    assert after.prio == Told(before, gone).prio;
  }

  lemma ToldNothing(picker: Picker)
    ensures Told(picker, {}) == picker
  {
    assert Told(picker, {}).prio == picker.prio;
  }

  lemma WriteTells(s: State, x: LruCache, op: Op)
    requires Inv(s) && Matches(s, x) && Legal(s, op) && LruOk(x) && LruLegal(x, op) && op.Write?
    requires Losers(x, op) == Evicted(s, op)
    ensures Step(s, op).s.picker == NextPicker(x, op)
  {
    assert op.p in x.cache.log <==> op.p in Residents(s);
    WritePicker(s, op.p, op.off, op.bufs);
    if Attached(s) {
      assert Restored(s, op.p, op.off, op.bufs) == Disclaimed(x, op);
      ToldIs(s.picker, Step(s, op).s.picker, Disclaimed(x, op));
    }
  }

  lemma ReadTells(s: State, x: LruCache, op: Op)
    requires Inv(s) && Matches(s, x) && Legal(s, op) && LruOk(x) && LruLegal(x, op) && op.PlainRead?
    ensures Step(s, op).s.picker == NextPicker(x, op)
  {
    assert op.p in x.cache.log <==> op.p in Residents(s);
    if ReadFails(x, op) {
      if Attached(s) {
        ToldIs(s.picker, Step(s, op).s.picker, {op.p});
      }
    } else {
      ToldNothing(s.picker);
    }
  }

  lemma SamePicker(s: State, x: LruCache, op: Op)
    requires Inv(s) && Matches(s, x) && Legal(s, op) && LruOk(x) && LruLegal(x, op)
    requires op.Write? ==> Losers(x, op) == Evicted(s, op)
    ensures Step(s, op).s.picker == NextPicker(x, op)
  {
    if op.Write? {
      WriteTells(s, x, op);
    } else if op.PlainRead? {
      ReadTells(s, x, op);
    } else {
      ToldNothing(s.picker);
    }
  }

  /** What is off the limit is what has been let in as reserved since the budget last grew. */
  lemma SamePending(s: State, x: LruCache, op: Op)
    requires Inv(s) && Matches(s, x) && Legal(s, op) && LruOk(x)
    requires Decision(x, op) == ChoiceOf(s, op)
    ensures Step(s, op).s.bufferSize - Step(s, op).s.bufferLimit == NextPending(x, op)
  {
    if op.Write? {
      assert op.p in x.cache.log <==> op.p in Residents(s);
      WriteLimit(s, op.p, op.off, op.bufs);
    } else {
      QuietMeaning(s, op);
    }
  }

  /** One operation of the storage is one operation of the cache. */
  lemma StepMatches(s: State, x: LruCache, op: Op)
    requires Inv(s) && Matches(s, x) && Legal(s, op)
    ensures LruOk(x) && LruLegal(x, op)
    ensures Step(s, op).out == Reply(x, op)
    ensures Inv(Step(s, op).s) && Matches(Step(s, op).s, Next(x, op))
  {
    SameLegal(s, x, op);
    SameDecision(s, x, op);
    SameTouched(s, x, op);
    SamePicker(s, x, op);
    SamePending(s, x, op);
    StepRefines(s, x.cache, op);
    StepConfig(s, op);
    Conservation(s, op);
    InStepStep(s, op, x.last, x.now);
  }

  // ----- Runs -----

  ghost predicate LruRun(x: LruCache, ops: seq<Op>)
    requires LruOk(x)
    decreases |ops|
  {
    ops != [] ==>
      LruLegal(x, ops[0]) && (Reply(x, ops[0]).Spins? ==> |ops| == 1) && LruRun(Next(x, ops[0]), ops[1..])
  }

  ghost function Replies(x: LruCache, ops: seq<Op>): seq<Output>
    requires LruOk(x) && LruRun(x, ops)
    decreases |ops|
  {
    if ops == [] then [] else [Reply(x, ops[0])] + Replies(Next(x, ops[0]), ops[1..])
  }

  ghost function Outputs(s: State, ops: seq<Op>): seq<Output>
    requires Inv(s) && LegalRun(s, ops)
    decreases |ops|
  {
    if ops == [] then [] else
      StepInv(s, ops[0]);
      [Step(s, ops[0]).out] + Outputs(Step(s, ops[0]).s, ops[1..])
  }

  lemma {:induction false} RunMatches(s: State, x: LruCache, ops: seq<Op>)
    requires Inv(s) && Matches(s, x)
    ensures LruOk(x) && (LegalRun(s, ops) <==> LruRun(x, ops))
    ensures LegalRun(s, ops) ==> Outputs(s, ops) == Replies(x, ops)
    decreases |ops|
  {
    if ops == [] {
    } else {
      SameLegal(s, x, ops[0]);
      if Legal(s, ops[0]) {
        StepMatches(s, x, ops[0]);
        RunMatches(Step(s, ops[0]).s, Next(x, ops[0]), ops[1..]);
      }
    }
  }

  function EmptyLru(capacity: int, pieceLength: nat, lengths: seq<nat>, picker: Picker): LruCache {
    LruCache(EmptyCache(pieceLength, lengths), capacity, {}, false, false, false, picker, 0, 0, map[], 0)
  }

  /**
   * Whatever its callers and libtorrent do, a new storage returns, call for call, what an
   * empty least-recently-used cache returns, and hangs where that does.
   */
  lemma StorageIsLru(capacity: int, pieceLength: int, lengths: seq<nat>, picker: Picker, ops: seq<Op>)
    requires Metadata(capacity, pieceLength, lengths, picker)
    ensures var s, x := Init(capacity, pieceLength, lengths, picker), EmptyLru(capacity, pieceLength, lengths, picker);
            && LruOk(x) && (LegalRun(s, ops) <==> LruRun(x, ops))
            && (LegalRun(s, ops) ==> Outputs(s, ops) == Replies(x, ops))
  {
    var s, x := Init(capacity, pieceLength, lengths, picker), EmptyLru(capacity, pieceLength, lengths, picker);
    FreshIsEmpty(capacity, pieceLength, lengths, picker);
    NoneInStep(s);
    RunMatches(s, x, ops);
  }
}
