// What callers can see: a cache of pieces, each the log of what was written to it since it
// was admitted.  There are no buffers, indices, counters or clocks here.  The storage is
// proved to return exactly what this cache returns.
module Ledger {
  import opened Bytes
  import opened Model
  import opened Trimming
  import opened Effects
  import opened Runs

  datatype Cache = Cache(pieceLength: nat, lengths: seq<nat>, log: map<int, seq<Chunk>>)

  /** What the cache leaves open at a writev: whether a new piece is let in, and who has to go. */
  datatype Choice = Choice(admit: bool, evict: set<int>)

  ghost predicate CacheOk(c: Cache) {
    && (forall i :: 0 <= i < |c.lengths| ==> 0 < c.lengths[i] <= c.pieceLength)
    && (forall p :: p in c.log ==> 0 <= p < |c.lengths| && Fits(c.log[p], c.lengths[p]))
  }

  predicate CacheLegal(c: Cache, op: Op) {
    match op
    case Write(p, off, _) => 0 <= p < |c.lengths| && off <= c.lengths[p]
    case VectorRead(p, off, _) => 0 <= p < |c.lengths| && off <= c.pieceLength
    case PlainRead(p, _, _) => 0 <= p < |c.lengths|
    case _ => true
  }

  function Log(c: Cache, p: int): seq<Chunk> {
    if p in c.log then c.log[p] else []
  }

  function NewChunk(c: Cache, p: int, off: nat, bufs: seq<seq<Byte>>): Chunk
    requires 0 <= p < |c.lengths| && off <= c.lengths[p]
  {
    Chunk(off, Clip(Flatten(bufs), c.lengths[p] - off))
  }

  /** An admitted write appends to the log of its piece; nothing else writes, and eviction forgets. */
  function CacheStep(c: Cache, op: Op, ch: Choice): (c': Cache)
    requires CacheOk(c) && CacheLegal(c, op)
    ensures CacheOk(c') && c'.lengths == c.lengths && c'.pieceLength == c.pieceLength
  {
    match op
    case Write(p, off, bufs) =>
      if p !in c.log && !ch.admit then c
      else c.(log := c.log[p := Log(c, p) + [NewChunk(c, p, off, bufs)]] - ch.evict)
    case _ => c
  }

  lemma FitsMore(chunks: seq<Chunk>, n: nat, m: nat)
    requires Fits(chunks, n) && n <= m
    ensures Fits(chunks, m)
  {
  }

  /** The bytes of a piece in the cache. */
  function Image(c: Cache, p: int): seq<Byte>
    requires CacheOk(c) && p in c.log
  {
    FitsMore(c.log[p], c.lengths[p], c.pieceLength);
    Replay(c.pieceLength, c.log[p])
  }

  function CacheOut(c: Cache, op: Op, ch: Choice): Output
    requires CacheOk(c) && CacheLegal(c, op)
  {
    match op
    case Write(p, off, bufs) =>
      Returned(if p in c.log || ch.admit then |NewChunk(c, p, off, bufs).data| else 0, [])
    case VectorRead(p, off, lens) =>
      if p !in c.log then Returned(0, []) else
        var got := Scatter(Image(c, p)[off..], lens);
        Returned(|Flatten(got)|, got)
    case PlainRead(p, off, size) =>
      if p !in c.log || Written(c.log[p]) < c.lengths[p] then Returned(-1, [])
      else if off >= c.pieceLength then Returned(0, [])
      else Returned(size, [Image(c, p)[off..off + Min(c.pieceLength - off, size)]])
    case _ => Returned(0, [])
  }

  /** What the choice at an operation depends on, besides the cache. */
  datatype Terms = Terms(
    slots: int,           // places in the pool
    gate: bool,           // a new piece may come in
    evicts: bool,         // the cache makes room when it is full
    reserved: set<int>)   // pieces that may not be evicted

  /**
   * The choice must be a fair one.  A new piece is admitted just when it may come in and there
   * is a place; a piece goes just when the write fills the last place and a piece may go;
   * and that is one unreserved piece, never the one written.
   */
  ghost predicate Fair(c: Cache, terms: Terms, op: Op, ch: Choice) {
    && (ch.admit <==> op.Write? && (op.p in c.log || (terms.gate && |c.log.Keys| < terms.slots)))
    && (ch.evict != {} <==>
          && ch.admit && terms.evicts && |c.log.Keys + {op.p}| == terms.slots
          && !(c.log.Keys - {op.p} <= terms.reserved))
    && (ch.evict != {} ==> ch.evict <= c.log.Keys - {op.p} - terms.reserved && |ch.evict| == 1)
  }

  /**
   * Exactly when a call does not return: a writev that takes the last place of a cache that
   * makes room when it is full, while no other piece may go.
   */
  ghost predicate Hangs(c: Cache, terms: Terms, op: Op, ch: Choice) {
    && op.Write? && ch.admit && terms.evicts && |c.log.Keys + {op.p}| == terms.slots
    && c.log.Keys - {op.p} <= terms.reserved
  }

  /** What comes back from one operation of the cache. */
  ghost function Answer(c: Cache, terms: Terms, op: Op, ch: Choice): Output
    requires CacheOk(c) && CacheLegal(c, op)
  {
    if Hangs(c, terms, op, ch) then Spins else CacheOut(c, op, ch)
  }

  // ----- The storage is such a cache -----

  ghost predicate Represents(s: State, c: Cache) {
    && CacheOk(c)
    && c.pieceLength == s.pieceLength && |c.lengths| == |s.pieces|
    && (forall p :: 0 <= p < |s.pieces| ==> s.pieces[p].length == c.lengths[p])
    && c.log.Keys == Residents(s)
    && (forall p :: p in c.log ==> Content(s, p) == Image(c, p) && Size(s, p) == Written(c.log[p]))
  }

  ghost function ChoiceOf(s: State, op: Op): Choice
    requires Inv(s) && Legal(s, op)
  {
    Choice(Target(s, op) != {}, Evicted(s, op))
  }

  lemma ImageGrows(c: Cache, p: int, off: nat, bufs: seq<seq<Byte>>, ch: Choice)
    requires CacheOk(c) && CacheLegal(c, Write(p, off, bufs)) && p !in ch.evict && (p in c.log || ch.admit)
    ensures var c' := CacheStep(c, Write(p, off, bufs), ch);
            var chunk := NewChunk(c, p, off, bufs);
            && p in c'.log
            && off + |chunk.data| <= c.pieceLength
            && Image(c', p) == Overwrite(if p in c.log then Image(c, p) else Zeros(c.pieceLength), off, chunk.data)
            && Written(c'.log[p]) == Written(Log(c, p)) + |chunk.data|
  {
    var before, chunk := Log(c, p), NewChunk(c, p, off, bufs);
    var grown := before + [chunk];
    assert grown[..|grown| - 1] == before;
    var c' := CacheStep(c, Write(p, off, bufs), ch);
    assert p in c'.log && c'.log[p] == grown;
    FitsMore(before, c.lengths[p], c.pieceLength);
    FitsMore(grown, c.lengths[p], c.pieceLength);
    assert Replay(c.pieceLength, grown) == Overwrite(Replay(c.pieceLength, before), off, chunk.data);
  }

  lemma CacheKeys(c: Cache, op: Op, ch: Choice)
    requires CacheOk(c) && CacheLegal(c, op) && op.Write?
    ensures CacheStep(c, op, ch).log.Keys ==
            if op.p in c.log.Keys || ch.admit then c.log.Keys + {op.p} - ch.evict else c.log.Keys
  {
  }

  lemma WriteKeys(s: State, c: Cache, p: int, off: nat, bufs: seq<seq<Byte>>)
    requires Inv(s) && Drift(s) >= 0 && Legal(s, Write(p, off, bufs)) && Represents(s, c)
    ensures CacheLegal(c, Write(p, off, bufs))
    ensures var op := Write(p, off, bufs);
            CacheStep(c, op, ChoiceOf(s, op)).log.Keys == Residents(Writev(s, p, off, bufs).s)
  {
    var op := Write(p, off, bufs);
    WriteStepEffect(s, p, off, bufs);
    assert p in c.log.Keys <==> p in Residents(s);
    if !Admitted(s, p) {
      RefusedWrite(s, p, off, bufs);
    }
    CacheKeys(c, op, ChoiceOf(s, op));
  }

  lemma WriteImage(s: State, c: Cache, p: int, off: nat, bufs: seq<seq<Byte>>)
    requires Inv(s) && Drift(s) >= 0 && Legal(s, Write(p, off, bufs)) && Represents(s, c)
    requires CacheLegal(c, Write(p, off, bufs)) && Admitted(s, p)
    ensures var op := Write(p, off, bufs);
            var c', s' := CacheStep(c, op, ChoiceOf(s, op)), Writev(s, p, off, bufs).s;
            p in c'.log && Content(s', p) == Image(c', p) && Size(s', p) == Written(c'.log[p])
  {
    OwnPieceStays(s, p, off, bufs);
    WriteLands(s, p, off, bufs);
    ImageGrows(c, p, off, bufs, ChoiceOf(s, Write(p, off, bufs)));
    assert p in c.log.Keys <==> p in Residents(s);
    assert PieceOk(s, p);
    assert NewChunk(c, p, off, bufs).data == Payload(s, p, off, bufs);
  }

  lemma WriteRefines(s: State, c: Cache, p: int, off: nat, bufs: seq<seq<Byte>>)
    requires Inv(s) && Drift(s) >= 0 && Legal(s, Write(p, off, bufs)) && Represents(s, c)
    ensures CacheLegal(c, Write(p, off, bufs))
    ensures var op := Write(p, off, bufs);
            Represents(Writev(s, p, off, bufs).s, CacheStep(c, op, ChoiceOf(s, op)))
  {
    var op := Write(p, off, bufs);
    var s' := Writev(s, p, off, bufs).s;
    var c' := CacheStep(c, op, ChoiceOf(s, op));
    WriteKeys(s, c, p, off, bufs);
    WriteConfig(s, p, off, bufs);
    forall q | q in c'.log
      ensures Content(s', q) == Image(c', q) && Size(s', q) == Written(c'.log[q])
    {
      if q == p && Admitted(s, p) {
        WriteImage(s, c, p, off, bufs);
      } else {
        WriteKeepsImage(s, c, p, off, bufs, q);
      }
    }
  }

  lemma WriteKeepsImage(s: State, c: Cache, p: int, off: nat, bufs: seq<seq<Byte>>, q: int)
    requires Inv(s) && Drift(s) >= 0 && Legal(s, Write(p, off, bufs)) && Represents(s, c)
    requires CacheLegal(c, Write(p, off, bufs))
    requires q in CacheStep(c, Write(p, off, bufs), ChoiceOf(s, Write(p, off, bufs))).log
    requires q != p || !Admitted(s, p)
    ensures var op := Write(p, off, bufs);
            var c', s' := CacheStep(c, op, ChoiceOf(s, op)), Writev(s, p, off, bufs).s;
            Content(s', q) == Image(c', q) && Size(s', q) == Written(c'.log[q])
  {
    WriteKeys(s, c, p, off, bufs);
    WriteStepEffect(s, p, off, bufs);
    var s' := Writev(s, p, off, bufs).s;
    assert p in c.log.Keys <==> p in Residents(s);
    assert q in Residents(s') && q in Residents(s);
    assert SamePiece(s, s', q);
    assert CacheStep(c, Write(p, off, bufs), ChoiceOf(s, Write(p, off, bufs))).log[q] == c.log[q];
  }

  lemma QuietRefines(s: State, c: Cache, op: Op)
    requires Inv(s) && Legal(s, op) && !op.Write? && Represents(s, c)
    ensures CacheLegal(c, op)
    ensures Represents(Step(s, op).s, c)
  {
    QuietStep(s, op);
    StepConfig(s, op);
    forall p | p in c.log ensures SamePiece(s, Step(s, op).s, p) {
      assert Resident(s, p);
    }
  }

  ghost function TermsOf(s: State, op: Op): Terms
    requires Inv(s) && Legal(s, op)
  {
    Terms(s.bufferSize, op.Write? ==> Gate(s, op.p), Drift(s) == 0, s.reserved)
  }

  lemma QuietOutput(s: State, c: Cache, op: Op, ch: Choice)
    requires Inv(s) && Legal(s, op) && !op.Write? && Represents(s, c) && CacheLegal(c, op)
    ensures Step(s, op).out == CacheOut(c, op, ch)
  {
    if op.VectorRead? || op.PlainRead? {
      assert op.p in c.log <==> op.p in Residents(s);
      assert PieceOk(s, op.p);
    }
  }

  lemma OutputRefines(s: State, c: Cache, op: Op)
    requires Inv(s) && Drift(s) >= 0 && Legal(s, op) && Represents(s, c) && CacheLegal(c, op)
    ensures Step(s, op).out == Answer(c, TermsOf(s, op), op, ChoiceOf(s, op))
  {
    if op.Write? {
      WriteOutput(s, op.p, op.off, op.bufs);
      WriteSpins(s, op.p, op.off, op.bufs);
      assert op.p in c.log <==> op.p in Residents(s);
    } else {
      QuietOutput(s, c, op, ChoiceOf(s, op));
    }
  }

  lemma ChoiceIsFair(s: State, c: Cache, op: Op)
    requires Inv(s) && Drift(s) >= 0 && Legal(s, op) && Represents(s, c)
    ensures Fair(c, TermsOf(s, op), op, ChoiceOf(s, op))
  {
    if op.Write? {
      WriteStepEffect(s, op.p, op.off, op.bufs);
      StoredEffect(s, op.p, op.off, op.bufs);
      WriteEvicts(s, op.p, op.off, op.bufs);
      UsedBound(s);
      ResidentCount(s);
      assert op.p in c.log <==> op.p in Residents(s);
    }
  }

  /** One operation of the storage is one operation of the cache, under a fair choice. */
  lemma StepRefines(s: State, c: Cache, op: Op)
    requires Inv(s) && Drift(s) >= 0 && Legal(s, op) && Represents(s, c)
    ensures var r, ch := Step(s, op), ChoiceOf(s, op);
            && CacheLegal(c, op) && Fair(c, TermsOf(s, op), op, ch)
            && Inv(r.s) && Represents(r.s, CacheStep(c, op, ch))
            && r.out == Answer(c, TermsOf(s, op), op, ch)
  {
    StepInv(s, op);
    ChoiceIsFair(s, c, op);
    if op.Write? {
      WriteRefines(s, c, op.p, op.off, op.bufs);
    } else {
      QuietRefines(s, c, op);
    }
    OutputRefines(s, c, op);
  }

  // ----- Runs -----

  /** One operation of a run: what was asked, what came back, and on what terms. */
  datatype Event = Event(op: Op, out: Output, terms: Terms)

  ghost function Events(s: State, ops: seq<Op>): seq<Event>
    requires Inv(s) && LegalRun(s, ops)
    decreases |ops|
  {
    if ops == [] then [] else
      StepInv(s, ops[0]);
      var r := Step(s, ops[0]);
      [Event(ops[0], r.out, TermsOf(s, ops[0]))] + Events(r.s, ops[1..])
  }

  ghost function Choices(s: State, ops: seq<Op>): seq<Choice>
    requires Inv(s) && LegalRun(s, ops)
    decreases |ops|
  {
    if ops == [] then [] else
      StepInv(s, ops[0]);
      [ChoiceOf(s, ops[0])] + Choices(Step(s, ops[0]).s, ops[1..])
  }

  /** The cache, started as `c`, can go through these events with these choices, all of them fair. */
  ghost predicate Follows(c: Cache, events: seq<Event>, chs: seq<Choice>)
    requires CacheOk(c)
    decreases |events|
  {
    && |events| == |chs|
    && (events != [] ==>
          var e, ch := events[0], chs[0];
          && CacheLegal(c, e.op) && Fair(c, e.terms, e.op, ch)
          && e.out == Answer(c, e.terms, e.op, ch)
          && Follows(CacheStep(c, e.op, ch), events[1..], chs[1..]))
  }

  ghost function CacheRun(c: Cache, events: seq<Event>, chs: seq<Choice>): (c': Cache)
    requires CacheOk(c) && Follows(c, events, chs)
    ensures CacheOk(c')
    decreases |events|
  {
    if events == [] then c else CacheRun(CacheStep(c, events[0].op, chs[0]), events[1..], chs[1..])
  }

  lemma FollowsCons(c: Cache, e: Event, ch: Choice, events: seq<Event>, chs: seq<Choice>)
    requires CacheOk(c) && CacheLegal(c, e.op) && Fair(c, e.terms, e.op, ch)
    requires e.out == Answer(c, e.terms, e.op, ch)
    requires Follows(CacheStep(c, e.op, ch), events, chs)
    ensures Follows(c, [e] + events, [ch] + chs)
    ensures CacheRun(c, [e] + events, [ch] + chs) == CacheRun(CacheStep(c, e.op, ch), events, chs)
  {
    assert ([e] + events)[1..] == events && ([ch] + chs)[1..] == chs;
  }

  /**
   * Refinement: along every run the storage returns what the cache of logs returns, and fails
   * to return where the cache hangs; so no read sees a byte that was not written to its
   * piece since the piece was admitted.
   */
  lemma {:induction false} RunRefines(s: State, c: Cache, ops: seq<Op>)
    requires Inv(s) && Drift(s) >= 0 && LegalRun(s, ops) && Represents(s, c)
    ensures Follows(c, Events(s, ops), Choices(s, ops))
    ensures Represents(Run(s, ops), CacheRun(c, Events(s, ops), Choices(s, ops)))
    decreases |ops|
  {
    if ops == [] {
    } else {
      var op, r, ch := ops[0], Step(s, ops[0]), ChoiceOf(s, ops[0]);
      StepRefines(s, c, op);
      Conservation(s, op);
      RunRefines(r.s, CacheStep(c, op, ch), ops[1..]);
      FollowsCons(c, Event(op, r.out, TermsOf(s, op)), ch, Events(r.s, ops[1..]), Choices(r.s, ops[1..]));
    }
  }

  function EmptyCache(pieceLength: nat, lengths: seq<nat>): Cache {
    Cache(pieceLength, lengths, map[])
  }

  lemma FreshIsEmpty(capacity: int, pieceLength: int, lengths: seq<nat>, picker: Picker)
    requires Metadata(capacity, pieceLength, lengths, picker)
    ensures Represents(Init(capacity, pieceLength, lengths, picker), EmptyCache(pieceLength, lengths))
  {
  }

  // ----- Scatter and gather -----

  lemma OverwriteRead(b: seq<Byte>, off: nat, d: seq<Byte>)
    requires off + |d| <= |b|
    ensures Overwrite(b, off, d)[off..off + |d|] == d
  {
  }

  /**
   * writev depends on its buffers only through their concatenation, and a readv of as many
   * bytes from the same place gets them back, however either list of buffers is split.
   */
  lemma ScatterGather(s: State, p: int, off: nat, bufs: seq<seq<Byte>>, other: seq<seq<Byte>>, lens: seq<nat>)
    requires Inv(s) && Drift(s) >= 0 && Legal(s, Write(p, off, bufs)) && Admitted(s, p)
    requires Flatten(other) == Flatten(bufs)
    requires Total(lens) == |Clip(Flatten(bufs), s.pieces[p].length - off)|
    ensures Writev(s, p, off, bufs) == Writev(s, p, off, other)
    ensures var s1 := Writev(s, p, off, bufs).s;
            var sent := Clip(Flatten(bufs), s.pieces[p].length - off);
            && Inv(s1) && Resident(s1, p) && Legal(s1, VectorRead(p, off, lens))
            && var r := Readv(s1, p, off, lens).out;
               r.Returned? && r.n == |sent| && Flatten(r.bytes) == sent
  {
    ReadBack(s, p, off, bufs, lens);
  }

  lemma ReadBack(s: State, p: int, off: nat, bufs: seq<seq<Byte>>, lens: seq<nat>)
    requires Inv(s) && Drift(s) >= 0 && Legal(s, Write(p, off, bufs)) && Admitted(s, p)
    requires Total(lens) == |Payload(s, p, off, bufs)|
    ensures var s1 := Writev(s, p, off, bufs).s;
            && Inv(s1) && Resident(s1, p) && Legal(s1, VectorRead(p, off, lens))
            && var r := Readv(s1, p, off, lens).out;
               r.Returned? && r.n == Total(lens) && Flatten(r.bytes) == Payload(s, p, off, bufs)
  {
    var data := Payload(s, p, off, bufs);
    WriteLands(s, p, off, bufs);
    WriteConfig(s, p, off, bufs);
    OverwriteRead(BytesOf(s, p), off, data);
    ReadvPrefix(Writev(s, p, off, bufs).s, p, off, lens, data);
  }

  /** readv delivers the first bytes from `off` on, as many as were asked for. */
  lemma ReadvPrefix(s: State, p: int, off: nat, lens: seq<nat>, data: seq<Byte>)
    requires Inv(s) && Resident(s, p) && off + |data| <= s.pieceLength && Total(lens) == |data|
    requires |Content(s, p)| == s.pieceLength && Content(s, p)[off..off + |data|] == data
    ensures var r := Readv(s, p, off, lens).out;
            r.Returned? && r.n == |data| && Flatten(r.bytes) == data
  {
    assert PieceOk(s, p);
    var src := Content(s, p)[off..];
    FlattenScatter(src, lens);
    assert src[..|data|] == data;
  }
}
