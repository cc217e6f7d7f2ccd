// The byte counter as a completeness test: what it promises when `read` trusts it, and
// exactly which histories of writes it can be trusted for.
module Completeness {
  import opened Bytes
  import opened Model
  import opened Trimming
  import opened Effects
  import opened Runs
  import opened Ledger
  import opened Segments

  ghost predicate Complete(chunks: seq<Chunk>, n: nat) {
    Covered(chunks) == Range(0, n)
  }

  lemma CompleteBySize(chunks: seq<Chunk>, n: nat)
    requires Fits(chunks, n)
    ensures Complete(chunks, n) <==> |Covered(chunks)| == n
  {
    CoveredFits(chunks, n);
    RangeSize(0, n);
    SubsetSize(Covered(chunks), Range(0, n));
  }

  /**
   * For a resident piece the counter is at least the number of distinct bytes written; it is
   * exactly that when no two writes overlapped, and then it reaches the length of the
   * piece just when every byte has been written.
   */
  lemma CounterTest(s: State, c: Cache, p: int)
    requires Represents(s, c) && Resident(s, p)
    ensures p in c.log && |Covered(c.log[p])| <= Size(s, p)
    ensures |Covered(c.log[p])| == Size(s, p) <==> Disjoint(c.log[p])
    ensures Complete(c.log[p], c.lengths[p]) ==> Size(s, p) >= c.lengths[p]
    ensures Disjoint(c.log[p]) ==> (Size(s, p) >= c.lengths[p] <==> Complete(c.log[p], c.lengths[p]))
  {
    assert p in Residents(s);
    CoverageBound(c.log[p]);
    CompleteBySize(c.log[p], c.lengths[p]);
    CoveredFits(c.log[p], c.lengths[p]);
    RangeSize(0, c.lengths[p]);
    SubsetSize(Covered(c.log[p]), Range(0, c.lengths[p]));
  }

  /** Each byte of `got` is the one written last at its place, counted from `off`, or zero if none was. */
  ghost predicate AreLastWritten(got: seq<Byte>, chunks: seq<Chunk>, off: nat) {
    forall k :: 0 <= k < |got| ==> got[k] == LastWritten(chunks, off + k)
  }

  /**
   * A read that passes the test delivers, byte for byte, what was last written to the piece
   * since it was admitted; when no writes overlapped, every byte of the piece had been.
   */
  lemma ReadDelivers(s: State, c: Cache, p: int, off: nat, size: nat)
    requires Inv(s) && Represents(s, c) && Legal(s, PlainRead(p, off, size)) && off < s.pieceLength
    requires Read(s, p, off, size).out != Returned(-1, [])
    ensures p in c.log && (Disjoint(c.log[p]) ==> Complete(c.log[p], c.lengths[p]))
    ensures var out := Read(s, p, off, size).out;
            && out.Returned? && |out.bytes| == 1 && |out.bytes[0]| == Min(size, s.pieceLength - off)
            && AreLastWritten(out.bytes[0], c.log[p], off)
            // the count returned is the one asked for, even when fewer bytes were copied
            && out.n == size && (out.n == |out.bytes[0]| <==> off + size <= s.pieceLength)
  {
    assert PieceOk(s, p) && Resident(s, p);
    assert BufferOk(s, s.pieces[p].bi);
    CounterTest(s, c, p);
    SliceIsLastWritten(c, p, off, Min(size, s.pieceLength - off));
  }

  lemma SliceIsLastWritten(c: Cache, p: int, off: nat, n: nat)
    requires CacheOk(c) && p in c.log && off + n <= c.pieceLength
    ensures AreLastWritten(Image(c, p)[off..off + n], c.log[p], off)
  {
    FitsMore(c.log[p], c.lengths[p], c.pieceLength);
    var got := Image(c, p)[off..off + n];
    forall k | 0 <= k < n ensures got[k] == LastWritten(c.log[p], off + k) {
      ReplayAt(c.pieceLength, c.log[p], off + k);
    }
  }

  /** So after any run: `c` is the cache of logs that the run of a new storage amounts to. */
  lemma ReadAfterRun(capacity: int, pieceLength: int, lengths: seq<nat>, picker: Picker, ops: seq<Op>,
                     p: int, off: nat, size: nat)
      returns (c: Cache)
    requires Metadata(capacity, pieceLength, lengths, picker)
    requires LegalRun(Init(capacity, pieceLength, lengths, picker), ops)
    requires var s := Run(Init(capacity, pieceLength, lengths, picker), ops);
             Legal(s, PlainRead(p, off, size)) && off < s.pieceLength && Read(s, p, off, size).out != Returned(-1, [])
    ensures var s0 := Init(capacity, pieceLength, lengths, picker);
            var c0 := EmptyCache(pieceLength, lengths);
            && CacheOk(c0) && Follows(c0, Events(s0, ops), Choices(s0, ops))
            && c == CacheRun(c0, Events(s0, ops), Choices(s0, ops))
    ensures p in c.log && (Disjoint(c.log[p]) ==> Complete(c.log[p], c.lengths[p]))
    ensures var out := Read(Run(Init(capacity, pieceLength, lengths, picker), ops), p, off, size).out;
            out.Returned? && |out.bytes| == 1 && AreLastWritten(out.bytes[0], c.log[p], off)
  {
    var s0, c0 := Init(capacity, pieceLength, lengths, picker), EmptyCache(pieceLength, lengths);
    FreshIsEmpty(capacity, pieceLength, lengths, picker);
    RunRefines(s0, c0, ops);
    c := CacheRun(c0, Events(s0, ops), Choices(s0, ops));
    ReadDelivers(Run(s0, ops), c, p, off, size);
  }

  // ----- Exactly which histories the test can be trusted for -----

  /** Writes that touch no byte twice, and none of the bytes already written. */
  ghost predicate Fresh(chunks: seq<Chunk>, ext: seq<Chunk>) {
    Disjoint(ext) && Covered(ext) !! Covered(chunks)
  }

  ghost predicate TestRight(chunks: seq<Chunk>, n: nat) {
    Written(chunks) >= n <==> Complete(chunks, n)
  }

  /** However the piece is completed from here, by fresh writes only, the test never errs. */
  ghost predicate Trustworthy(chunks: seq<Chunk>, n: nat) {
    forall ext :: Fits(ext, n) && Fresh(chunks, ext) ==> TestRight(chunks + ext, n)
  }

  lemma {:induction false} Concat(a: seq<Chunk>, b: seq<Chunk>)
    ensures Covered(a + b) == Covered(a) + Covered(b)
    ensures Written(a + b) == Written(a) + Written(b)
  {
    if b == [] {
      assert a + b == a;
    } else {
      var init, last := b[..|b| - 1], b[|b| - 1];
      assert (a + b)[..|a + b| - 1] == a + init;
      Concat(a, init);
    }
  }

  /** One single-byte write to each position of `gaps`. */
  lemma {:induction false} FillGaps(gaps: set<int>, n: nat) returns (ext: seq<Chunk>)
    requires gaps <= Range(0, n)
    ensures Fits(ext, n) && Disjoint(ext) && Covered(ext) == gaps
    decreases |gaps|
  {
    if gaps == {} {
      ext := [];
    } else {
      var k :| k in gaps;
      var rest := FillGaps(gaps - {k}, n);
      var one := Chunk(k, [0]);
      ext := rest + [one];
      assert ext[..|ext| - 1] == rest;
      assert Span(one) == {k};
      DisjointSnoc(rest, one);
    }
  }

  /** Fresh writes that leave a byte out and still take the counter to the length of the piece. */
  lemma AllButOne(chunks: seq<Chunk>, n: nat) returns (ext: seq<Chunk>, j: int)
    requires Fits(chunks, n) && !Disjoint(chunks) && !Complete(chunks, n)
    ensures Fits(ext, n) && Fresh(chunks, ext) && Written(chunks + ext) >= n
    ensures 0 <= j < n && j !in Covered(chunks + ext)
  {
    CoveredFits(chunks, n);
    RangeSize(0, n);
    var gaps := Range(0, n) - Covered(chunks);
    if gaps == {} {
      forall k | k in Range(0, n) ensures k in Covered(chunks) {
        assert k !in gaps;
      }
    }
    j :| j in gaps;
    ext := FillGaps(gaps - {j}, n);
    Concat(chunks, ext);
    CoverageBound(chunks);
    CoverageBound(ext);
    assert |gaps| == n - |Covered(chunks)|;
  }

  lemma FreshIsRight(chunks: seq<Chunk>, ext: seq<Chunk>, n: nat)
    requires Fits(chunks, n) && Fits(ext, n) && Fresh(chunks, ext)
    requires Disjoint(chunks) || Complete(chunks, n)
    ensures TestRight(chunks + ext, n)
  {
    Concat(chunks, ext);
    CoverageBound(chunks);
    CoverageBound(ext);
    CoverageBound(chunks + ext);
    UnionSize(Covered(chunks), Covered(ext));
    CompleteBySize(chunks + ext, n);
    CompleteBySize(chunks, n);
    CoveredFits(chunks + ext, n);
    RangeSize(0, n);
    SubsetSize(Covered(chunks + ext), Range(0, n));
    SubsetSize(Covered(chunks), Covered(chunks + ext));
  }

  /**
   * The counter is to be trusted exactly for a history without overlapping writes, or one
   * that has covered the whole piece already: any other can be continued, writing fresh
   * bytes only, to a point where the test passes with a byte missing.
   */
  lemma TrustedExactly(chunks: seq<Chunk>, n: nat)
    requires Fits(chunks, n)
    ensures Trustworthy(chunks, n) <==> Disjoint(chunks) || Complete(chunks, n)
  {
    if Disjoint(chunks) || Complete(chunks, n) {
      forall ext | Fits(ext, n) && Fresh(chunks, ext) ensures TestRight(chunks + ext, n) {
        FreshIsRight(chunks, ext, n);
      }
    } else {
      var ext, j := AllButOne(chunks, n);
      assert j in Range(0, n);
      assert !TestRight(chunks + ext, n);
    }
  }

  // ----- The same, said about the storage -----

  ghost predicate AllWrites(ops: seq<Op>, p: int) {
    forall i :: 0 <= i < |ops| ==> ops[i].Write? && ops[i].p == p
  }

  /**
   * `ops` are writes to `p` that touch no byte twice and none of those in `chunks`; they all
   * return, and then a read of the byte at `j`, which no one has written, succeeds.
   */
  ghost predicate Misled(s: State, p: int, n: nat, chunks: seq<Chunk>, ops: seq<Op>, j: nat)
    requires Inv(s) && 0 <= p < |s.pieces|
  {
    && AllWrites(ops, p) && Fresh(chunks, Own(n, ops, p))
    && j < n && j !in Covered(chunks + Own(n, ops, p))
    && LegalRun(s, ops + [PlainRead(p, j, 1)])
    && LegalRun(s, ops) && Legal(Run(s, ops), PlainRead(p, j, 1))
    && Step(Run(s, ops), PlainRead(p, j, 1)).out == Returned(1, [[0]])
  }

  /** A write to the resident piece `p` returns. */
  ghost predicate Writable(s: State, p: int) {
    && Inv(s) && Drift(s) >= 0 && Resident(s, p)
    && !(Drift(s) == 0 && FillsPool(s, p) && OthersReserved(s, p))
  }

  /** A write to `p` that returns keeps `p`, adds to its log and leaves it writable. */
  lemma OwnWrite(s: State, c: Cache, op: Op, p: int) returns (c': Cache)
    requires Inv(s) && Drift(s) >= 0 && Resident(s, p) && Represents(s, c)
    requires op.Write? && op.p == p && Legal(s, op)
    ensures var s' := Step(s, op).s;
            && Inv(s') && Drift(s') >= 0 && Resident(s', p) && Represents(s', c') && c'.lengths == c.lengths
    ensures p in c.log && p in c'.log && c'.log[p] == c.log[p] + OwnChunk(c.lengths[p], op, p)
  {
    var ch := ChoiceOf(s, op);
    Conservation(s, op);
    StepRefines(s, c, op);
    OwnPieceStays(s, p, op.off, op.bufs);
    WriteLands(s, p, op.off, op.bufs);
    assert p in Residents(s);
    CacheAppends(c, op, ch, p);
    c' := CacheStep(c, op, ch);
  }

  /** After any writes to a resident piece it holds what it held and what they have added. */
  lemma {:induction false} OwnWrites(s: State, c: Cache, ops: seq<Op>, p: int)
    requires Inv(s) && Drift(s) >= 0 && Resident(s, p) && Represents(s, c)
    requires LegalRun(s, ops) && AllWrites(ops, p)
    ensures p in c.log && Holds(Run(s, ops), p, c.log[p] + Own(c.lengths[p], ops, p))
    ensures Run(s, ops).pieces[p].length == c.lengths[p]
    decreases |ops|
  {
    RepresentedHolds(s, c, p);
    if ops == [] {
      assert c.log[p] + [] == c.log[p];
    } else {
      assert ops[0].Write? && ops[0].p == p;
      var c1 := OwnWrite(s, c, ops[0], p);
      OwnWrites(Step(s, ops[0]).s, c1, ops[1..], p);
      OwnCons(c.log[p], c.lengths[p], ops, p);
    }
  }

  /** Losing other pieces leaves `p` writable. */
  lemma WritableCarries(s: State, s': State, p: int, gone: set<int>)
    requires Writable(s, p) && Inv(s') && Drift(s') == Drift(s) && p !in gone
    requires Residents(s') == Residents(s) - gone && s'.bufferSize == s.bufferSize && s'.reserved == s.reserved
    ensures Writable(s', p)
  {
    assert p in Residents(s) && p in Residents(s');
    assert Residents(s) + {p} == Residents(s) && Residents(s') + {p} == Residents(s');
    UsedBound(s);
    ResidentCount(s);
    var lost := gone * Residents(s);
    assert Residents(s) - gone == Residents(s) - lost;
    RemovedSize(Residents(s), lost);
    if lost == {} {
      assert Residents(s') == Residents(s);
    }
  }

  lemma MemberAdded(r: set<int>, target: set<int>, gone: set<int>, p: int)
    requires p in r && target <= {p}
    ensures r + target - gone == r - gone
  {
  }

  lemma OwnWriteResidents(s: State, p: int, off: nat, bufs: seq<seq<Byte>>)
    requires Inv(s) && Drift(s) >= 0 && Resident(s, p) && Legal(s, Write(p, off, bufs))
    ensures var op := Write(p, off, bufs);
            p !in Evicted(s, op) && Residents(Writev(s, p, off, bufs).s) == Residents(s) - Evicted(s, op)
  {
    var op := Write(p, off, bufs);
    OwnPieceStays(s, p, off, bufs);
    WriteStepEffect(s, p, off, bufs);
    MemberAdded(Residents(s), Target(s, op), Evicted(s, op), p);
  }

  lemma WritableStep(s: State, p: int, off: nat, bufs: seq<seq<Byte>>)
    requires Writable(s, p) && Legal(s, Write(p, off, bufs))
    ensures !Writev(s, p, off, bufs).out.Spins? && Writable(Writev(s, p, off, bufs).s, p)
  {
    WriteSpins(s, p, off, bufs);
    OwnWriteResidents(s, p, off, bufs);
    WriteConfig(s, p, off, bufs);
    Conservation(s, Write(p, off, bufs));
    WritableCarries(s, Step(s, Write(p, off, bufs)).s, p, Evicted(s, Write(p, off, bufs)));
  }

  /** One writev for each of the chunks. */
  function Writes(p: int, chunks: seq<Chunk>): seq<Op> {
    if chunks == [] then [] else [Write(p, chunks[0].off, [chunks[0].data])] + Writes(p, chunks[1..])
  }

  lemma {:induction false} WritesAre(p: int, chunks: seq<Chunk>, n: nat)
    requires Fits(chunks, n)
    ensures AllWrites(Writes(p, chunks), p) && Own(n, Writes(p, chunks), p) == chunks
    decreases |chunks|
  {
    if chunks == [] {
    } else {
      var one, ops := chunks[0], Writes(p, chunks);
      assert Fits(chunks[1..], n);
      WritesAre(p, chunks[1..], n);
      assert [one.data][..0] == [] && Flatten([one.data]) == one.data;
      assert one.off + |one.data| <= n;
      assert OwnChunk(n, ops[0], p) == [one];
      assert ops[1..] == Writes(p, chunks[1..]);
    }
  }

  lemma {:induction false} WritesReturn(s: State, p: int, n: nat, chunks: seq<Chunk>, last: Op)
    requires Writable(s, p) && n == s.pieces[p].length && Fits(chunks, n) && last.PlainRead? && last.p == p
    ensures LegalRun(s, Writes(p, chunks)) && LegalRun(s, Writes(p, chunks) + [last])
    ensures Legal(Run(s, Writes(p, chunks)), last)
    decreases |chunks|
  {
    var ops := Writes(p, chunks);
    if chunks == [] {
      assert ops + [last] == [last] && [last][1..] == [];
      StepInv(s, last);
      assert LegalRun(Step(s, last).s, []);
    } else {
      var s' := Step(s, ops[0]).s;
      assert chunks[0].off + |chunks[0].data| <= n;
      WritableStep(s, p, chunks[0].off, [chunks[0].data]);
      WriteConfig(s, p, chunks[0].off, [chunks[0].data]);
      assert Fits(chunks[1..], n);
      WritesReturn(s', p, n, chunks[1..], last);
      assert ops[1..] == Writes(p, chunks[1..]);
      assert (ops + [last])[1..] == ops[1..] + [last];
    }
  }

  /** A one-byte read of a byte never written delivers a zero, if the counter has reached the length. */
  lemma UnwrittenRead(s: State, p: int, chunks: seq<Chunk>, j: nat)
    requires Inv(s) && Holds(s, p, chunks) && j < s.pieces[p].length && j !in Covered(chunks)
    ensures Read(s, p, j, 1).out ==
            if Written(chunks) >= s.pieces[p].length then Returned(1, [[0]]) else Returned(-1, [])
  {
    assert PieceOk(s, p) && BufferOk(s, s.pieces[p].bi);
    ReplayAt(s.pieceLength, chunks, j);
    assert Content(s, p)[j..j + 1] == [0];
  }

  lemma {:induction false} OwnFits(n: nat, ops: seq<Op>, p: int)
    ensures Fits(Own(n, ops, p), n)
    decreases |ops|
  {
    if ops == [] {
    } else {
      OwnFits(n, ops[1..], p);
    }
  }

  lemma PassesWithGap(chunks: seq<Chunk>, ext: seq<Chunk>, n: nat, j: nat)
    requires Fits(chunks, n) && Fits(ext, n) && Fresh(chunks, ext) && Written(chunks + ext) >= n
    requires j < n && j !in Covered(chunks + ext)
    ensures !Disjoint(chunks) && !Complete(chunks, n)
  {
    Concat(chunks, ext);
    assert j in Range(0, n);
    if Disjoint(chunks) {
      FreshIsRight(chunks, ext, n);
      assert false;
    }
  }

  lemma FirstReturns(s: State, p: int, ops: seq<Op>, last: Op)
    requires Inv(s) && Drift(s) >= 0 && Resident(s, p) && ops != [] && AllWrites(ops, p)
    requires LegalRun(s, ops + [last])
    ensures Writable(s, p)
  {
    assert (ops + [last])[0] == ops[0] && ops[0].Write? && ops[0].p == p;
    WriteSpins(s, p, ops[0].off, ops[0].bufs);
  }

  lemma MisledOnlyIf(s: State, c: Cache, p: int, ops: seq<Op>, j: nat)
    requires Inv(s) && Drift(s) >= 0 && Represents(s, c) && Resident(s, p) && p in c.log
    requires Misled(s, p, c.lengths[p], c.log[p], ops, j)
    ensures !Disjoint(c.log[p]) && !Complete(c.log[p], c.lengths[p])
    ensures Writable(s, p) || Written(c.log[p]) >= c.lengths[p]
  {
    var log, n := c.log[p], c.lengths[p];
    var ext := Own(n, ops, p);
    OwnWrites(s, c, ops, p);
    UnwrittenRead(Run(s, ops), p, log + ext, j);
    OwnFits(n, ops, p);
    PassesWithGap(log, ext, n, j);
    if ops == [] {
      assert log + ext == log;
    } else {
      FirstReturns(s, p, ops, PlainRead(p, j, 1));
    }
  }

  lemma OnlyRead(s: State, op: Op)
    requires Inv(s) && Legal(s, op) && op.PlainRead?
    ensures LegalRun(s, []) && LegalRun(s, [] + [op]) && Run(s, []) == s
  {
    assert [] + [op] == [op] && [op][1..] == [];
    StepInv(s, op);
    assert LegalRun(Step(s, op).s, []);
  }

  lemma WritesMislead(s: State, c: Cache, p: int, ext: seq<Chunk>, j: nat)
    requires Inv(s) && Drift(s) >= 0 && Represents(s, c) && Resident(s, p) && p in c.log
    requires var log, n := c.log[p], c.lengths[p];
             && Fits(ext, n) && Fresh(log, ext) && Written(log + ext) >= n
             && j < n && j !in Covered(log + ext)
    requires var ops := Writes(p, ext);
             && LegalRun(s, ops) && LegalRun(s, ops + [PlainRead(p, j, 1)])
             && Legal(Run(s, ops), PlainRead(p, j, 1))
    ensures Misled(s, p, c.lengths[p], c.log[p], Writes(p, ext), j)
  {
    WritesAre(p, ext, c.lengths[p]);
    OwnWrites(s, c, Writes(p, ext), p);
    UnwrittenRead(Run(s, Writes(p, ext)), p, c.log[p] + ext, j);
  }

  lemma Mislead(s: State, c: Cache, p: int) returns (ops: seq<Op>, j: nat)
    requires Inv(s) && Drift(s) >= 0 && Represents(s, c) && Resident(s, p) && p in c.log
    requires !Disjoint(c.log[p]) && !Complete(c.log[p], c.lengths[p])
    requires Writable(s, p) || Written(c.log[p]) >= c.lengths[p]
    ensures Misled(s, p, c.lengths[p], c.log[p], ops, j)
  {
    var log, n := c.log[p], c.lengths[p];
    var ext: seq<Chunk>;
    ext, j := AllButOne(log, n);
    if Writable(s, p) {
      WritesReturn(s, p, n, ext, PlainRead(p, j, 1));
    } else {
      Concat(log, ext);
      ext := [];
      assert log + ext == log;
      OnlyRead(s, PlainRead(p, j, 1));
    }
    ops := Writes(p, ext);
    WritesMislead(s, c, p, ext, j);
  }

  /**
   * Exactly when fresh writes to a resident piece can lead `read` to deliver a byte that was
   * never written: when some writes to it have overlapped, a byte is still missing, and
   * either writes to it return or the counter has reached the length already.
   */
  lemma MisledExactly(s: State, c: Cache, p: int)
    requires Inv(s) && Drift(s) >= 0 && Represents(s, c) && Resident(s, p)
    ensures p in c.log
    ensures var log, n := c.log[p], c.lengths[p];
            (exists ops, j: nat :: Misled(s, p, n, log, ops, j)) <==>
            !Disjoint(log) && !Complete(log, n) && (Writable(s, p) || Written(log) >= n)
  {
    assert p in Residents(s);
    var log, n := c.log[p], c.lengths[p];
    if ops, j: nat :| Misled(s, p, n, log, ops, j) {
      MisledOnlyIf(s, c, p, ops, j);
    }
    if !Disjoint(log) && !Complete(log, n) && (Writable(s, p) || Written(log) >= n) {
      var ops, j := Mislead(s, c, p);
    }
  }

  ghost predicate TwoBytePiece(s: State) {
    && Inv(s) && Drift(s) == 0 && !Full(s) && s.reserved == {} && s.bufferSize == 2
    && |s.pieces| == 2 && s.pieces[0].length == 2 && s.pieceLength == 2
  }

  lemma WriteFirstByte(s: State)
    requires TwoBytePiece(s) && Admitted(s, 0)
    ensures var r := Step(s, Write(0, 0, [[7]]));
            && TwoBytePiece(r.s) && !r.out.Spins? && Resident(r.s, 0)
            && Content(r.s, 0) == [7, BytesOf(s, 0)[1]] && Size(r.s, 0) == Size(s, 0) + 1
  {
    assert [[7 as Byte]][..0] == [];
    assert Flatten([[7]]) == [7];
    assert Payload(s, 0, 0, [[7]]) == [7];
    WriteLands(s, 0, 0, [[7]]);
    CalmStep(s, Write(0, 0, [[7]]));
    WriteConfig(s, 0, 0, [[7]]);
  }

  /**
   * Such an error is within reach: writing the same byte of a two-byte piece twice makes a
   * read of the whole piece succeed, with a byte in it that was never written.
   */
  lemma OverlapFoolsRead(picker: Picker) returns (s: State, ops: seq<Op>)
    requires |picker.prio| == 2
    ensures s == Init(0, 2, [2, 2], picker)
    ensures ops == [Write(0, 0, [[7]]), Write(0, 0, [[7]])]
    ensures LegalRun(s, ops) && Legal(Run(s, ops), PlainRead(0, 0, 2))
    ensures Step(Run(s, ops), PlainRead(0, 0, 2)).out == Returned(2, [[7, 0]])
  {
    s := Init(0, 2, [2, 2], picker);
    var w := Write(0, 0, [[7]]);
    ops := [w, w];
    FreshIsAvailable(0, 2, [2, 2], picker);
    assert !(0 in Residents(s));
    WriteFirstByte(s);
    var s1 := Step(s, w).s;
    WriteFirstByte(s1);
    TwoSteps(s, w, w);
    var s2 := Step(s1, w).s;
    assert Content(s2, 0)[0..2] == [7, 0];
  }

  lemma TwoSteps(s: State, a: Op, b: Op)
    requires Inv(s) && Legal(s, a) && !Step(s, a).out.Spins?
    requires Inv(Step(s, a).s) && Legal(Step(s, a).s, b)
    ensures LegalRun(s, [a, b]) && Run(s, [a, b]) == Step(Step(s, a).s, b).s
  {
    var s1 := Step(s, a).s;
    StepInv(s1, b);
    assert [a, b][1..] == [b] && [b][1..] == [];
    assert LegalRun(Step(s1, b).s, []) && LegalRun(s1, [b]);
    assert Run(s1, [b]) == Run(Step(s1, b).s, []);
  }
}
