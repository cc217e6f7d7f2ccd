// Promises over a stretch of a run: reserved pieces stay, the picker is told of every
// loss, and a piece that reading has pushed out is not let back in.
module Segments {
  import opened Bytes
  import opened Model
  import opened Trimming
  import opened Effects
  import opened Runs
  import opened Ledger

  // ----- Reserved pieces -----

  /** `p` is reserved whenever an operation of the run starts. */
  ghost predicate Pinned(s: State, ops: seq<Op>, p: int)
    requires Inv(s) && LegalRun(s, ops)
    decreases |ops|
  {
    ops != [] ==> p in s.reserved && (StepInv(s, ops[0]); Pinned(Step(s, ops[0]).s, ops[1..], p))
  }

  /** The writes addressed to `p`, a piece of `length` bytes, each clipped to the piece. */
  function Own(length: nat, ops: seq<Op>, p: int): seq<Chunk> {
    if ops == [] then [] else OwnChunk(length, ops[0], p) + Own(length, ops[1..], p)
  }

  function OwnChunk(length: nat, op: Op, p: int): seq<Chunk> {
    if op.Write? && op.p == p && op.off <= length then [Chunk(op.off, Clip(Flatten(op.bufs), length - op.off))]
    else []
  }

  lemma OwnCons(before: seq<Chunk>, length: nat, ops: seq<Op>, p: int)
    requires ops != []
    ensures before + Own(length, ops, p) == (before + OwnChunk(length, ops[0], p)) + Own(length, ops[1..], p)
  {
    var one, rest := OwnChunk(length, ops[0], p), Own(length, ops[1..], p);
    assert Own(length, ops, p) == one + rest;
    assert before + (one + rest) == (before + one) + rest;
  }

  lemma CacheAppends(c: Cache, op: Op, ch: Choice, p: int)
    requires CacheOk(c) && CacheLegal(c, op) && p in c.log && p !in ch.evict
    ensures var c' := CacheStep(c, op, ch);
            p in c'.log && c'.log[p] == c.log[p] + OwnChunk(c.lengths[p], op, p)
  {
    assert c.log[p] + [] == c.log[p];
  }

  lemma PinnedStep(s: State, c: Cache, op: Op, p: int) returns (c': Cache)
    requires Inv(s) && Drift(s) >= 0 && Legal(s, op) && Represents(s, c)
    requires Resident(s, p) && p in s.reserved
    ensures Inv(Step(s, op).s) && Drift(Step(s, op).s) >= 0 && Resident(Step(s, op).s, p)
    ensures Represents(Step(s, op).s, c') && c'.lengths == c.lengths
    ensures p in c.log && p in c'.log && c'.log[p] == c.log[p] + OwnChunk(c.lengths[p], op, p)
  {
    Conservation(s, op);
    StepRefines(s, c, op);
    ChoiceIsFair(s, c, op);
    assert p in Residents(s);
    var ch := ChoiceOf(s, op);
    assert p !in ch.evict;
    CacheAppends(c, op, ch, p);
    c' := CacheStep(c, op, ch);
    assert p in Residents(Step(s, op).s);
  }

  /** `p` is resident, with the bytes and the counter that `chunks` leave. */
  ghost predicate Holds(s: State, p: int, chunks: seq<Chunk>) {
    && Resident(s, p) && s.pieceLength >= 0 && Fits(chunks, s.pieceLength)
    && Content(s, p) == Replay(s.pieceLength, chunks)
    && Size(s, p) == Written(chunks)
  }

  lemma RepresentedHolds(s: State, c: Cache, p: int)
    requires Represents(s, c) && Resident(s, p)
    ensures p in c.log && Holds(s, p, c.log[p])
  {
    assert p in Residents(s);
    FitsMore(c.log[p], c.lengths[p], c.pieceLength);
  }

  /**
   * A resident piece that stays reserved is never evicted, and its bytes and counter change
   * through the writes addressed to it and in no other way.
   */
  lemma {:induction false} PinnedResidency(s: State, c: Cache, ops: seq<Op>, p: int)
    requires Inv(s) && Drift(s) >= 0 && LegalRun(s, ops) && Represents(s, c)
    requires Resident(s, p) && Pinned(s, ops, p)
    ensures p in c.log && Holds(Run(s, ops), p, c.log[p] + Own(c.lengths[p], ops, p))
    decreases |ops|
  {
    RepresentedHolds(s, c, p);
    if ops == [] {
      assert c.log[p] + [] == c.log[p];
    } else {
      var c' := PinnedStep(s, c, ops[0], p);
      PinnedResidency(Step(s, ops[0]).s, c', ops[1..], p);
      OwnCons(c.log[p], c.lengths[p], ops, p);
    }
  }

  // ----- The picker -----

  ghost predicate Attached(s: State) {
    s.hasHandle && s.hasTorrent
  }

  /** The pieces of which libtorrent is told, in one writev, that they are gone. */
  ghost function Restored(s: State, p: int, off: nat, bufs: seq<seq<Byte>>): set<int>
    requires Inv(s) && Legal(s, Write(p, off, bufs))
  {
    Evicted(s, Write(p, off, bufs)) + (if !Resident(s, p) && !Gate(s, p) then {p} else {})
  }

  ghost predicate PickerAfter(before: Picker, after: Picker, restored: set<int>) {
    && after.have == before.have - restored
    && |after.prio| == |before.prio|
    && forall q :: 0 <= q < |before.prio| ==> after.prio[q] == if q in restored then 0 else before.prio[q]
  }

  lemma FinishPicker(s: State, p: int, n: nat)
    requires Inv(s) && Drift(s) >= 0 && 0 <= p < |s.pieces|
    ensures var s' := Finish(s, p, n).s;
            if Attached(s) then PickerAfter(s.picker, s'.picker, Residents(s) - Residents(s'))
            else s'.picker == s.picker
  {
    TrimEvicts(s, p);
    var b, r := Pick(s, p), Trim(s, p);
    if s.pieces[p].bi == -1 || s.bufferUsed < s.bufferLimit {
    } else if b == -1 {
      SameTables(s, r.s);
    } else {
      EvictSurvives(s, b, r.s.clock - 1);
      assert Resident(s, s.buffers[b].pi);
      assert Residents(s) - Residents(r.s) == {s.buffers[b].pi};
    }
  }

  lemma StoredPicker(s: State, p: int, off: nat, bufs: seq<seq<Byte>>)
    requires Inv(s) && Legal(s, Write(p, off, bufs))
    ensures var s' := Stored(s, p, off, bufs);
            && s'.hasHandle == s.hasHandle && s'.hasTorrent == s.hasTorrent
            && s'.picker == if !Resident(s, p) && !Gate(s, p) then Restore(s, p).picker else s.picker
  {
    AdmitInv(s, p);
  }

  lemma WritePicker(s: State, p: int, off: nat, bufs: seq<seq<Byte>>)
    requires Inv(s) && Drift(s) >= 0 && Legal(s, Write(p, off, bufs))
    ensures var s' := Writev(s, p, off, bufs).s;
            if Attached(s) then PickerAfter(s.picker, s'.picker, Restored(s, p, off, bufs))
            else s'.picker == s.picker
  {
    StoredDrift(s, p, off, bufs);
    StoredPicker(s, p, off, bufs);
    StoredInv(s, p, off, bufs);
    FinishPicker(Stored(s, p, off, bufs), p, |Payload(s, p, off, bufs)|);
  }

  /** Every piece the picker counts as downloaded is resident and passes the completeness test. */
  ghost predicate Agree(s: State) {
    forall p :: p in s.picker.have ==> Backed(s, p)
  }

  ghost predicate Backed(s: State, p: int) {
    Resident(s, p) && Size(s, p) >= s.pieces[p].length
  }

  /** libtorrent marks a piece only when it is complete, and keeps the torrent alive. */
  ghost predicate Honest(s: State, op: Op) {
    (op.MarkHave? ==> Backed(s, op.p)) && (op.SetHandle? ==> op.alive)
  }

  ghost predicate HonestRun(s: State, ops: seq<Op>)
    requires Inv(s) && LegalRun(s, ops)
    decreases |ops|
  {
    ops != [] ==> Honest(s, ops[0]) && (StepInv(s, ops[0]); HonestRun(Step(s, ops[0]).s, ops[1..]))
  }

  /** A writev keeps the agreement just when libtorrent hears of the eviction, or does not count on the piece. */
  lemma WriteAgrees(s: State, p: int, off: nat, bufs: seq<seq<Byte>>)
    requires Inv(s) && Drift(s) >= 0 && Legal(s, Write(p, off, bufs)) && Agree(s)
    ensures Agree(Writev(s, p, off, bufs).s) <==> Attached(s) || Evicted(s, Write(p, off, bufs)) !! s.picker.have
  {
    var op, s' := Write(p, off, bufs), Writev(s, p, off, bufs).s;
    WritePicker(s, p, off, bufs);
    WriteStepEffect(s, p, off, bufs);
    WriteConfig(s, p, off, bufs);
    forall q | q in s.picker.have && q !in Evicted(s, op) ensures Backed(s', q) {
      assert Backed(s, q);
      if q in Target(s, op) {
        WriteLands(s, p, off, bufs);
      } else {
        assert SamePiece(s, s', q);
      }
    }
    forall q | q in Evicted(s, op) ensures !Backed(s', q) {
      assert q !in Residents(s');
    }
  }

  lemma QuietAgrees(s: State, op: Op)
    requires Inv(s) && Legal(s, op) && !op.Write? && Agree(s) && Honest(s, op)
    ensures Agree(Step(s, op).s)
  {
    QuietStep(s, op);
    StepConfig(s, op);
    var s' := Step(s, op).s;
    forall q | q in s'.picker.have ensures Backed(s', q) {
      assert Backed(s, q);
      assert SamePiece(s, s', q);
    }
  }

  /** With the torrent attached, every piece counted as downloaded is there and complete. */
  lemma {:induction false} PickerAgreement(s: State, ops: seq<Op>)
    requires Inv(s) && Drift(s) >= 0 && LegalRun(s, ops) && HonestRun(s, ops)
    requires Attached(s) && Agree(s)
    ensures Attached(Run(s, ops)) && Agree(Run(s, ops))
    decreases |ops|
  {
    if ops == [] {
    } else {
      var op := ops[0];
      if op.Write? {
        WriteAgrees(s, op.p, op.off, op.bufs);
      } else {
        QuietAgrees(s, op);
      }
      StepConfig(s, op);
      Conservation(s, op);
      PickerAgreement(Step(s, op).s, ops[1..]);
    }
  }

  // ----- No readmission while reading -----

  /** Reading has begun, and `p` is out of the pool with priority zero. */
  ghost predicate Barred(s: State, p: int) {
    && 0 <= p < |s.pieces| && |s.picker.prio| == |s.pieces|
    && s.hasHandle && s.isReading && !Resident(s, p) && s.picker.prio[p] == 0
  }

  ghost predicate NeverRaised(ops: seq<Op>, p: int) {
    forall i :: 0 <= i < |ops| && ops[i].SetPrio? && ops[i].p == p ==> ops[i].v == 0
  }

  /** An eviction bars the piece that went just when reading has begun and its priority is zero afterwards. */
  lemma EvictionBars(s: State, p: int, off: nat, bufs: seq<seq<Byte>>, v: int)
    requires Inv(s) && Drift(s) >= 0 && Legal(s, Write(p, off, bufs)) && v in Evicted(s, Write(p, off, bufs))
    ensures 0 <= v < |s.picker.prio|
    ensures Barred(Writev(s, p, off, bufs).s, v) <==>
            s.hasHandle && s.isReading && (s.hasTorrent || s.picker.prio[v] == 0)
  {
    WritePicker(s, p, off, bufs);
    WriteConfig(s, p, off, bufs);
    EvictedWasThere(s, p, off, bufs, v);
  }

  lemma EvictedWasThere(s: State, p: int, off: nat, bufs: seq<seq<Byte>>, v: int)
    requires Inv(s) && Drift(s) >= 0 && Legal(s, Write(p, off, bufs)) && v in Evicted(s, Write(p, off, bufs))
    ensures 0 <= v < |s.pieces| && Inv(Writev(s, p, off, bufs).s) && !Resident(Writev(s, p, off, bufs).s, v)
  {
    WriteStepEffect(s, p, off, bufs);
    StoredEffect(s, p, off, bufs);
    WriteConfig(s, p, off, bufs);
    StoredConfig(s, p, off, bufs);
    assert v in Residents(Stored(s, p, off, bufs));
    assert v !in Residents(Writev(s, p, off, bufs).s);
  }

  lemma BarredWrite(s: State, p: int, off: nat, bufs: seq<seq<Byte>>, q: int)
    requires Inv(s) && Drift(s) >= 0 && Legal(s, Write(p, off, bufs)) && Barred(s, q)
    ensures Barred(Writev(s, p, off, bufs).s, q)
  {
    WritePicker(s, p, off, bufs);
    WriteConfig(s, p, off, bufs);
    WriteStepEffect(s, p, off, bufs);
    assert q !in Residents(s);
    assert q !in Residents(Writev(s, p, off, bufs).s);
  }

  lemma BarredStep(s: State, op: Op, p: int)
    requires Inv(s) && Drift(s) >= 0 && Legal(s, op) && Barred(s, p) && NeverRaised([op], p)
    ensures Inv(Step(s, op).s) && Barred(Step(s, op).s, p)
  {
    StepInv(s, op);
    if op.Write? {
      BarredWrite(s, op.p, op.off, op.bufs, p);
    } else {
      QuietStep(s, op);
      assert [op][0] == op;
    }
  }

  /**
   * Until its priority is raised, a barred piece stays out: each writev to it returns 0 and
   * changes nothing but libtorrent's own record of that piece.
   */
  lemma {:induction false} NoReadmission(s: State, ops: seq<Op>, p: int, off: nat, bufs: seq<seq<Byte>>)
    requires Inv(s) && Drift(s) >= 0 && LegalRun(s, ops) && Barred(s, p) && NeverRaised(ops, p)
    requires Legal(Run(s, ops), Write(p, off, bufs))
    ensures var s1 := Run(s, ops);
            && Barred(s1, p)
            && Writev(s1, p, off, bufs) == Result(Restore(s1, p), Returned(0, []))
    decreases |ops|
  {
    if ops == [] {
      RefusedWrite(s, p, off, bufs);
    } else {
      assert NeverRaised([ops[0]], p) by {
        assert [ops[0]][0] == ops[0];
      }
      assert NeverRaised(ops[1..], p) by {
        forall i | 0 <= i < |ops[1..]| ensures ops[1..][i] == ops[i + 1] {}
      }
      BarredStep(s, ops[0], p);
      Conservation(s, ops[0]);
      NoReadmission(Step(s, ops[0]).s, ops[1..], p, off, bufs);
    }
  }
}
