// The storage as a value, and every operation as a function on that value.
// Class MemoryStorage of module Storage is proved to compute these functions.
module Model {
  import opened Bytes

  datatype Piece = Piece(index: int, length: int, size: int, bi: int)

  datatype Buffer = Buffer(index: int, pi: int, used: bool, accessed: int, bytes: seq<Byte>)

  /** The part of libtorrent the storage talks to: pieces held, and piece priorities. */
  datatype Picker = Picker(have: set<int>, prio: seq<int>)

  datatype State = State(
    pieceLength: int,
    capacity: int,
    pieces: seq<Piece>,
    buffers: seq<Buffer>,
    bufferSize: int,
    bufferLimit: int,
    bufferUsed: int,
    reserved: set<int>,
    hasHandle: bool,
    hasTorrent: bool,
    isReading: bool,
    picker: Picker,
    clock: int)

  /** The bitset of reserved pieces is this much wider than the torrent. */
  const BITSET_SLACK := 10

  function PoolSize(capacity: int, pieceLength: int, pieceCount: int): int
    requires pieceLength > 0
  {
    Min(capacity / pieceLength + 2, pieceCount)
  }

  // ----- Invariant -----

  ghost predicate PieceOk(s: State, p: int)
    requires 0 <= p < |s.pieces|
  {
    var q := s.pieces[p];
    && q.index == p
    && 0 < q.length <= s.pieceLength
    && 0 <= q.size
    && -1 <= q.bi < |s.buffers|
    && (q.bi == -1 ==> q.size == 0)
    && (q.bi != -1 ==> s.buffers[q.bi].pi == p)
  }

  ghost predicate BufferOk(s: State, b: int)
    requires 0 <= b < |s.buffers|
  {
    var f := s.buffers[b];
    && f.index == b
    && |f.bytes| == s.pieceLength
    && -1 <= f.pi < |s.pieces|
    && (f.used <==> f.pi != -1)
    && (f.used ==> s.pieces[f.pi].bi == b && f.accessed < s.clock)
    // a free buffer is all zeros; a used one is zero past the end of its piece
    && forall k :: 0 <= k < |f.bytes| && (f.used ==> s.pieces[f.pi].length <= k) ==> f.bytes[k] == 0
  }

  ghost predicate Inv(s: State) {
    && s.pieceLength > 0
    && s.capacity >= 0
    && |s.picker.prio| == |s.pieces|
    && s.bufferSize == |s.buffers| == PoolSize(s.capacity, s.pieceLength, |s.pieces|)
    && s.bufferLimit <= s.bufferSize
    && (forall p :: 0 <= p < |s.pieces| ==> PieceOk(s, p))
    && (forall b :: 0 <= b < |s.buffers| ==> BufferOk(s, b))
  }

  // ----- Observations -----

  ghost predicate Resident(s: State, p: int) {
    0 <= p < |s.pieces| && s.pieces[p].bi != -1
  }

  ghost function Residents(s: State): set<int> {
    set p | 0 <= p < |s.pieces| && Resident(s, p)
  }

  ghost predicate InUse(s: State, b: int) {
    0 <= b < |s.buffers| && s.buffers[b].used
  }

  ghost function UsedBuffers(s: State): set<int> {
    set b | 0 <= b < |s.buffers| && InUse(s, b)
  }

  ghost predicate Full(s: State) {
    forall b :: 0 <= b < |s.buffers| ==> InUse(s, b)
  }

  /** The bytes of the buffer a resident piece is in. */
  ghost function Content(s: State, p: int): seq<Byte> {
    if Resident(s, p) && 0 <= s.pieces[p].bi < |s.buffers| then s.buffers[s.pieces[p].bi].bytes else []
  }

  ghost function Size(s: State, p: int): int {
    if 0 <= p < |s.pieces| then s.pieces[p].size else 0
  }

  predicate Readered(s: State, p: int) {
    s.hasHandle && 0 <= p < |s.picker.prio| ==> s.picker.prio[p] != 0
  }

  // ----- Small steps -----

  function Tick(s: State): State {
    s.(clock := s.clock + 1)
  }

  function Restore(s: State, p: int): State
    requires 0 <= p < |s.picker.prio|
  {
    if !s.hasHandle || !s.hasTorrent then s
    else s.(picker := Picker(s.picker.have - {p}, s.picker.prio[p := 0]))
  }

  /** The first free buffer at or after position `i`, or -1. */
  function FirstFree(s: State, i: int): (b: int)
    requires 0 <= i && s.bufferSize <= |s.buffers|
    ensures b == -1 || i <= b < s.bufferSize
    decreases s.bufferSize - i
  {
    if i >= s.bufferSize then -1
    else if s.buffers[i].used then FirstFree(s, i + 1)
    else i
  }

  function Assign(s: State, p: int, b: int): State
    requires 0 <= p < |s.pieces| && 0 <= b < |s.buffers|
  {
    s.(buffers := s.buffers[b := s.buffers[b].(used := true, pi := s.pieces[p].index, accessed := s.clock)],
       pieces := s.pieces[p := s.pieces[p].(bi := s.buffers[b].index)],
       bufferLimit := if s.pieces[p].index in s.reserved then s.bufferLimit - 1 else s.bufferLimit,
       bufferUsed := if s.pieces[p].index in s.reserved then s.bufferUsed else s.bufferUsed + 1,
       clock := s.clock + 1)
  }

  /** remove_piece, but for its call of restore_piece. */
  function Detach(s: State, b: int): State
    requires 0 <= b < |s.buffers| && 0 <= s.buffers[b].pi < |s.pieces|
  {
    var pi := s.buffers[b].pi;
    s.(buffers := s.buffers[b := s.buffers[b].(used := false, pi := -1, accessed := s.clock,
                                               bytes := Zeros(|s.buffers[b].bytes|))],
       pieces := s.pieces[pi := s.pieces[pi].(bi := -1, size := 0)],
       bufferUsed := s.bufferUsed - 1,
       clock := s.clock + 1)
  }

  function Evict(s: State, b: int): State
    requires 0 <= b < |s.buffers|
    requires 0 <= s.buffers[b].pi < |s.pieces| == |s.picker.prio|
  {
    Restore(Detach(s, b), s.buffers[b].pi)
  }

  /** Marks the buffer of a resident piece as accessed now. */
  function Touch(s: State, p: int): State
    requires 0 <= p < |s.pieces| && 0 <= s.pieces[p].bi < |s.buffers|
  {
    var b := s.pieces[p].bi;
    s.(buffers := s.buffers[b := s.buffers[b].(accessed := s.clock)], clock := s.clock + 1)
  }

  function Store(s: State, p: int, off: nat, data: seq<Byte>): State
    requires 0 <= p < |s.pieces| && 0 <= s.pieces[p].bi < |s.buffers|
    requires off + |data| <= |s.buffers[s.pieces[p].bi].bytes|
  {
    var b := s.pieces[p].bi;
    Touch(s.(buffers := s.buffers[b := s.buffers[b].(bytes := Overwrite(s.buffers[b].bytes, off, data))],
             pieces := s.pieces[p := s.pieces[p].(size := s.pieces[p].size + |data|)]), p)
  }

  // ----- Choosing a victim -----

  predicate Evictable(s: State, keep: int, b: int)
    requires 0 <= b < |s.buffers|
  {
    s.buffers[b].used && s.buffers[b].pi != -1 && s.buffers[b].pi !in s.reserved && s.buffers[b].pi != keep
  }

  predicate Candidate(s: State, keep: int, checkRead: bool, b: int)
    requires 0 <= b < |s.buffers|
  {
    Evictable(s, keep, b) && (!checkRead || !Readered(s, s.buffers[b].pi))
  }

  /** find_last_buffer over the first `n` buffers, started at time `t`. */
  function Oldest(s: State, keep: int, checkRead: bool, t: int, n: nat): (b: int)
    requires n <= |s.buffers|
    ensures -1 <= b < n
  {
    if n == 0 then -1 else
      var best := Oldest(s, keep, checkRead, t, n - 1);
      var bound := if best == -1 then t else s.buffers[best].accessed;
      if Candidate(s, keep, checkRead, n - 1) && s.buffers[n - 1].accessed < bound then n - 1 else best
  }

  // ----- trim -----

  datatype Trimmed = Trimmed(s: State, spins: bool)

  /** One iteration of trim's loop.  `spins` says that neither scan found a victim. */
  function TrimBody(s: State, keep: int): (r: Trimmed)
    requires Inv(s)
  {
    var b1 := Oldest(s, keep, true, s.clock, |s.buffers|);
    if b1 != -1 then
      OldestIsCandidate(s, keep, true, s.clock, |s.buffers|);
      Trimmed(Evict(Tick(s), b1), false)
    else
      var b2 := Oldest(s, keep, false, s.clock + 1, |s.buffers|);
      if b2 != -1 then
        OldestIsCandidate(s, keep, false, s.clock + 1, |s.buffers|);
        Trimmed(Evict(Tick(Tick(s)), b2), false)
      else
        Trimmed(Tick(Tick(s)), true)
  }

  /** trim's loop.  The source never leaves it once an iteration finds no victim; that is `spins`. */
  function TrimLoop(s: State, keep: int): Trimmed
    requires Inv(s)
    decreases |UsedBuffers(s)|
  {
    if s.bufferUsed < s.bufferLimit then Trimmed(s, false) else
      var r := TrimBody(s, keep);
      if r.spins then r else
        TrimBodyInv(s, keep);
        TrimLoop(r.s, keep)
  }

  function Trim(s: State, keep: int): Trimmed
    requires Inv(s)
  {
    if s.capacity < 0 || s.bufferUsed < s.bufferLimit then Trimmed(s, false) else TrimLoop(s, keep)
  }

  // ----- Operations -----

  datatype Op =
    | Write(p: int, off: nat, bufs: seq<seq<Byte>>)   // writev
    | VectorRead(p: int, off: nat, lens: seq<nat>)
    | PlainRead(p: int, off: nat, size: nat)
    | Resize(m: int)                                  // set_memory_size
    | Reserve(list: seq<int>)                         // update_reserved_pieces
    | SetHandle(alive: bool)                          // set_torrent_handle
    | MarkHave(p: int)                                // libtorrent marks a piece as downloaded
    | SetPrio(p: int, v: int)                         // libtorrent changes a piece priority

  /** Returned(n, bytes): the call returns n and the caller's buffers receive `bytes`. */
  datatype Output = Returned(n: int, bytes: seq<seq<Byte>>) | Spins

  datatype Result = Result(s: State, out: Output)

  ghost predicate Legal(s: State, op: Op) {
    match op
    case Write(p, off, _) => 0 <= p < |s.pieces| && off <= s.pieces[p].length
    case VectorRead(p, off, _) => 0 <= p < |s.pieces| && off <= s.pieceLength
    case PlainRead(p, _, _) => 0 <= p < |s.pieces|
    case Reserve(list) => forall i :: i in list ==> 0 <= i < |s.pieces| + BITSET_SLACK
    case MarkHave(p) => 0 <= p < |s.pieces|
    case SetPrio(p, _) => 0 <= p < |s.pieces|
    case _ => true
  }

  /** get_buffer(p, true). */
  function Admit(s: State, p: int): State
    requires Inv(s) && 0 <= p < |s.pieces|
  {
    if s.pieces[p].bi != -1 then s
    else if s.isReading && !Readered(s, p) then Restore(s, p)
    else
      var b := FirstFree(s, 0);
      if b == -1 then s else Assign(s, p, b)
  }

  /** What a writev at `off` actually stores. */
  function Payload(s: State, p: int, off: nat, bufs: seq<seq<Byte>>): seq<Byte>
    requires 0 <= p < |s.pieces| && off <= s.pieces[p].length
  {
    Clip(Flatten(bufs), s.pieces[p].length - off)
  }

  /** writev before its call of trim. */
  function Stored(s: State, p: int, off: nat, bufs: seq<seq<Byte>>): State
    requires Inv(s) && 0 <= p < |s.pieces| && off <= s.pieces[p].length
  {
    AdmitInv(s, p);
    var s1 := Admit(s, p);
    assert PieceOk(s1, p) && PieceOk(s, p);
    if s1.pieces[p].bi == -1 then s1 else
      assert BufferOk(s1, s1.pieces[p].bi);
      Store(s1, p, off, Payload(s, p, off, bufs))
  }

  /** The rest of a writev that has stored `n` bytes of `p`, if `p` has a buffer. */
  function Finish(s: State, p: int, n: nat): Result
    requires Inv(s) && 0 <= p < |s.pieces|
  {
    if s.pieces[p].bi == -1 then Result(s, Returned(0, []))
    else if s.bufferUsed < s.bufferLimit then Result(s, Returned(n, []))
    else
      var r := Trim(s, p);
      Result(r.s, if r.spins then Spins else Returned(n, []))
  }

  function Writev(s: State, p: int, off: nat, bufs: seq<seq<Byte>>): Result
    requires Inv(s) && 0 <= p < |s.pieces| && off <= s.pieces[p].length
  {
    StoredInv(s, p, off, bufs);
    Finish(Stored(s, p, off, bufs), p, |Payload(s, p, off, bufs)|)
  }

  function Readv(s: State, p: int, off: nat, lens: seq<nat>): Result
    requires Inv(s) && 0 <= p < |s.pieces| && off <= s.pieceLength
  {
    assert PieceOk(s, p);
    var b := s.pieces[p].bi;
    if b == -1 then Result(s, Returned(0, [])) else
      assert BufferOk(s, b);
      var got := Scatter(s.buffers[b].bytes[off..], lens);
      Result(Touch(s, p), Returned(|Flatten(got)|, got))
  }

  /** read of a piece that is resident and passes the completeness test. */
  function ReadComplete(s: State, p: int, off: nat, size: nat): Result
    requires Inv(s) && 0 <= p < |s.pieces| && s.pieces[p].bi != -1
  {
    assert PieceOk(s, p) && BufferOk(s, s.pieces[p].bi);
    if off >= s.pieceLength then Result(s, Returned(0, []))
    else Result(Touch(s, p),
                Returned(size, [s.buffers[s.pieces[p].bi].bytes[off..off + Min(s.pieceLength - off, size)]]))
  }

  /** read, once it has noted that reading has begun. */
  function ReadOn(s: State, p: int, off: nat, size: nat): Result
    requires Inv(s) && 0 <= p < |s.pieces|
  {
    if s.pieces[p].bi == -1 || s.pieces[p].size < s.pieces[p].length then Result(Restore(s, p), Returned(-1, []))
    else ReadComplete(s, p, off, size)
  }

  function Read(s: State, p: int, off: nat, size: nat): Result
    requires Inv(s) && 0 <= p < |s.pieces|
  {
    var s1 := s.(isReading := true);
    SameTables(s, s1);
    ReadOn(s1, p, off, size)
  }

  function FreshBuffers(from: int, to: int, length: nat): (r: seq<Buffer>)
    requires 0 <= from <= to
    ensures |r| == to - from
    ensures forall i :: 0 <= i < |r| ==> r[i] == Buffer(from + i, -1, false, 0, Zeros(length))
  {
    seq(to - from, i => Buffer(from + i, -1, false, 0, Zeros(length)))
  }

  function SetMemorySize(s: State, m: int): State
    requires Inv(s)
  {
    if m <= s.capacity then s else
      var n := PoolSize(m, s.pieceLength, |s.pieces|);
      PoolSizeGrows(s.capacity, m, s.pieceLength, |s.pieces|);
      s.(capacity := m, bufferSize := n, bufferLimit := n,
         buffers := s.buffers + FreshBuffers(s.bufferSize, n, s.pieceLength))
  }

  function Step(s: State, op: Op): Result
    requires Inv(s) && Legal(s, op)
  {
    match op
    case Write(p, off, bufs) => Writev(s, p, off, bufs)
    case VectorRead(p, off, lens) => Readv(s, p, off, lens)
    case PlainRead(p, off, size) => Read(s, p, off, size)
    case Resize(m) => Result(SetMemorySize(s, m), Returned(0, []))
    case Reserve(list) => Result(s.(reserved := set i | i in list), Returned(0, []))
    case SetHandle(alive) => Result(s.(hasHandle := true, hasTorrent := alive), Returned(0, []))
    case MarkHave(p) => Result(s.(picker := s.picker.(have := s.picker.have + {p})), Returned(0, []))
    case SetPrio(p, v) => Result(s.(picker := s.picker.(prio := s.picker.prio[p := v])), Returned(0, []))
  }

  function NewPieces(lengths: seq<int>): (r: seq<Piece>)
    ensures |r| == |lengths|
    ensures forall i :: 0 <= i < |r| ==> r[i] == Piece(i, lengths[i], 0, -1)
  {
    seq(|lengths|, i requires 0 <= i < |lengths| => Piece(i, lengths[i], 0, -1))
  }

  /** What the constructor is given: a budget, and the torrent's metadata. */
  ghost predicate Metadata(capacity: int, pieceLength: int, lengths: seq<int>, picker: Picker) {
    && capacity >= 0 && pieceLength > 0 && |picker.prio| == |lengths|
    && forall i :: 0 <= i < |lengths| ==> 0 < lengths[i] <= pieceLength
  }

  function Init(capacity: int, pieceLength: int, lengths: seq<int>, picker: Picker): (s: State)
    requires Metadata(capacity, pieceLength, lengths, picker)
    ensures Inv(s) && UsedBuffers(s) == {} && Residents(s) == {}
  {
    PoolSizeGrows(0, capacity, pieceLength, |lengths|);
    var n := PoolSize(capacity, pieceLength, |lengths|);
    var s := State(pieceLength, capacity, NewPieces(lengths), FreshBuffers(0, n, pieceLength),
                   n, n, 0, {}, false, false, false, picker, 0);
    assert forall p :: 0 <= p < |s.pieces| ==> PieceOk(s, p) && !Resident(s, p);
    assert forall b :: 0 <= b < |s.buffers| ==> BufferOk(s, b) && !InUse(s, b);
    s
  }

  // ----- The small steps keep the invariant -----

  lemma PoolSizeGrows(m: int, m': int, pieceLength: int, count: nat)
    requires pieceLength > 0 && 0 <= m <= m'
    ensures 0 <= PoolSize(m, pieceLength, count) <= PoolSize(m', pieceLength, count)
  {
    QuotientGrows(m, m', pieceLength);
  }

  lemma QuotientGrows(m: int, m': int, d: int)
    requires d > 0 && 0 <= m <= m'
    ensures 0 <= m / d <= m' / d
  {
    var q, q' := m / d, m' / d;
    assert m == q * d + m % d && m' == q' * d + m' % d;
    assert (q' - q) * d > -d;
    if q' < q {
      ProductSign(q' - q + 1, d);
    }
  }

  lemma ProductSign(a: int, d: int)
    requires a <= 0 < d
    ensures a * d <= 0
  {
  }

  lemma OldestIsCandidate(s: State, keep: int, checkRead: bool, t: int, n: nat)
    requires Inv(s) && n <= |s.buffers|
    ensures var b := Oldest(s, keep, checkRead, t, n);
            b != -1 ==> BufferOk(s, b) && Candidate(s, keep, checkRead, b)
  {
    OldestQualifies(s, keep, checkRead, t, n);
  }

  lemma OldestQualifies(s: State, keep: int, checkRead: bool, t: int, n: nat)
    requires n <= |s.buffers|
    ensures var b := Oldest(s, keep, checkRead, t, n); b != -1 ==> Candidate(s, keep, checkRead, b)
  {
  }

  lemma RestoreInv(s: State, p: int)
    requires Inv(s) && 0 <= p < |s.pieces|
    ensures Inv(Restore(s, p))
    ensures UsedBuffers(Restore(s, p)) == UsedBuffers(s)
  {
    SameTables(s, Restore(s, p));
  }

  /** Only pieces, buffers, sizes and the clock matter to the invariant. */
  lemma SameTables(s: State, s': State)
    requires Inv(s)
    requires s'.pieceLength == s.pieceLength && s'.capacity == s.capacity
    requires s'.pieces == s.pieces && s'.buffers == s.buffers
    requires s'.bufferSize == s.bufferSize && s'.bufferLimit == s.bufferLimit
    requires s'.clock >= s.clock && |s'.picker.prio| == |s.picker.prio|
    ensures Inv(s') && UsedBuffers(s') == UsedBuffers(s) && Residents(s') == Residents(s)
  {
    forall p | 0 <= p < |s'.pieces| ensures PieceOk(s', p) {
      assert PieceOk(s, p);
    }
    forall b | 0 <= b < |s'.buffers| ensures BufferOk(s', b) {
      assert BufferOk(s, b);
    }
    assert forall b :: 0 <= b < |s.buffers| ==> (InUse(s', b) <==> InUse(s, b));
    assert forall p :: 0 <= p < |s.pieces| ==> (Resident(s', p) <==> Resident(s, p));
  }

  lemma AssignInv(s: State, p: int, b: int)
    requires Inv(s) && 0 <= p < |s.pieces| && s.pieces[p].bi == -1
    requires 0 <= b < |s.buffers| && !s.buffers[b].used
    ensures Inv(Assign(s, p, b))
    ensures UsedBuffers(Assign(s, p, b)) == UsedBuffers(s) + {b}
    ensures Residents(Assign(s, p, b)) == Residents(s) + {p}
  {
    var s' := Assign(s, p, b);
    assert PieceOk(s, p) && BufferOk(s, b);
    forall q | 0 <= q < |s'.pieces| ensures PieceOk(s', q) {
      assert PieceOk(s, q);
    }
    forall c | 0 <= c < |s'.buffers| ensures BufferOk(s', c) {
      assert BufferOk(s, c);
    }
    assert forall c :: 0 <= c < |s.buffers| ==> (InUse(s', c) <==> c == b || InUse(s, c));
    assert forall q :: 0 <= q < |s.pieces| ==> (Resident(s', q) <==> q == p || Resident(s, q));
  }

  lemma EvictInv(s: State, b: int)
    requires Inv(s) && 0 <= b < |s.buffers| && s.buffers[b].used
    ensures BufferOk(s, b)
    ensures Inv(Evict(s, b))
    ensures UsedBuffers(Evict(s, b)) == UsedBuffers(s) - {b}
    ensures Residents(Evict(s, b)) == Residents(s) - {s.buffers[b].pi}
  {
    assert BufferOk(s, b);
    var s' := Evict(s, b);
    forall q | 0 <= q < |s'.pieces| ensures PieceOk(s', q) {
      assert PieceOk(s, q);
    }
    forall c | 0 <= c < |s'.buffers| ensures BufferOk(s', c) {
      assert BufferOk(s, c);
    }
    assert forall c :: 0 <= c < |s.buffers| ==> (InUse(s', c) <==> c != b && InUse(s, c));
    assert forall q :: 0 <= q < |s.pieces| ==> (Resident(s', q) <==> q != s.buffers[b].pi && Resident(s, q));
  }

  lemma TouchInv(s: State, p: int)
    requires Inv(s) && Resident(s, p)
    ensures PieceOk(s, p) && BufferOk(s, s.pieces[p].bi)
    ensures Inv(Touch(s, p))
    ensures UsedBuffers(Touch(s, p)) == UsedBuffers(s)
  {
    assert PieceOk(s, p);
    var s' := Touch(s, p);
    forall q | 0 <= q < |s'.pieces| ensures PieceOk(s', q) {
      assert PieceOk(s, q);
    }
    forall c | 0 <= c < |s'.buffers| ensures BufferOk(s', c) {
      assert BufferOk(s, c);
    }
    assert BufferOk(s, s.pieces[p].bi);
    assert forall c :: 0 <= c < |s.buffers| ==> (InUse(s', c) <==> InUse(s, c));
  }

  lemma StoreInv(s: State, p: int, off: nat, data: seq<Byte>)
    requires Inv(s) && Resident(s, p) && off + |data| <= s.pieces[p].length
    ensures PieceOk(s, p) && BufferOk(s, s.pieces[p].bi)
    ensures Inv(Store(s, p, off, data))
    ensures UsedBuffers(Store(s, p, off, data)) == UsedBuffers(s)
    ensures Residents(Store(s, p, off, data)) == Residents(s)
  {
    assert PieceOk(s, p) && BufferOk(s, s.pieces[p].bi);
    var s' := Store(s, p, off, data);
    forall q | 0 <= q < |s'.pieces| ensures PieceOk(s', q) {
      assert PieceOk(s, q);
    }
    forall c | 0 <= c < |s'.buffers| ensures BufferOk(s', c) {
      assert BufferOk(s, c);
    }
    assert forall c :: 0 <= c < |s.buffers| ==> (InUse(s', c) <==> InUse(s, c));
    assert forall q :: 0 <= q < |s.pieces| ==> (Resident(s', q) <==> Resident(s, q));
  }

  lemma AdmitInv(s: State, p: int)
    requires Inv(s) && 0 <= p < |s.pieces|
    ensures Inv(Admit(s, p))
  {
    var b := FirstFree(s, 0);
    FirstFreeIsFree(s, 0);
    if s.pieces[p].bi != -1 {
    } else if s.isReading && !Readered(s, p) {
      RestoreInv(s, p);
    } else if b != -1 {
      AssignInv(s, p, b);
    }
  }

  /** The scan finds the lowest-numbered free buffer, and reports -1 only when there is none. */
  lemma FirstFreeIsFree(s: State, i: int)
    requires 0 <= i && s.bufferSize <= |s.buffers|
    ensures var b := FirstFree(s, i);
            && (b != -1 ==> !s.buffers[b].used)
            && (forall j :: i <= j < (if b == -1 then s.bufferSize else b) ==> s.buffers[j].used)
    decreases s.bufferSize - i
  {
  }

  lemma StoredInv(s: State, p: int, off: nat, bufs: seq<seq<Byte>>)
    requires Inv(s) && 0 <= p < |s.pieces| && off <= s.pieces[p].length
    ensures Inv(Stored(s, p, off, bufs)) && |Stored(s, p, off, bufs).pieces| == |s.pieces|
  {
    AdmitInv(s, p);
    if Admit(s, p).pieces[p].bi != -1 {
      StoreInv(Admit(s, p), p, off, Payload(s, p, off, bufs));
    }
  }

  lemma TrimBodyInv(s: State, keep: int)
    requires Inv(s)
    ensures Inv(TrimBody(s, keep).s)
    ensures !TrimBody(s, keep).spins ==> |UsedBuffers(TrimBody(s, keep).s)| < |UsedBuffers(s)|
  {
    SameTables(s, Tick(s));
    SameTables(s, Tick(Tick(s)));
    var b1 := Oldest(s, keep, true, s.clock, |s.buffers|);
    var b2 := Oldest(s, keep, false, s.clock + 1, |s.buffers|);
    OldestIsCandidate(s, keep, true, s.clock, |s.buffers|);
    OldestIsCandidate(s, keep, false, s.clock + 1, |s.buffers|);
    if b1 != -1 {
      EvictInv(Tick(s), b1);
      assert InUse(s, b1);
    } else if b2 != -1 {
      EvictInv(Tick(Tick(s)), b2);
      assert InUse(s, b2);
    }
  }

  lemma {:induction false} TrimLoopInv(s: State, keep: int)
    requires Inv(s)
    ensures Inv(TrimLoop(s, keep).s)
    decreases |UsedBuffers(s)|
  {
    if s.bufferUsed < s.bufferLimit {
    } else {
      TrimBodyInv(s, keep);
      if !TrimBody(s, keep).spins {
        TrimLoopInv(TrimBody(s, keep).s, keep);
      }
    }
  }

  lemma ResizeInv(s: State, m: int)
    requires Inv(s)
    ensures Inv(SetMemorySize(s, m))
    ensures UsedBuffers(SetMemorySize(s, m)) == UsedBuffers(s)
  {
    var s' := SetMemorySize(s, m);
    if m > s.capacity {
      PoolSizeGrows(s.capacity, m, s.pieceLength, |s.pieces|);
      forall q | 0 <= q < |s'.pieces| ensures PieceOk(s', q) {
        assert PieceOk(s, q);
      }
      forall c | 0 <= c < |s'.buffers| ensures BufferOk(s', c) {
        assert c < |s.buffers| ==> BufferOk(s, c);
      }
      assert forall c :: 0 <= c < |s'.buffers| ==> (InUse(s', c) <==> InUse(s, c));
    }
  }

  /** Every operation, whatever its arguments, keeps the two tables consistent. */
  lemma StepInv(s: State, op: Op)
    requires Inv(s) && Legal(s, op)
    ensures Inv(Step(s, op).s)
  {
    match op
    case Write(p, off, bufs) =>
      StoredInv(s, p, off, bufs);
      TrimLoopInv(Stored(s, p, off, bufs), p);
    case VectorRead(p, off, lens) =>
      if s.pieces[p].bi != -1 { TouchInv(s, p); }
    case PlainRead(p, off, size) =>
      var s1 := s.(isReading := true);
      SameTables(s, s1);
      RestoreInv(s1, p);
      if s.pieces[p].bi != -1 { TouchInv(s1, p); }
    case Resize(m) => ResizeInv(s, m);
    case Reserve(list) => SameTables(s, Step(s, op).s);
    case SetHandle(alive) => SameTables(s, Step(s, op).s);
    case MarkHave(p) => SameTables(s, Step(s, op).s);
    case SetPrio(p, v) => SameTables(s, Step(s, op).s);
  }
}
