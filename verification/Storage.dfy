// The storage as the program has it: objects whose methods update fields, loops, byte
// arrays.  Every method is proved to compute its function of module Model.
module Storage {
  import opened Bytes
  import opened Model

  class MemoryPiece {
    const index: int
    const length: int
    var size: int
    var bi: int

    constructor (index: int, length: int)
      ensures Value() == Piece(index, length, 0, -1)
    {
      this.index, this.length := index, length;
      size, bi := 0, -1;
    }

    ghost function Value(): Piece
      reads this
    {
      Piece(index, length, size, bi)
    }

    predicate IsBuffered()
      reads this
    {
      bi != -1
    }

    method Reset()
      modifies this
      ensures Value() == old(Value()).(bi := -1, size := 0)
    {
      bi := -1;
      size := 0;
    }
  }

  class MemoryBuffer {
    const index: int
    const buffer: array<Byte>
    var pi: int
    var isUsed: bool
    var accessed: int

    constructor (index: int, length: nat)
      ensures fresh(buffer)
      ensures Value() == Buffer(index, -1, false, 0, Zeros(length))
    {
      this.index := index;
      pi, isUsed, accessed := -1, false, 0;
      buffer := new Byte[length](_ => 0);
      new;
      assert buffer[..] == Zeros(length);
    }

    ghost function Value(): Buffer
      reads this, buffer
    {
      Buffer(index, pi, isUsed, accessed, buffer[..])
    }

    predicate IsAssigned()
      reads this
    {
      pi != -1
    }

    method Reset(now: int)
      modifies this, buffer
      ensures Value() == old(Value()).(used := false, pi := -1, accessed := now, bytes := Zeros(|old(Value()).bytes|))
    {
      isUsed := false;
      pi := -1;
      accessed := now;
      for i := 0 to buffer.Length
        modifies buffer
        invariant forall k :: 0 <= k < i ==> buffer[k] == 0
      {
        buffer[i] := 0;
      }
      assert buffer[..] == Zeros(buffer.Length);
    }
  }

  /** The torrent as the storage sees it: which pieces it counts as held, and their priorities. */
  class Torrent {
    var have: set<int>
    var prio: seq<int>

    method SetPiecePriority(p: int, v: int)
      requires 0 <= p < |prio|
      modifies this
      ensures prio == old(prio)[p := v] && have == old(have)
    {
      prio := prio[p := v];
    }

    method WeDontHave(p: int)
      modifies this
      ensures have == old(have) - {p} && prio == old(prio)
    {
      have := have - {p};
    }
  }

  ghost function Arrays(bs: seq<MemoryBuffer>): set<object> {
    set b | b in bs :: b.buffer
  }

  /** No buffer occurs twice, and no two share an array. */
  ghost predicate Distinct(bs: seq<MemoryBuffer>) {
    forall i, j :: 0 <= i < j < |bs| ==> bs[i] != bs[j] && bs[i].buffer != bs[j].buffer
  }

  lemma DistinctConcat(a: seq<MemoryBuffer>, b: seq<MemoryBuffer>)
    requires Distinct(a) && Distinct(b)
    requires forall i, j :: 0 <= i < |a| && 0 <= j < |b| ==> a[i] != b[j] && a[i].buffer != b[j].buffer
    ensures Distinct(a + b)
  {
    var c := a + b;
    forall i, j | 0 <= i < j < |c| ensures c[i] != c[j] && c[i].buffer != c[j].buffer {
      if i < |a| <= j {
        assert a[i] != b[j - |a|];
      } else if |a| <= i {
        assert b[i - |a|] != b[j - |a|];
      }
    }
  }

  class MemoryStorage {
    const pieceLength: int
    const pieces: seq<MemoryPiece>
    const torrent: Torrent        // the torrent this storage belongs to
    var capacity: int
    var bufferSize: int
    var bufferLimit: int
    var bufferUsed: int
    var buffers: seq<MemoryBuffer>
    var reservedPieces: set<int>
    var mHandle: Torrent?         // set by SetTorrentHandle
    var t: Torrent?               // null when the handle has no torrent behind it
    var isReading: bool
    var clock: int                // read by Now

    ghost var pieceView: seq<Piece>    // the values of `pieces`
    ghost var bufferView: seq<Buffer>  // and of `buffers`

    ghost function Abs(): State
      reads this, torrent
    {
      State(pieceLength, capacity, pieceView, bufferView,
            bufferSize, bufferLimit, bufferUsed, reservedPieces,
            mHandle != null, t != null, isReading, Picker(torrent.have, torrent.prio), clock)
    }

    /** The views show the objects. */
    ghost predicate Shown()
      reads `buffers, `pieceView, `bufferView, pieces, buffers, Arrays(buffers)
    {
      && |pieceView| == |pieces| && |bufferView| == |buffers|
      && (forall i :: 0 <= i < |pieces| ==> pieceView[i] == pieces[i].Value())
      && (forall i :: 0 <= i < |buffers| ==> bufferView[i] == buffers[i].Value())
    }

    /** No object plays two parts. */
    ghost predicate Separate()
      reads `buffers, `mHandle, `t
    {
      && (forall i, j :: 0 <= i < j < |pieces| ==> pieces[i] != pieces[j])
      && Distinct(buffers)
      && (mHandle == null || mHandle == torrent) && (t == null || t == torrent)
    }

    ghost predicate Valid()
      reads this, pieces, buffers, Arrays(buffers), torrent
    {
      Separate() && Shown() && Inv(Abs())
    }

    constructor (memorySize: int, pieceLength: int, lengths: seq<int>, torrent: Torrent)
      requires Metadata(memorySize, pieceLength, lengths, Picker(torrent.have, torrent.prio))
      // Init satisfies Inv, so the new storage is Valid
      ensures Separate() && Shown() && this.torrent == torrent
      ensures fresh(set p | p in pieces) && fresh(set b | b in buffers) && fresh(Arrays(buffers))
      ensures Abs() == Init(memorySize, pieceLength, lengths, Picker(torrent.have, torrent.prio))
    {
      PoolSizeGrows(0, memorySize, pieceLength, |lengths|);
      this.pieceLength, this.torrent := pieceLength, torrent;
      capacity := memorySize;
      var size := Min(memorySize / pieceLength + 2, |lengths|);
      bufferSize, bufferLimit, bufferUsed := size, size, 0;
      reservedPieces, mHandle, t, isReading, clock := {}, null, null, false, 0;
      var ps := NewMemoryPieces(lengths);
      var bs := NewMemoryBuffers(0, size, pieceLength);
      pieces, buffers := ps, bs;
      pieceView, bufferView := NewPieces(lengths), FreshBuffers(0, size, pieceLength);
    }

    // ----- Primitives -----

    method Now() returns (now: int)
      modifies `clock
      ensures now == old(clock) && clock == old(clock) + 1
    {
      now := clock;
      clock := clock + 1;
    }

    predicate IsReserved(index: int)
      reads this
    {
      index in reservedPieces
    }

    predicate IsReadered(index: int)
      requires mHandle != null ==> 0 <= index < |mHandle.prio|
      reads this, mHandle
    {
      if mHandle == null then true else mHandle.prio[index] != 0
    }

    method RestorePiece(pi: int)
      requires (t == null || t == torrent) && 0 <= pi < |torrent.prio|
      modifies torrent
      ensures Abs() == Restore(old(Abs()), pi)
    {
      if mHandle == null || t == null {
        return;
      }
      t.SetPiecePriority(pi, 0);
      t.WeDontHave(pi);
    }

    method RemovePiece(bi: int)
      requires Separate() && Shown() && 0 <= bi < |buffers|
      requires 0 <= bufferView[bi].pi < |pieces| == |torrent.prio|
      modifies `bufferUsed, `clock, `pieceView, `bufferView
      modifies buffers[bi], buffers[bi].buffer, pieces[bufferView[bi].pi], torrent
      ensures Shown() && Abs() == Evict(old(Abs()), bi)
    {
      var pi := Detach(bi);
      if pi != -1 && pi < |pieces| {
        RestorePiece(pi);
      }
    }

    /** remove_piece, but for its call of restore_piece: the two tables and the counter. */
    method Detach(bi: int) returns (pi: int)
      requires Separate() && Shown() && 0 <= bi < |buffers| && 0 <= bufferView[bi].pi < |pieces|
      modifies `bufferUsed, `clock, `pieceView, `bufferView
      modifies buffers[bi], buffers[bi].buffer, pieces[bufferView[bi].pi]
      ensures pi == old(bufferView)[bi].pi
      ensures Shown() && Abs() == Model.Detach(old(Abs()), bi)
    {
      pi := FreeBuffer(bi);
      if pi != -1 && pi < |pieces| {
        ResetPiece(pi);
      }
    }

    method FreeBuffer(bi: int) returns (pi: int)
      requires Separate() && Shown() && 0 <= bi < |buffers|
      modifies `bufferUsed, `clock, `bufferView, buffers[bi], buffers[bi].buffer
      ensures pi == old(bufferView)[bi].pi
      ensures Shown()
      ensures var s := old(Abs());
              var f := s.buffers[bi];
              Abs() == s.(buffers := s.buffers[bi := f.(used := false, pi := -1, accessed := s.clock,
                                                        bytes := Zeros(|f.bytes|))],
                          bufferUsed := s.bufferUsed - 1, clock := s.clock + 1)
    {
      assert bufferView[bi] == buffers[bi].Value();
      pi := buffers[bi].pi;
      var now := Now();
      ResetBuffer(bi, now);
      bufferUsed := bufferUsed - 1;
    }

    method ResetBuffer(b: int, now: int)
      requires Separate() && Shown() && 0 <= b < |buffers|
      modifies `bufferView, buffers[b], buffers[b].buffer
      ensures Shown()
      ensures var s := old(Abs());
              var f := s.buffers[b];
              Abs() == s.(buffers := s.buffers[b := f.(used := false, pi := -1, accessed := now,
                                                       bytes := Zeros(|f.bytes|))])
    {
      assert bufferView[b] == buffers[b].Value();
      buffers[b].Reset(now);
      bufferView := bufferView[b := buffers[b].Value()];
    }

    method ResetPiece(p: int)
      requires Separate() && Shown() && 0 <= p < |pieces|
      modifies `pieceView, pieces[p]
      ensures Shown()
      ensures var s := old(Abs()); Abs() == s.(pieces := s.pieces[p := s.pieces[p].(bi := -1, size := 0)])
    {
      assert pieceView[p] == pieces[p].Value();
      pieces[p].Reset();
      pieceView := pieceView[p := pieces[p].Value()];
    }

    // ----- Choosing and removing a victim -----

    /** What the scan needs to look up priorities. */
    ghost predicate PriosKnown()
      reads `bufferView, torrent
    {
      forall i :: 0 <= i < |bufferView| && bufferView[i].used && bufferView[i].pi != -1 ==>
        0 <= bufferView[i].pi < |torrent.prio|
    }

    /** Positions are indices. */
    ghost predicate InOrder()
      reads `bufferView
    {
      forall i :: 0 <= i < |bufferView| ==> bufferView[i].index == i
    }

    method FindLastBuffer(pi: int, checkRead: bool) returns (bi: int)
      requires Separate() && Shown() && PriosKnown() && InOrder()
      modifies `clock
      ensures Shown() && Abs() == Tick(old(Abs()))
      ensures bi == Oldest(old(Abs()), pi, checkRead, old(clock), |buffers|)
    {
      ghost var s := Abs();
      bi := -1;
      var minTime := Now();
      for i := 0 to |buffers|
        invariant Shown() && Abs() == Tick(s)
        invariant bi == Oldest(s, pi, checkRead, s.clock, i)
        invariant minTime == if bi == -1 then s.clock else s.buffers[bi].accessed
      {
        assert s.buffers[i] == buffers[i].Value();
        if buffers[i].isUsed && buffers[i].IsAssigned() && !IsReserved(buffers[i].pi) && buffers[i].pi != pi
           && (!checkRead || !IsReadered(buffers[i].pi)) && buffers[i].accessed < minTime
        {
          bi := buffers[i].index;
          minTime := buffers[i].accessed;
        }
      }
    }

    /**
     * The two scans: pieces without priority first, then all.  (The source makes the first only
     * if the bitset of reader pieces has a width; it always has, at least BITSET_SLACK.)
     */
    method FindVictim(pi: int) returns (bi: int)
      requires Separate() && Shown() && PriosKnown() && InOrder()
      modifies `clock
      ensures Shown()
      ensures var u := old(Abs());
              var b1 := Oldest(u, pi, true, u.clock, |u.buffers|);
              var b2 := Oldest(Tick(u), pi, false, u.clock + 1, |u.buffers|);
              if b1 != -1 then bi == b1 && Abs() == Tick(u) else bi == b2 && Abs() == Tick(Tick(u))
    {
      bi := FindLastBuffer(pi, true);
      if bi == -1 {
        bi := FindLastBuffer(pi, false);
      }
    }

    /** The two scans, in terms of the iteration they are part of. */
    method FindNext(pi: int, ghost u: State) returns (bi: int)
      requires Separate() && Shown() && u == Abs() && Inv(u)
      modifies `clock
      ensures Shown()
      ensures bi == -1 ==> TrimBody(u, pi) == Trimmed(Abs(), true)
      ensures bi != -1 ==>
                && 0 <= bi < |buffers| && 0 <= bufferView[bi].pi < |pieces| == |torrent.prio|
                && TrimBody(u, pi) == Trimmed(Evict(Abs(), bi), false)
    {
      InvIndexed(u);
      bi := FindVictim(pi);
      VictimIs(u, pi, Abs(), bi);
    }

    /** One iteration of the loop, in state `u`. */
    method TrimOnce(pi: int, ghost u: State) returns (spins: bool)
      requires Separate() && Shown() && u == Abs() && Inv(u)
      modifies `bufferUsed, `clock, `pieceView, `bufferView, buffers, Arrays(buffers), pieces, torrent
      ensures Shown() && TrimBody(u, pi) == Trimmed(Abs(), spins)
    {
      var bi := FindNext(pi, u);
      spins := bi == -1;
      if bi != -1 {
        RemovePiece(bi);
      }
    }

    /**
     * The loop of the source has no way out when neither scan finds a victim.  Here it is
     * left with `spins` in that case, which Trimming.SpinsForever justifies.
     */
    method Trim(pi: int) returns (spins: bool)
      requires Valid()
      modifies `bufferUsed, `clock, `pieceView, `bufferView, buffers, Arrays(buffers), pieces, torrent
      ensures Shown() && Model.Trim(old(Abs()), pi) == Trimmed(Abs(), spins)
    {
      spins := false;
      if capacity < 0 || bufferUsed < bufferLimit {
        return;
      }
      ghost var s, u := Abs(), Abs();
      while bufferUsed >= bufferLimit
        invariant Shown() && u == Abs() && Inv(u)
        invariant TrimLoop(u, pi) == TrimLoop(s, pi)
        decreases |UsedBuffers(u)|
      {
        BodySteps(u, pi);
        spins := TrimOnce(pi, u);
        if spins {
          return;
        }
        u := TrimBody(u, pi).s;
      }
    }

    // ----- Buffers for pieces -----

    /** get_buffer(p, false). */
    method GetReadBuffer(p: int) returns (found: bool)
      requires 0 <= p < |pieces|
      ensures found <==> pieces[p].bi != -1
    {
      return pieces[p].IsBuffered();
    }

    /** get_buffer(p, true). */
    method GetWriteBuffer(p: int) returns (found: bool)
      requires Valid() && 0 <= p < |pieces|
      modifies `bufferUsed, `bufferLimit, `clock, `pieceView, `bufferView, buffers, pieces[p], torrent
      ensures Shown() && Abs() == Admit(old(Abs()), p)
      ensures found <==> Abs().pieces[p].bi != -1
    {
      ghost var s := Abs();
      assert PieceOk(s, p) && s.pieces[p] == pieces[p].Value();
      if pieces[p].IsBuffered() {
        return true;
      }
      if isReading && !IsReadered(pieces[p].index) {
        RestorePiece(pieces[p].index);
        return false;
      }
      for i := 0 to bufferSize
        invariant Shown() && Abs() == s
        invariant FirstFree(s, i) == FirstFree(s, 0)
      {
        assert s.buffers[i] == buffers[i].Value();
        if buffers[i].isUsed {
          continue;
        }
        Assign(p, i);
        assert Abs() == Model.Assign(s, p, i);
        break;
      }
      return pieces[p].IsBuffered();
    }

    /** The body of the loop in get_buffer, once a free buffer has been found. */
    method Assign(p: int, i: int)
      requires Separate() && Shown() && 0 <= p < |pieces| && 0 <= i < |buffers|
      modifies `bufferUsed, `bufferLimit, `clock, `pieceView, `bufferView, buffers[i], pieces[p]
      ensures Shown()
      ensures bufferView == Model.Assign(old(Abs()), p, i).buffers
      ensures pieceView == Model.Assign(old(Abs()), p, i).pieces
      ensures clock == old(clock) + 1
      ensures bufferLimit == old(bufferLimit) - (if pieces[p].index in reservedPieces then 1 else 0)
      ensures bufferUsed == old(bufferUsed) + (if pieces[p].index in reservedPieces then 0 else 1)
    {
      assert pieceView[p] == pieces[p].Value() && bufferView[i] == buffers[i].Value();
      var pi, bi := pieces[p].index, buffers[i].index;
      var now := Now();
      Mark(i, pi, now);
      Link(p, bi);
      CountAdmission(pi);
    }

    method Mark(b: int, pi: int, now: int)
      requires Separate() && Shown() && 0 <= b < |buffers|
      modifies `bufferView, buffers[b]
      ensures Shown()
      ensures bufferView == old(bufferView)[b := old(bufferView)[b].(used := true, pi := pi, accessed := now)]
    {
      buffers[b].isUsed := true;
      buffers[b].pi := pi;
      buffers[b].accessed := now;
      bufferView := bufferView[b := buffers[b].Value()];
    }

    method Link(p: int, bi: int)
      requires Separate() && Shown() && 0 <= p < |pieces|
      modifies `pieceView, pieces[p]
      ensures Shown()
      ensures pieceView == old(pieceView)[p := old(pieceView)[p].(bi := bi)]
    {
      pieces[p].bi := bi;
      pieceView := pieceView[p := pieces[p].Value()];
    }

    /** A reserved piece lowers the limit, any other raises the count. */
    method CountAdmission(index: int)
      modifies `bufferUsed, `bufferLimit
      ensures bufferLimit == old(bufferLimit) - (if index in reservedPieces then 1 else 0)
      ensures bufferUsed == old(bufferUsed) + (if index in reservedPieces then 0 else 1)
    {
      if IsReserved(index) {
        bufferLimit := bufferLimit - 1;
      } else {
        bufferUsed := bufferUsed + 1;
      }
    }

    // ----- Operations -----

    /** The copy loop of writev, on the buffer at position `b`. */
    method FillBuffer(b: int, bufs: seq<seq<Byte>>, offset: nat, length: nat) returns (n: nat)
      requires Separate() && Shown() && 0 <= b < |buffers| && offset <= length <= buffers[b].buffer.Length
      modifies `bufferView, buffers[b].buffer
      ensures Shown() && |old(bufferView)[b].bytes| >= length
      ensures var data := Clip(Flatten(bufs), length - offset);
              var s := old(Abs());
              var f := s.buffers[b];
              && n == |data|
              && Abs() == s.(buffers := s.buffers[b := f.(bytes := Overwrite(f.bytes, offset, data))])
    {
      assert bufferView[b] == buffers[b].Value();
      n := CopyIn(buffers[b].buffer, bufs, offset, length);
      AllCopiedIn(buffers[b].buffer[..], old(bufferView)[b].bytes, offset, length - offset, bufs, n);
      bufferView := bufferView[b := buffers[b].Value()];
    }

    /** writev, readv and read stamp the buffer they have used. */
    method TouchPiece(piece: int)
      requires Separate() && Shown() && 0 <= piece < |pieces| && 0 <= pieceView[piece].bi < |buffers|
      modifies `bufferView, `clock, buffers[pieceView[piece].bi]
      ensures Shown() && Abs() == Touch(old(Abs()), piece)
    {
      assert pieceView[piece] == pieces[piece].Value();
      var b := pieces[piece].bi;
      var now := Now();
      assert bufferView[b] == buffers[b].Value();
      buffers[b].accessed := now;
      bufferView := bufferView[b := buffers[b].Value()];
    }

    /** And what writev records of it. */
    method Record(piece: int, n: nat)
      requires Separate() && Shown() && 0 <= piece < |pieces| && 0 <= pieceView[piece].bi < |buffers|
      modifies `pieceView, `bufferView, `clock, pieces[piece], buffers[pieceView[piece].bi]
      ensures Shown()
      ensures var s := old(Abs());
              var q := s.pieces[piece];
              Abs() == Touch(s.(pieces := s.pieces[piece := q.(size := q.size + n)]), piece)
    {
      AddSize(piece, n);
      TouchPiece(piece);
    }

    method AddSize(piece: int, n: nat)
      requires Separate() && Shown() && 0 <= piece < |pieces|
      modifies `pieceView, pieces[piece]
      ensures Shown()
      ensures var s := old(Abs());
              Abs() == s.(pieces := s.pieces[piece := s.pieces[piece].(size := s.pieces[piece].size + n)])
    {
      assert pieceView[piece] == pieces[piece].Value();
      pieces[piece].size := pieces[piece].size + n;
      pieceView := pieceView[piece := pieces[piece].Value()];
    }

    method StoreBytes(bufs: seq<seq<Byte>>, piece: int, offset: nat) returns (n: nat)
      requires Separate() && Shown() && 0 <= piece < |pieces| && 0 <= pieceView[piece].bi < |buffers|
      requires offset <= pieceView[piece].length <= |bufferView[pieceView[piece].bi].bytes|
      modifies `pieceView, `bufferView, `clock, pieces[piece], buffers, Arrays(buffers)
      ensures n == |Payload(old(Abs()), piece, offset, bufs)|
      ensures Shown() && Abs() == Store(old(Abs()), piece, offset, Payload(old(Abs()), piece, offset, bufs))
    {
      ghost var s := Abs();
      assert pieceView[piece] == pieces[piece].Value();
      var b := pieces[piece].bi;
      assert bufferView[b] == buffers[b].Value();
      n := FillBuffer(b, bufs, offset, pieces[piece].length);
      ghost var filled := Abs();
      Record(piece, n);
      FilledThenTouched(s, filled, piece, offset, Payload(s, piece, offset, bufs));
    }

    /** writev before its call of trim. */
    method AdmitBytes(bufs: seq<seq<Byte>>, piece: int, offset: nat) returns (n: nat, found: bool)
      requires Valid() && Legal(Abs(), Write(piece, offset, bufs))
      modifies `bufferUsed, `bufferLimit, `clock, `pieceView, `bufferView
      modifies buffers, Arrays(buffers), pieces[piece], torrent
      ensures Shown() && Abs() == Stored(old(Abs()), piece, offset, bufs)
      ensures found <==> Abs().pieces[piece].bi != -1
      ensures found ==> n == |Payload(old(Abs()), piece, offset, bufs)|
    {
      StoredIs(Abs(), piece, offset, bufs);
      found := GetWriteBuffer(piece);
      n := 0;
      if found {
        n := StoreBytes(bufs, piece, offset);
      }
    }

    method Writev(bufs: seq<seq<Byte>>, piece: int, offset: nat) returns (n: int, spins: bool)
      requires Valid() && Legal(Abs(), Write(piece, offset, bufs))
      modifies `bufferUsed, `bufferLimit, `clock, `pieceView, `bufferView
      modifies buffers, Arrays(buffers), pieces, torrent
      ensures Valid()
      ensures Model.Writev(old(Abs()), piece, offset, bufs) == Result(Abs(), if spins then Spins else Returned(n, []))
    {
      StepInv(Abs(), Write(piece, offset, bufs));
      n, spins := WritevBody(bufs, piece, offset);
    }

    method WritevBody(bufs: seq<seq<Byte>>, piece: int, offset: nat) returns (n: int, spins: bool)
      requires Valid() && Legal(Abs(), Write(piece, offset, bufs))
      modifies `bufferUsed, `bufferLimit, `clock, `pieceView, `bufferView
      modifies buffers, Arrays(buffers), pieces, torrent
      ensures Shown()
      ensures Model.Writev(old(Abs()), piece, offset, bufs) == Result(Abs(), if spins then Spins else Returned(n, []))
    {
      StoredInv(Abs(), piece, offset, bufs);
      var found;
      n, found := AdmitBytes(bufs, piece, offset);
      spins := false;
      if !found {
        n := 0;
      } else if bufferUsed >= bufferLimit {
        spins := Trim(piece);
      }
    }

    /** The destinations of a read: distinct arrays, none of them a buffer of the storage. */
    ghost predicate Destinations(bufs: seq<array<Byte>>)
      reads `buffers
    {
      && (forall i, j :: 0 <= i < j < |bufs| ==> bufs[i] != bufs[j])
      && (forall i, b :: 0 <= i < |bufs| && 0 <= b < |buffers| ==> bufs[i] != buffers[b].buffer)
    }

    /** The copy loop of readv, on the buffer at position `b`. */
    method DrainBuffer(b: int, bufs: seq<array<Byte>>, offset: nat) returns (n: nat, ghost now: seq<seq<Byte>>)
      requires Separate() && Shown() && 0 <= b < |buffers| && Destinations(bufs)
      requires offset <= |bufferView[b].bytes|
      modifies bufs
      ensures Shown() && now == Contents(bufs)
      ensures CopiedOut(now, bufferView[b].bytes, offset, Lengths(bufs), old(Contents(bufs)), |bufs|, n)
    {
      assert bufferView[b].bytes == buffers[b].buffer[..];
      n, now := CopyOut(buffers[b].buffer, bufs, offset);
    }

    /** The part of readv that has a buffer to copy from. */
    method Deliver(bufs: seq<array<Byte>>, piece: int, offset: nat) returns (n: nat, ghost now: seq<seq<Byte>>)
      requires Separate() && Shown() && 0 <= piece < |pieces| && 0 <= pieceView[piece].bi < |buffers|
      requires offset <= |bufferView[pieceView[piece].bi].bytes| && Destinations(bufs)
      modifies `bufferView, `clock, buffers[pieceView[piece].bi], bufs
      ensures Shown() && Abs() == Touch(old(Abs()), piece) && now == Contents(bufs)
      ensures CopiedOut(now, old(bufferView)[pieceView[piece].bi].bytes, offset, Lengths(bufs), old(Contents(bufs)),
                        |bufs|, n)
    {
      assert pieceView[piece] == pieces[piece].Value();
      n, now := DrainBuffer(pieces[piece].bi, bufs, offset);
      TouchPiece(piece);
    }

    method Readv(bufs: seq<array<Byte>>, piece: int, offset: nat) returns (n: int)
      requires Valid() && Legal(Abs(), VectorRead(piece, offset, Lengths(bufs))) && Destinations(bufs)
      modifies `bufferView, `clock, buffers, bufs
      ensures Valid()
      ensures var r := Model.Readv(old(Abs()), piece, offset, Lengths(bufs));
              && Abs() == r.s && r.out.Returned? && n == r.out.n
              && (r.out.bytes == [] ==> forall i :: 0 <= i < |bufs| ==> bufs[i][..] == old(bufs[i][..]))
              && (r.out.bytes != [] ==>
                    |r.out.bytes| == |bufs| && forall i :: 0 <= i < |bufs| ==>
                      && |r.out.bytes[i]| <= bufs[i].Length
                      && bufs[i][..] == r.out.bytes[i] + old(bufs[i][..])[|r.out.bytes[i]|..])
    {
      StepInv(Abs(), VectorRead(piece, offset, Lengths(bufs)));
      n := ReadvBody(bufs, piece, offset);
    }

    method ReadvBody(bufs: seq<array<Byte>>, piece: int, offset: nat) returns (n: int)
      requires Separate() && Shown() && Inv(Abs()) && 0 <= piece < |pieces| && offset <= pieceLength
      requires Destinations(bufs)
      modifies `bufferView, `clock, buffers, bufs
      ensures Shown()
      ensures var r := Model.Readv(old(Abs()), piece, offset, Lengths(bufs));
              ReadvDone(r, Abs(), n, Contents(bufs), old(Contents(bufs)))
    {
      ghost var s, was := Abs(), Contents(bufs);
      assert PieceOk(s, piece) && pieceView[piece] == pieces[piece].Value();
      var found := GetReadBuffer(piece);
      n := 0;
      if found {
        assert BufferOk(s, pieceView[piece].bi);
        ghost var now;
        n, now := Deliver(bufs, piece, offset);
        Delivered(s, piece, offset, Lengths(bufs), now, was, n);
      }
    }

    /** The part of read that has `n` bytes to copy. */
    method DeliverOne(readBuf: array<Byte>, n: nat, piece: int, offset: nat)
      requires Separate() && Shown() && 0 <= piece < |pieces| && 0 <= pieceView[piece].bi < |buffers|
      requires offset + n <= |bufferView[pieceView[piece].bi].bytes|
      requires n <= readBuf.Length && Destinations([readBuf])
      modifies `bufferView, `clock, buffers[pieceView[piece].bi], readBuf
      ensures Shown() && Abs() == Touch(old(Abs()), piece)
      ensures readBuf[..] == old(bufferView)[pieceView[piece].bi].bytes[offset..offset + n] + old(readBuf[..])[n..]
    {
      assert pieceView[piece] == pieces[piece].Value();
      var b := pieces[piece].bi;
      assert bufferView[b].bytes == buffers[b].buffer[..];
      assert [readBuf][0] == readBuf;
      Copy(readBuf, buffers[b].buffer, offset, n);
      assert Shown();
      TouchPiece(piece);
    }

    method Read(readBuf: array<Byte>, size: nat, piece: int, offset: nat) returns (n: int)
      requires Valid() && Legal(Abs(), PlainRead(piece, offset, size))
      requires size <= readBuf.Length && Destinations([readBuf])
      modifies `bufferView, `clock, `isReading, buffers, torrent, readBuf
      ensures Valid()
      ensures var r := Model.Read(old(Abs()), piece, offset, size);
              && Abs() == r.s && r.out.Returned? && n == r.out.n
              && (r.out.bytes == [] ==> readBuf[..] == old(readBuf[..]))
              && (r.out.bytes != [] ==>
                    && |r.out.bytes| == 1 && |r.out.bytes[0]| <= readBuf.Length
                    && readBuf[..] == r.out.bytes[0] + old(readBuf[..])[|r.out.bytes[0]|..])
      // the bytes themselves, when the piece has a buffer and passes the test
      ensures var b := old(pieces[piece].bi);
              old(pieces[piece].size) >= pieces[piece].length
              && 0 <= b < |buffers| && offset < buffers[b].buffer.Length ==>
                var m := Min(size, buffers[b].buffer.Length - offset);
                n == size && readBuf[..m] == old(buffers[b].buffer[..])[offset..offset + m]
    {
      ghost var s, b := Abs(), pieces[piece].bi;
      assert pieceView[piece] == pieces[piece].Value();
      assert 0 <= b < |buffers| ==> bufferView[b] == buffers[b].Value();
      n := ReadInto(readBuf, size, piece, offset);
      if s.pieces[piece].size >= s.pieces[piece].length && 0 <= b < |buffers| {
        ReadGives(s, piece, offset, size, n, readBuf[..], old(readBuf[..]));
      }
    }

    /** read, up to what its caller sees of the buffer itself. */
    method ReadInto(readBuf: array<Byte>, size: nat, piece: int, offset: nat) returns (n: int)
      requires Valid() && Legal(Abs(), PlainRead(piece, offset, size))
      requires size <= readBuf.Length && Destinations([readBuf])
      modifies `bufferView, `clock, `isReading, buffers, torrent, readBuf
      ensures Valid()
      ensures var r := Model.Read(old(Abs()), piece, offset, size);
              && Abs() == r.s && r.out.Returned? && n == r.out.n
              && (r.out.bytes == [] ==> readBuf[..] == old(readBuf[..]))
              && (r.out.bytes != [] ==>
                    && |r.out.bytes| == 1 && |r.out.bytes[0]| <= readBuf.Length
                    && readBuf[..] == r.out.bytes[0] + old(readBuf[..])[|r.out.bytes[0]|..])
    {
      StepInv(Abs(), PlainRead(piece, offset, size));
      SameTables(Abs(), Abs().(isReading := true));
      isReading := true;
      n := ReadBody(readBuf, size, piece, offset);
    }

    /** read, once it has noted that reading has begun. */
    method ReadBody(readBuf: array<Byte>, size: nat, piece: int, offset: nat) returns (n: int)
      requires Separate() && Shown() && Inv(Abs()) && 0 <= piece < |pieces|
      requires size <= readBuf.Length && Destinations([readBuf])
      modifies `bufferView, `clock, buffers, torrent, readBuf
      ensures Shown()
      ensures var r := ReadOn(old(Abs()), piece, offset, size);
              && Abs() == r.s && r.out.Returned? && n == r.out.n
              && (r.out.bytes == [] ==> readBuf[..] == old(readBuf[..]))
              && (r.out.bytes != [] ==>
                    && |r.out.bytes| == 1 && |r.out.bytes[0]| <= readBuf.Length
                    && readBuf[..] == r.out.bytes[0] + old(readBuf[..])[|r.out.bytes[0]|..])
    {
      assert pieceView[piece] == pieces[piece].Value();
      var found := GetReadBuffer(piece);
      if !found || pieces[piece].size < pieces[piece].length {
        RestorePiece(piece);
        n := -1;
      } else {
        n := ReadFull(readBuf, size, piece, offset);
      }
    }

    /** The rest of read, for a piece that has passed both tests. */
    method ReadFull(readBuf: array<Byte>, size: nat, piece: int, offset: nat) returns (n: int)
      requires Separate() && Shown() && Inv(Abs()) && Resident(Abs(), piece)
      requires size <= readBuf.Length && Destinations([readBuf])
      modifies `bufferView, `clock, buffers, readBuf
      ensures Shown()
      ensures var r := ReadComplete(old(Abs()), piece, offset, size);
              && Abs() == r.s && r.out.Returned? && n == r.out.n
              && (r.out.bytes == [] ==> readBuf[..] == old(readBuf[..]))
              && (r.out.bytes != [] ==>
                    && |r.out.bytes| == 1 && |r.out.bytes[0]| <= readBuf.Length
                    && readBuf[..] == r.out.bytes[0] + old(readBuf[..])[|r.out.bytes[0]|..])
    {
      assert PieceOk(Abs(), piece) && BufferOk(Abs(), pieceView[piece].bi);
      if pieceLength - offset <= 0 {
        n := 0;
      } else {
        DeliverOne(readBuf, Min(pieceLength - offset, size), piece, offset);
        n := size;
      }
    }

    method SetMemorySize(m: int)
      requires Valid()
      modifies `capacity, `bufferSize, `bufferLimit, `buffers, `bufferView
      ensures Valid() && Abs() == Model.SetMemorySize(old(Abs()), m)
      ensures old(buffers) <= buffers && fresh((set b | b in buffers) - set b | b in old(buffers))
    {
      ResizeInv(Abs(), m);
      PoolSizeGrows(0, capacity, pieceLength, |pieces|);
      if m <= capacity {
        return;
      }
      PoolSizeGrows(capacity, m, pieceLength, |pieces|);
      Grow(m);
    }

    /** set_memory_size with a budget above the current one. */
    method Grow(m: int)
      requires Separate() && Shown() && pieceLength > 0
      requires 0 <= bufferSize == |buffers| <= PoolSize(m, pieceLength, |pieces|)
      modifies `capacity, `bufferSize, `bufferLimit, `buffers, `bufferView
      ensures Separate() && Shown()
      ensures capacity == m && bufferSize == bufferLimit == PoolSize(m, pieceLength, |pieces|)
      ensures bufferView == old(bufferView) + FreshBuffers(old(bufferSize), bufferSize, pieceLength)
      ensures old(buffers) <= buffers && fresh((set b | b in buffers) - set b | b in old(buffers))
    {
      capacity := m;
      var prevBufferSize := bufferSize;
      bufferSize := Min(capacity / pieceLength + 2, |pieces|);
      bufferLimit := bufferSize;
      if prevBufferSize == bufferSize {
        assert bufferView + FreshBuffers(prevBufferSize, bufferSize, pieceLength) == bufferView;
        return;
      }
      PushBuffers(prevBufferSize);
    }

    /** The loop of set_memory_size. */
    method PushBuffers(from: int)
      requires Separate() && Shown() && 0 <= from <= bufferSize && pieceLength >= 0
      modifies `buffers, `bufferView
      ensures Separate() && Shown()
      ensures bufferView == old(bufferView) + FreshBuffers(from, bufferSize, pieceLength)
      ensures old(buffers) <= buffers && fresh((set b | b in buffers) - set b | b in old(buffers))
    {
      var more := NewMemoryBuffers(from, bufferSize, pieceLength);
      assert forall i :: 0 <= i < |buffers| ==> buffers[i].buffer in Arrays(buffers);
      assert forall i :: 0 <= i < |more| ==> more[i].buffer in Arrays(more);
      Append(more, FreshBuffers(from, bufferSize, pieceLength));
    }

    method Append(more: seq<MemoryBuffer>, ghost view: seq<Buffer>)
      requires Separate() && Shown() && Distinct(more) && |view| == |more|
      requires forall i :: 0 <= i < |more| ==> view[i] == more[i].Value()
      requires forall i, j :: 0 <= i < |buffers| && 0 <= j < |more| ==>
                 buffers[i] != more[j] && buffers[i].buffer != more[j].buffer
      modifies `buffers, `bufferView
      ensures Separate() && Shown()
      ensures buffers == old(buffers) + more && bufferView == old(bufferView) + view
    {
      DistinctConcat(buffers, more);
      bufferView := bufferView + view;
      buffers := buffers + more;
    }

    method UpdateReservedPieces(list: seq<int>)
      requires Valid() && Legal(Abs(), Reserve(list))
      modifies `reservedPieces
      ensures Valid() && Abs() == Step(old(Abs()), Reserve(list)).s
    {
      ghost var s := Abs();
      StepInv(s, Reserve(list));
      reservedPieces := {};
      for i := 0 to |list|
        modifies `reservedPieces
        invariant reservedPieces == set k | k in list[..i]
      {
        reservedPieces := reservedPieces + {list[i]};
      }
      assert list[..|list|] == list;
    }

    /** `alive` says whether the handle still has a torrent behind it. */
    method SetTorrentHandle(alive: bool)
      requires Valid()
      modifies `mHandle, `t
      ensures Valid() && Abs() == Step(old(Abs()), SetHandle(alive)).s
    {
      StepInv(Abs(), SetHandle(alive));
      mHandle := torrent;
      t := if alive then torrent else null;
    }
  }

  // ----- Copying -----

  ghost function Lengths(bufs: seq<array<Byte>>): (r: seq<nat>)
    ensures |r| == |bufs| && forall i :: 0 <= i < |bufs| ==> r[i] == bufs[i].Length
  {
    seq(|bufs|, i requires 0 <= i < |bufs| => bufs[i].Length)
  }

  /** A destination that held `was` has received `got` at its start. */
  ghost predicate Received(now: seq<Byte>, got: seq<Byte>, was: seq<Byte>) {
    |got| <= |was| && now == got + was[|got|..]
  }

  ghost predicate AllReceived(now: seq<seq<Byte>>, got: seq<seq<Byte>>, was: seq<seq<Byte>>) {
    |now| == |got| == |was| && forall i :: 0 <= i < |now| ==> Received(now[i], got[i], was[i])
  }

  ghost function Contents(bufs: seq<array<Byte>>): (r: seq<seq<Byte>>)
    reads bufs
    ensures |r| == |bufs| && forall i :: 0 <= i < |bufs| ==> r[i] == bufs[i][..]
  {
    seq(|bufs|, i requires 0 <= i < |bufs| reads bufs => bufs[i][..])
  }

  method Copy(to: array<Byte>, from: array<Byte>, offset: nat, n: nat)
    requires to != from && n <= to.Length && offset + n <= from.Length
    modifies to
    ensures to[..] == from[offset..offset + n] + old(to[..])[n..]
  {
    forall k | 0 <= k < n {
      to[k] := from[offset + k];
    }
  }

  /** The `i`-th destination with the `k` bytes of `d` from `at` on put at its start. */
  ghost function Put(now: seq<seq<Byte>>, i: nat, d: seq<Byte>, at: nat, k: nat): seq<seq<Byte>>
    requires i < |now| && at + k <= |d| && k <= |now[i]|
  {
    now[i := d[at..at + k] + now[i][k..]]
  }

  /** One step of it: the `i`-th destination receives `n` bytes, the others keep theirs. */
  method CopyTo(bufs: seq<array<Byte>>, i: nat, data: array<Byte>, offset: nat, n: nat, ghost d: seq<Byte>)
    requires i < |bufs| && bufs[i] != data && forall j, k :: 0 <= j < k < |bufs| ==> bufs[j] != bufs[k]
    requires n <= bufs[i].Length && offset + n <= data.Length && d == data[..]
    modifies bufs[i]
    ensures Contents(bufs) == Put(old(Contents(bufs)), i, d, offset, n)
  {
    Copy(bufs[i], data, offset, n);
  }

  /** The destinations before the `i`-th have received theirs, the others are as they were. */
  ghost predicate ReceivedUpTo(now: seq<seq<Byte>>, got: seq<seq<Byte>>, was: seq<seq<Byte>>, i: nat) {
    && |now| == |was| && i <= |got| && i <= |now|
    && (forall j :: 0 <= j < i ==> Received(now[j], got[j], was[j]))
    && (forall j :: i <= j < |now| ==> now[j] == was[j])
  }

  lemma ReceivedNext(now: seq<seq<Byte>>, got: seq<seq<Byte>>, was: seq<seq<Byte>>, i: nat, x: seq<Byte>)
    requires ReceivedUpTo(now, got, was, i) && |got| == i < |now| && |x| <= |was[i]|
    ensures ReceivedUpTo(now[i := x + was[i][|x|..]], got + [x], was, i + 1)
  {
  }

  /** After `i` destinations, readv has copied `n` bytes. */
  ghost predicate CopiedOut(now: seq<seq<Byte>>, d: seq<Byte>, offset: nat, lens: seq<nat>, was: seq<seq<Byte>>,
                            i: nat, n: nat)
  {
    && offset <= |d| && i <= |lens| == |was|
    && n == Min(|d| - offset, Total(lens[..i]))
    && ReceivedUpTo(now, Scatter(d[offset..], lens[..i]), was, i)
  }

  lemma CopiedOutNext(now: seq<seq<Byte>>, d: seq<Byte>, offset: nat, lens: seq<nat>, was: seq<seq<Byte>>,
                      i: nat, n: nat)
    requires CopiedOut(now, d, offset, lens, was, i, n) && i < |lens| && |was[i]| == lens[i]
    ensures now[i] == was[i]
    ensures var k := Min(|d| - offset - n, lens[i]);
            CopiedOut(Put(now, i, d, offset + n, k), d, offset, lens, was, i + 1, n + k)
  {
    var k := Min(|d| - offset - n, lens[i]);
    var x := ShareAt(d, offset, lens, i, offset + n, k);
    ReceivedNext(now, Scatter(d[offset..], lens[..i]), was, i, x);
  }

  /** The loop of readv: each destination in turn, as long as the buffer lasts. */
  method CopyOut(data: array<Byte>, bufs: seq<array<Byte>>, offset: nat) returns (n: nat, ghost now: seq<seq<Byte>>)
    requires offset <= data.Length
    requires forall i, j :: 0 <= i < j < |bufs| ==> bufs[i] != bufs[j]
    requires forall i :: 0 <= i < |bufs| ==> bufs[i] != data
    modifies bufs
    ensures now == Contents(bufs)
    ensures CopiedOut(now, old(data[..]), offset, Lengths(bufs), old(Contents(bufs)), |bufs|, n)
  {
    ghost var d, lens, was := data[..], Lengths(bufs), Contents(bufs);
    now := was;
    n := 0;
    for i := 0 to |bufs|
      invariant data[..] == d && now == Contents(bufs)
      invariant CopiedOut(now, d, offset, lens, was, i, n)
    {
      var toCopy := Min(data.Length - offset - n, bufs[i].Length);
      CopiedOutNext(now, d, offset, lens, was, i, n);
      CopyTo(bufs, i, data, offset + n, toCopy, d);
      now := Put(now, i, d, offset + n, toCopy);
      n := n + toCopy;
    }
  }

  lemma AllCopiedOut(now: seq<seq<Byte>>, d: seq<Byte>, offset: nat, lens: seq<nat>, was: seq<seq<Byte>>, n: nat)
    requires CopiedOut(now, d, offset, lens, was, |lens|, n)
    ensures var got := Scatter(d[offset..], lens); n == |Flatten(got)| && AllReceived(now, got, was)
  {
    assert lens[..|lens|] == lens;
    FlattenScatter(d[offset..], lens);
  }

  /** The bytes of a read that passes the test. */
  lemma ReadGives(s: State, p: int, offset: nat, size: nat, n: int, now: seq<Byte>, was: seq<Byte>)
    requires Inv(s) && 0 <= p < |s.pieces| && 0 <= s.pieces[p].bi < |s.buffers|
    requires s.pieces[p].size >= s.pieces[p].length
    requires var r := Model.Read(s, p, offset, size);
             && r.out.Returned? && n == r.out.n
             && (r.out.bytes != [] ==>
                   |r.out.bytes| == 1 && |r.out.bytes[0]| <= |was| && now == r.out.bytes[0] + was[|r.out.bytes[0]|..])
    ensures var d := s.buffers[s.pieces[p].bi].bytes;
            offset < |d| ==>
              var m := Min(size, |d| - offset); n == size && m <= |now| && now[..m] == d[offset..offset + m]
  {
    assert PieceOk(s, p) && BufferOk(s, s.pieces[p].bi);
  }

  /** What readv leaves behind, given what it should return. */
  ghost predicate ReadvDone(r: Result, s: State, n: int, now: seq<seq<Byte>>, was: seq<seq<Byte>>) {
    && s == r.s && r.out.Returned? && n == r.out.n
    && (r.out.bytes == [] ==> now == was)
    && (r.out.bytes != [] ==> AllReceived(now, r.out.bytes, was))
  }

  lemma Delivered(s: State, p: int, offset: nat, lens: seq<nat>, now: seq<seq<Byte>>, was: seq<seq<Byte>>, n: nat)
    requires Inv(s) && Resident(s, p) && offset <= s.pieceLength
    requires PieceOk(s, p) && BufferOk(s, s.pieces[p].bi)
    requires CopiedOut(now, s.buffers[s.pieces[p].bi].bytes, offset, lens, was, |lens|, n)
    ensures ReadvDone(Model.Readv(s, p, offset, lens), Touch(s, p), n, now, was)
  {
    AllCopiedOut(now, s.buffers[s.pieces[p].bi].bytes, offset, lens, was, n);
  }

  /** What the `i`-th destination receives, as a stretch of the buffer. */
  lemma ShareAt(d: seq<Byte>, offset: nat, lens: seq<nat>, i: nat, at: nat, n: nat) returns (x: seq<Byte>)
    requires offset <= |d| && i < |lens|
    requires at == offset + Min(|d| - offset, Total(lens[..i])) && n == Min(|d| - at, lens[i])
    ensures x == d[at..at + n]
    ensures Scatter(d[offset..], lens[..i + 1]) == Scatter(d[offset..], lens[..i]) + [x]
    ensures Min(|d| - offset, Total(lens[..i + 1])) == at - offset + n
  {
    x := d[at..at + n];
    SliceOfSlice(d, offset, at, at + n);
    ScatterNext(d[offset..], lens, i);
    assert Share(d[offset..], lens[..i], lens[i]) == x;
  }

  lemma ScatterNext(src: seq<Byte>, lens: seq<nat>, i: nat)
    requires i < |lens|
    ensures Scatter(src, lens[..i + 1]) == Scatter(src, lens[..i]) + [Share(src, lens[..i], lens[i])]
    ensures Total(lens[..i + 1]) == Total(lens[..i]) + lens[i]
  {
    assert lens[..i + 1][..i] == lens[..i];
  }

  lemma ClipSnoc(bufs: seq<seq<Byte>>, i: nat, room: nat)
    requires i < |bufs|
    ensures var had := Clip(Flatten(bufs[..i]), room);
            Clip(Flatten(bufs[..i + 1]), room) == had + bufs[i][..Min(room - |had|, |bufs[i]|)]
  {
    assert bufs[..i + 1][..i] == bufs[..i];
  }

  lemma OverwriteSnoc(b: seq<Byte>, off: nat, d: seq<Byte>, e: seq<Byte>)
    requires off + |d| + |e| <= |b|
    ensures Overwrite(Overwrite(b, off, d), off + |d|, e) == Overwrite(b, off, d + e)
  {
  }

  /** After `i` source buffers, writev has copied `n` bytes, clipped to `room`. */
  ghost predicate CopiedIn(now: seq<Byte>, was: seq<Byte>, off: nat, room: nat, bufs: seq<seq<Byte>>, i: nat, n: nat) {
    && off + room <= |was| && i <= |bufs|
    && var had := Clip(Flatten(bufs[..i]), room);
       n == |had| && now == Overwrite(was, off, had)
  }

  lemma CopiedInNext(now: seq<Byte>, was: seq<Byte>, off: nat, room: nat, bufs: seq<seq<Byte>>, i: nat, n: nat)
    requires CopiedIn(now, was, off, room, bufs, i, n) && i < |bufs|
    ensures n <= room
    ensures var x := bufs[i][..Min(room - n, |bufs[i]|)];
            CopiedIn(Overwrite(now, off + n, x), was, off, room, bufs, i + 1, n + |x|)
  {
    var had := Clip(Flatten(bufs[..i]), room);
    ClipSnoc(bufs, i, room);
    OverwriteSnoc(was, off, had, bufs[i][..Min(room - |had|, |bufs[i]|)]);
  }

  /** memcpy into the middle of a buffer. */
  method CopyAt(data: array<Byte>, at: nat, src: seq<Byte>)
    requires at + |src| <= data.Length
    modifies data
    ensures data[..] == Overwrite(old(data[..]), at, src)
  {
    forall k | 0 <= k < |src| {
      data[at + k] := src[k];
    }
  }

  /** The loop of writev: each source buffer in turn, clipped to what is left of the piece. */
  method CopyIn(data: array<Byte>, bufs: seq<seq<Byte>>, offset: nat, length: nat) returns (n: nat)
    requires offset <= length <= data.Length
    modifies data
    ensures CopiedIn(data[..], old(data[..]), offset, length - offset, bufs, |bufs|, n)
  {
    ghost var was := data[..];
    n := 0;
    for i := 0 to |bufs|
      invariant CopiedIn(data[..], was, offset, length - offset, bufs, i, n)
    {
      CopiedInNext(data[..], was, offset, length - offset, bufs, i, n);
      var toCopy := Min(length - offset - n, |bufs[i]|);
      CopyAt(data, offset + n, bufs[i][..toCopy]);
      n := n + toCopy;
    }
  }

  lemma AllCopiedIn(now: seq<Byte>, was: seq<Byte>, off: nat, room: nat, bufs: seq<seq<Byte>>, n: nat)
    requires CopiedIn(now, was, off, room, bufs, |bufs|, n)
    ensures n == |Clip(Flatten(bufs), room)| && now == Overwrite(was, off, Clip(Flatten(bufs), room))
  {
    assert bufs[..|bufs|] == bufs;
  }

  /** What the scans need: positions are indices, and used buffers hold pieces. */
  lemma InvIndexed(s: State)
    requires Inv(s)
    ensures forall i :: 0 <= i < |s.buffers| ==>
              s.buffers[i].index == i && (s.buffers[i].used ==> 0 <= s.buffers[i].pi < |s.pieces| == |s.picker.prio|)
  {
    forall i | 0 <= i < |s.buffers|
      ensures s.buffers[i].index == i && (s.buffers[i].used ==> 0 <= s.buffers[i].pi < |s.pieces|)
    {
      assert BufferOk(s, i);
    }
  }

  /** One iteration of trim's loop, as the two scans and the removal in turn. */
  lemma BodySteps(s: State, keep: int)
    requires Inv(s)
    ensures Inv(TrimBody(s, keep).s)
    ensures !TrimBody(s, keep).spins ==> |UsedBuffers(TrimBody(s, keep).s)| < |UsedBuffers(s)|
    ensures s.bufferUsed >= s.bufferLimit ==>
              var r := TrimBody(s, keep); TrimLoop(s, keep) == if r.spins then r else TrimLoop(r.s, keep)
    ensures var b1 := Oldest(s, keep, true, s.clock, |s.buffers|);
            var b2 := Oldest(Tick(s), keep, false, s.clock + 1, |s.buffers|);
            TrimBody(s, keep) == if b1 != -1 then Removed(Tick(s), b1)
                                 else if b2 != -1 then Removed(Tick(Tick(s)), b2)
                                 else Trimmed(Tick(Tick(s)), true)
    ensures var b1 := Oldest(s, keep, true, s.clock, |s.buffers|);
            var b2 := Oldest(Tick(s), keep, false, s.clock + 1, |s.buffers|);
            (b1 != -1 ==> s.buffers[b1].used) && (b2 != -1 ==> s.buffers[b2].used)
  {
    TrimBodyInv(s, keep);
    OldestOfTick(s, keep, |s.buffers|);
    OldestIsCandidate(s, keep, true, s.clock, |s.buffers|);
    OldestIsCandidate(s, keep, false, s.clock + 1, |s.buffers|);
  }

  /** What the scans have found is what the iteration removes. */
  lemma VictimIs(u: State, keep: int, s: State, b: int)
    requires Inv(u)
    requires var b1 := Oldest(u, keep, true, u.clock, |u.buffers|);
             var b2 := Oldest(Tick(u), keep, false, u.clock + 1, |u.buffers|);
             if b1 != -1 then b == b1 && s == Tick(u) else b == b2 && s == Tick(Tick(u))
    ensures b == -1 ==> TrimBody(u, keep) == Trimmed(s, true)
    ensures b != -1 ==>
              && 0 <= b < |s.buffers| && 0 <= s.buffers[b].pi < |s.pieces| == |s.picker.prio|
              && TrimBody(u, keep) == Trimmed(Evict(s, b), false)
  {
    BodySteps(u, keep);
    if b != -1 {
      assert BufferOk(u, b);
    }
  }

  function Removed(s: State, b: int): Trimmed {
    if 0 <= b < |s.buffers| && 0 <= s.buffers[b].pi < |s.pieces| == |s.picker.prio| then Trimmed(Evict(s, b), false)
    else Trimmed(s, false)
  }

  lemma {:induction false} OldestOfTick(s: State, keep: int, n: nat)
    requires n <= |s.buffers|
    ensures Oldest(Tick(s), keep, false, s.clock + 1, n) == Oldest(s, keep, false, s.clock + 1, n)
  {
    if n == 0 {
    } else {
      OldestOfTick(s, keep, n - 1);
    }
  }

  lemma FilledThenTouched(s: State, filled: State, p: int, off: nat, data: seq<Byte>)
    requires 0 <= p < |s.pieces| && 0 <= s.pieces[p].bi < |s.buffers|
    requires off + |data| <= |s.buffers[s.pieces[p].bi].bytes|
    requires var b := s.pieces[p].bi;
             filled == s.(buffers := s.buffers[b := s.buffers[b].(bytes := Overwrite(s.buffers[b].bytes, off, data))])
    ensures Store(s, p, off, data) ==
            Touch(filled.(pieces := s.pieces[p := s.pieces[p].(size := s.pieces[p].size + |data|)]), p)
  {
  }

  /** A writev that has a buffer, as the copy that follows its admission. */
  lemma StoredIs(s: State, p: int, off: nat, bufs: seq<seq<Byte>>)
    requires Inv(s) && 0 <= p < |s.pieces| && off <= s.pieces[p].length
    ensures var s1 := Model.Admit(s, p);
            && |s1.pieces| == |s.pieces| && off <= s1.pieces[p].length
            && Payload(s1, p, off, bufs) == Payload(s, p, off, bufs)
            && (s1.pieces[p].bi == -1 ==> Stored(s, p, off, bufs) == s1)
            && (s1.pieces[p].bi != -1 ==>
                  && 0 <= s1.pieces[p].bi < |s1.buffers|
                  && s1.pieces[p].length <= |s1.buffers[s1.pieces[p].bi].bytes|
                  && Stored(s, p, off, bufs) == Store(s1, p, off, Payload(s1, p, off, bufs)))
  {
    AdmitInv(s, p);
    var s1 := Model.Admit(s, p);
    assert PieceOk(s, p) && PieceOk(s1, p);
    if s1.pieces[p].bi != -1 {
      assert BufferOk(s1, s1.pieces[p].bi);
    }
  }

  method NewMemoryPieces(lengths: seq<int>) returns (ps: seq<MemoryPiece>)
    ensures |ps| == |lengths| && fresh(set p | p in ps)
    ensures forall i :: 0 <= i < |ps| ==> ps[i].Value() == NewPieces(lengths)[i]
    ensures forall i, j :: 0 <= i < j < |ps| ==> ps[i] != ps[j]
  {
    ps := [];
    for i := 0 to |lengths|
      invariant |ps| == i && fresh(set p | p in ps)
      invariant forall k :: 0 <= k < i ==> ps[k].Value() == Piece(k, lengths[k], 0, -1)
      invariant forall j, k :: 0 <= j < k < i ==> ps[j] != ps[k]
    {
      var p := new MemoryPiece(i, lengths[i]);
      ps := ps + [p];
    }
  }

  /** Buffers `from` to `to` - 1, as push_back appends them. */
  method NewMemoryBuffers(from: int, to: int, length: nat) returns (bs: seq<MemoryBuffer>)
    requires 0 <= from <= to
    ensures |bs| == to - from && fresh(set b | b in bs) && fresh(Arrays(bs))
    ensures forall i :: 0 <= i < |bs| ==> bs[i].Value() == FreshBuffers(from, to, length)[i]
    ensures Distinct(bs)
  {
    bs := [];
    for i := from to to
      invariant |bs| == i - from && fresh(set b | b in bs) && fresh(Arrays(bs))
      invariant forall k :: 0 <= k < |bs| ==> bs[k].Value() == Buffer(from + k, -1, false, 0, Zeros(length))
      invariant Distinct(bs)
    {
      var b := new MemoryBuffer(i, length);
      assert Arrays(bs + [b]) == Arrays(bs) + {b.buffer};
      bs := bs + [b];
    }
  }
}
