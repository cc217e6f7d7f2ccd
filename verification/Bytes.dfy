// Byte strings, scatter/gather lists, and the log of writes that one piece has
// received since it was admitted.  Nothing here mentions buffers or counters.
module Bytes {
  newtype Byte = x: int | 0 <= x < 256

  /** What one call to writev leaves in a piece: `data` at position `off`. */
  datatype Chunk = Chunk(off: nat, data: seq<Byte>)

  function Min(a: int, b: int): int {
    if a <= b then a else b
  }

  function Zeros(n: nat): (r: seq<Byte>)
    ensures |r| == n && forall i :: 0 <= i < n ==> r[i] == 0
  {
    seq(n, _ => 0)
  }

  // ----- Scatter/gather lists -----

  function Flatten(bufs: seq<seq<Byte>>): seq<Byte> {
    if bufs == [] then [] else Flatten(bufs[..|bufs| - 1]) + bufs[|bufs| - 1]
  }

  function Total(lens: seq<nat>): nat {
    if lens == [] then 0 else Total(lens[..|lens| - 1]) + lens[|lens| - 1]
  }

  function Clip(d: seq<Byte>, n: nat): seq<Byte> {
    if |d| <= n then d else d[..n]
  }

  function Overwrite(b: seq<Byte>, off: nat, d: seq<Byte>): (r: seq<Byte>)
    requires off + |d| <= |b|
    ensures |r| == |b|
    ensures forall i :: 0 <= i < |b| ==> r[i] == if off <= i < off + |d| then d[i - off] else b[i]
  {
    b[..off] + d + b[off + |d|..]
  }

  lemma SliceOfSlice(s: seq<Byte>, k: nat, lo: nat, hi: nat)
    requires k <= lo <= hi <= |s|
    ensures s[k..][lo - k..hi - k] == s[lo..hi]
  {
  }

  /** What a destination buffer of `len` bytes receives when those in `lens` come before it. */
  function Share(src: seq<Byte>, lens: seq<nat>, len: nat): seq<Byte> {
    var m := Min(|src|, Total(lens));
    src[m..m + Min(|src| - m, len)]
  }

  /** The bytes that end up in each of the destination buffers. */
  function Scatter(src: seq<Byte>, lens: seq<nat>): (r: seq<seq<Byte>>)
    ensures |r| == |lens|
    ensures forall i :: 0 <= i < |lens| ==> |r[i]| <= lens[i]
  {
    if lens == [] then [] else
      var init, last := lens[..|lens| - 1], lens[|lens| - 1];
      Scatter(src, init) + [Share(src, init, last)]
  }

  /** Whatever the split, the destination buffers receive a prefix of the source, in order. */
  lemma {:induction false} FlattenScatter(src: seq<Byte>, lens: seq<nat>)
    ensures Flatten(Scatter(src, lens)) == src[..Min(|src|, Total(lens))]
  {
    if lens == [] {
    } else {
      var init, last := lens[..|lens| - 1], lens[|lens| - 1];
      FlattenScatter(src, init);
      var r := Scatter(src, lens);
      assert r[..|r| - 1] == Scatter(src, init) && r[|r| - 1] == Share(src, init, last);
    }
  }

  // ----- The write log of a piece -----

  predicate Fits(chunks: seq<Chunk>, n: nat) {
    forall i :: 0 <= i < |chunks| ==> chunks[i].off + |chunks[i].data| <= n
  }

  /** The byte string obtained by applying the writes, oldest first, to `n` zeros. */
  function Replay(n: nat, chunks: seq<Chunk>): (r: seq<Byte>)
    requires Fits(chunks, n)
    ensures |r| == n
  {
    if chunks == [] then Zeros(n) else
      var last := chunks[|chunks| - 1];
      Overwrite(Replay(n, chunks[..|chunks| - 1]), last.off, last.data)
  }

  /** The number of bytes written, counted with repetition. */
  function Written(chunks: seq<Chunk>): nat {
    if chunks == [] then 0 else Written(chunks[..|chunks| - 1]) + |chunks[|chunks| - 1].data|
  }

  predicate InRange(off: int, len: nat, i: int) {
    off <= i < off + len
  }

  function Range(off: int, len: nat): set<int> {
    set i | off <= i < off + len && InRange(off, len, i)
  }

  function Span(c: Chunk): set<int> {
    Range(c.off, |c.data|)
  }

  /** The positions written at least once. */
  function Covered(chunks: seq<Chunk>): set<int> {
    if chunks == [] then {} else Covered(chunks[..|chunks| - 1]) + Span(chunks[|chunks| - 1])
  }

  ghost predicate Disjoint(chunks: seq<Chunk>) {
    forall i, j :: 0 <= i < j < |chunks| ==> Span(chunks[i]) !! Span(chunks[j])
  }

  /** The byte most recently written at position `k`, zero if there is none. */
  function LastWritten(chunks: seq<Chunk>, k: int): Byte {
    if chunks == [] then 0 else
      var last := chunks[|chunks| - 1];
      if last.off <= k < last.off + |last.data| then last.data[k - last.off]
      else LastWritten(chunks[..|chunks| - 1], k)
  }

  lemma {:induction false} RangeSize(off: int, len: nat)
    ensures |Range(off, len)| == len
  {
    if len == 0 {
    } else {
      RangeSize(off, len - 1);
      assert Range(off, len) == Range(off, len - 1) + {off + len - 1};
    }
  }

  lemma {:induction false} CoveredIsUnion(chunks: seq<Chunk>, k: int)
    ensures k in Covered(chunks) <==> exists i :: 0 <= i < |chunks| && k in Span(chunks[i])
  {
    if chunks == [] {
    } else {
      var init, n := chunks[..|chunks| - 1], |chunks| - 1;
      CoveredIsUnion(init, k);
      if k in Covered(init) {
        var i :| 0 <= i < |init| && k in Span(init[i]);
        assert k in Span(chunks[i]);
      }
      if i :| 0 <= i < |chunks| && k in Span(chunks[i]) {
        if i < n {
          assert k in Span(init[i]);
        }
      }
    }
  }

  lemma NoneInCommon(a: set<int>, b: set<int>)
    ensures |a * b| == 0 <==> a !! b
  {
    if |a * b| == 0 {
      forall x | x in a ensures x !in b {
        assert x !in a * b;
      }
    }
    if a !! b {
      assert a * b == {};
    }
  }

  lemma UnionSize(a: set<int>, b: set<int>)
    ensures |a + b| <= |a| + |b|
    ensures |a + b| == |a| + |b| <==> a !! b
  {
    assert a + b == (a - b) + b;
    assert a == (a - b) + (a * b);
    if a * b == {} {
      assert a !! b;
    }
  }

  /** The byte counter never under-counts, and it is exact just when no two writes overlap. */
  lemma {:induction false} CoverageBound(chunks: seq<Chunk>)
    ensures |Covered(chunks)| <= Written(chunks)
    ensures |Covered(chunks)| == Written(chunks) <==> Disjoint(chunks)
  {
    if chunks == [] {
    } else {
      var n := |chunks| - 1;
      var init, last := chunks[..n], chunks[n];
      CoverageBound(init);
      UnionSize(Covered(init), Span(last));
      RangeSize(last.off, |last.data|);
      DisjointSnoc(init, last);
      assert init + [last] == chunks;
    }
  }

  lemma DisjointSnoc(init: seq<Chunk>, last: Chunk)
    ensures Disjoint(init + [last]) <==> Disjoint(init) && Covered(init) !! Span(last)
  {
    var all := init + [last];
    forall k {
      CoveredIsUnion(init, k);
    }
    if Disjoint(all) {
      forall i, j | 0 <= i < j < |init|
        ensures Span(init[i]) !! Span(init[j])
      {
        assert Span(all[i]) !! Span(all[j]);
      }
      forall k | k in Covered(init)
        ensures k !in Span(last)
      {
        var i :| 0 <= i < |init| && k in Span(init[i]);
        assert Span(all[i]) !! Span(all[|init|]);
      }
    }
    if Disjoint(init) && Covered(init) !! Span(last) {
      forall i, j | 0 <= i < j < |all|
        ensures Span(all[i]) !! Span(all[j])
      {
        if j < |init| {
          assert Span(init[i]) !! Span(init[j]);
        } else {
          assert forall k :: k in Span(init[i]) ==> k in Covered(init);
        }
      }
    }
  }

  lemma {:induction false} CoveredFits(chunks: seq<Chunk>, n: nat)
    requires Fits(chunks, n)
    ensures Covered(chunks) <= Range(0, n)
  {
    if chunks == [] {
    } else {
      CoveredFits(chunks[..|chunks| - 1], n);
    }
  }

  /** Every byte of a replayed log is the one written there last, or zero. */
  lemma {:induction false} ReplayAt(n: nat, chunks: seq<Chunk>, k: int)
    requires Fits(chunks, n) && 0 <= k < n
    ensures Replay(n, chunks)[k] == LastWritten(chunks, k)
    ensures k !in Covered(chunks) ==> Replay(n, chunks)[k] == 0
  {
    if chunks == [] {
    } else {
      ReplayAt(n, chunks[..|chunks| - 1], k);
    }
  }

  lemma SubsetSize(a: set<int>, b: set<int>)
    requires a <= b
    ensures |a| <= |b|
    ensures |a| == |b| ==> a == b
  {
    assert b == a + (b - a);
  }
}
