/** Cutting an attachment into chunks, as `sendFile` does before shipping it. */
module Chunking {
  import opened Wire

  function Concat(chunks: seq<Bytes>): Bytes {
    if chunks == [] then [] else Concat(chunks[..|chunks| - 1]) + chunks[|chunks| - 1]
  }

  /** `chunks` is the file cut into full chunks, only the last of which may be short. */
  ghost predicate IsCut(chunks: seq<Bytes>, file: Bytes, size: nat) {
    && Concat(chunks) == file
    && chunks != []
    && (forall i :: 0 <= i < |chunks| - 1 ==> |chunks[i]| == size)
    && |chunks[|chunks| - 1]| <= size
    && (chunks[|chunks| - 1] == [] ==> file == [] && |chunks| == 1)
  }

  /** The chunk count, rounded up, and one even for an empty file. */
  function ChunkCount(total: nat, size: nat): (n: nat)
    requires size > 0
    ensures n > 0 && (total > 0 ==> (n - 1) * size < total <= n * size) && (total == 0 ==> n == 1)
  {
    var n := (total + size - 1) / size;
    if n > 1 then n else 1
  }

  /** Where the `i`-th chunk starts. */
  function Boundary(i: nat, size: nat, total: nat): (at: nat)
    ensures at <= total
  {
    if i * size < total then i * size else total
  }

  ghost predicate CutSoFar(chunks: seq<Bytes>, file: Bytes, size: nat, i: nat) {
    && |chunks| == i && Concat(chunks) == file[..Boundary(i, size, |file|)]
    && (forall j :: 0 <= j < i ==> |chunks[j]| == Boundary(j + 1, size, |file|) - Boundary(j, size, |file|))
  }

  /** Boundaries before the last are multiples of the size, and the last one is the end. */
  lemma Boundaries(size: nat, total: nat, i: nat)
    requires size > 0 && i < ChunkCount(total, size)
    ensures Boundary(i, size, total) == i * size
    ensures i + 1 < ChunkCount(total, size) ==> Boundary(i + 1, size, total) == i * size + size
    ensures i + 1 == ChunkCount(total, size) ==> Boundary(i + 1, size, total) == total && total <= i * size + size
    ensures total > 0 ==> i * size < total
  {
    var n := ChunkCount(total, size);
    assert (i + 1) * size == i * size + size;
    MulMonotone(i, n - 1, size);
    if i + 1 < n { MulMonotone(i + 1, n - 1, size); }
  }

  lemma MulMonotone(x: nat, y: nat, size: nat)
    requires x <= y
    ensures x * size <= y * size
  {
  }

  lemma CutExtends(chunks: seq<Bytes>, file: Bytes, size: nat, i: nat, chunk: Bytes)
    requires CutSoFar(chunks, file, size, i)
    requires Boundary(i, size, |file|) <= Boundary(i + 1, size, |file|)
    requires chunk == file[Boundary(i, size, |file|)..Boundary(i + 1, size, |file|)]
    ensures CutSoFar(chunks + [chunk], file, size, i + 1)
  {
    var longer := chunks + [chunk];
    assert longer[..|longer| - 1] == chunks;
  }

  lemma CutIsDone(chunks: seq<Bytes>, file: Bytes, size: nat)
    requires size > 0 && CutSoFar(chunks, file, size, ChunkCount(|file|, size))
    ensures IsCut(chunks, file, size)
  {
    var n := ChunkCount(|file|, size);
    Boundaries(size, |file|, n - 1);
    forall i | 0 <= i < n - 1 ensures |chunks[i]| == size { Boundaries(size, |file|, i); }
  }

  /** Refused exactly when more chunks than the cap would be needed. */
  method Cut(file: Bytes, size: nat, maxCount: nat) returns (r: Option<seq<Bytes>>)
    requires size > 0
    ensures r.None? <==> ChunkCount(|file|, size) > maxCount
    ensures r.Some? ==> IsCut(r.value, file, size) && |r.value| == ChunkCount(|file|, size)
  {
    var count := ChunkCount(|file|, size);
    if count > maxCount { return None; }
    var chunks: seq<Bytes> := [];
    for i := 0 to count
      invariant CutSoFar(chunks, file, size, i)
    {
      Boundaries(size, |file|, i);
      var start := i * size;
      var end := if start + size < |file| then start + size else |file|;
      CutExtends(chunks, file, size, i, file[start..end]);
      chunks := chunks + [file[start..end]];
    }
    CutIsDone(chunks, file, size);
    r := Some(chunks);
  }

  /** A cut determines the file and the chunk boundaries: two cuts of one file are equal. */
  lemma {:induction false} CutIsUnique(xs: seq<Bytes>, ys: seq<Bytes>, file: Bytes, size: nat)
    requires size > 0 && IsCut(xs, file, size) && IsCut(ys, file, size)
    ensures xs == ys
  {
    CutLength(xs, file, size);
    CutLength(ys, file, size);
    forall i | 0 <= i < |xs| ensures xs[i] == ys[i] {
      ChunkAt(xs, file, size, i);
      ChunkAt(ys, file, size, i);
    }
  }

  lemma {:induction false} ConcatLength(chunks: seq<Bytes>, size: nat, n: nat)
    requires n <= |chunks| && forall i :: 0 <= i < n ==> |chunks[i]| == size
    ensures |Concat(chunks[..n])| == n * size
    decreases n
  {
    if n > 0 {
      ConcatLength(chunks, size, n - 1);
      assert chunks[..n][..n - 1] == chunks[..n - 1];
    }
  }

  lemma {:induction false} ConcatPrefix(chunks: seq<Bytes>, n: nat)
    requires n <= |chunks|
    ensures Concat(chunks[..n]) <= Concat(chunks)
    decreases |chunks| - n
  {
    if n == |chunks| {
      assert chunks[..n] == chunks;
    } else {
      ConcatPrefix(chunks, n + 1);
      assert chunks[..n + 1][..n] == chunks[..n];
      assert Concat(chunks[..n]) <= Concat(chunks[..n + 1]);
    }
  }

  lemma CutLength(chunks: seq<Bytes>, file: Bytes, size: nat)
    requires size > 0 && IsCut(chunks, file, size)
    ensures |chunks| == ChunkCount(|file|, size)
  {
    var n := |chunks| - 1;
    ConcatLength(chunks, size, n);
    assert |file| == n * size + |chunks[n]|;
    if |file| > 0 {
      var c := ChunkCount(|file|, size);
      assert n * size < c * size && (c - 1) * size < (n + 1) * size by {
        assert (n + 1) * size == n * size + size;
      }
      MulOrder(n, c, size);
      MulOrder(c - 1, n + 1, size);
    }
  }

  lemma MulOrder(x: nat, y: nat, size: nat)
    requires size > 0 && x * size < y * size
    ensures x < y
  {
    if y <= x { MulMonotone(y, x, size); }
  }

  lemma ChunkAt(chunks: seq<Bytes>, file: Bytes, size: nat, i: nat)
    requires size > 0 && IsCut(chunks, file, size) && i < |chunks|
    ensures i * size <= |file|
    ensures chunks[i] == file[i * size..if i < |chunks| - 1 && (i + 1) * size <= |file| then (i + 1) * size else |file|]
  {
    ConcatLength(chunks, size, i);
    ConcatPrefix(chunks, i + 1);
    ConcatPrefix(chunks, i);
    assert chunks[..i + 1][..i] == chunks[..i];
    assert Concat(chunks[..i + 1]) == Concat(chunks[..i]) + chunks[i];
    if i == |chunks| - 1 {
      assert chunks[..i + 1] == chunks;
    } else {
      assert (i + 1) * size == i * size + size;
    }
  }
}
