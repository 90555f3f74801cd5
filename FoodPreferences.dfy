/** `FoodPreferences.chunkArray`: a list cut into consecutive chunks of a
    fixed size, for laying it out in columns. */
module FoodPreferences {

  /** `Math.ceil(n / size)` for a whole positive size. */
  function CeilDiv(n: nat, size: nat): nat
    requires size >= 1
  {
    (n + size - 1) / size
  }

  function Min(a: int, b: int): int {
    if a <= b then a else b
  }

  /** `arr.slice(start, end)` for `start <= end`: the end is cut back to the
      length, and a start past the end gives nothing. */
  function Slice<T>(arr: seq<T>, start: nat, end: nat): seq<T>
    requires start <= end
  {
    if start >= |arr| then [] else arr[start..Min(end, |arr|)]
  }

  /** `chunks` holds `ceil(len / size)` chunks, chunk `i` being the slice
      that starts at `i * size`. */
  ghost predicate CutAt<T>(chunks: seq<seq<T>>, arr: seq<T>, size: nat)
    requires size >= 1
  {
    |chunks| == CeilDiv(|arr|, size) &&
    forall i :: 0 <= i < |chunks| ==> chunks[i] == Slice(arr, i * size, i * size + size)
  }

  /** The list cut into `size`-long slices, as many as the length over the
      size rounded up, slice `i` starting at `i * size`; the last slice may
      be shorter. These are the chunks cut one at a time from the front, and
      laid end to end they give back the list. */
  function ChunkArray<T>(arr: seq<T>, size: nat): (chunks: seq<seq<T>>)
    requires size >= 1
    ensures |chunks| == CeilDiv(|arr|, size)
    ensures chunks == Chunks(arr, size)
    ensures Flatten(chunks) == arr
  {
    var chunks := seq(CeilDiv(|arr|, size), i requires 0 <= i => Slice(arr, i * size, i * size + size));
    CutAtIsChunks(chunks, arr, size);
    FlattenChunks(arr, size);
    chunks
  }

  /** Cutting a list into chunks from the front, one chunk at a time. */
  function Chunks<T>(arr: seq<T>, size: nat): seq<seq<T>>
    requires size >= 1
    decreases |arr|
  {
    if |arr| == 0 then []
    else if |arr| <= size then [arr]
    else [arr[..size]] + Chunks(arr[size..], size)
  }

  /** The chunks laid end to end. */
  function Flatten<T>(chunks: seq<seq<T>>): seq<T>
    decreases |chunks|
  {
    if chunks == [] then [] else chunks[0] + Flatten(chunks[1..])
  }

  // ---------------------------------------------------------------- arithmetic

  /** The rounded-up quotient is the least count of chunks that covers `n`. */
  lemma CeilDivBounds(n: nat, size: nat)
    requires size >= 1
    ensures CeilDiv(n, size) * size >= n
    ensures n > 0 ==> (CeilDiv(n, size) - 1) * size < n
    ensures n == 0 ==> CeilDiv(n, size) == 0
  {
    var k := CeilDiv(n, size);
    var m := n + size - 1;
    assert m == k * size + m % size;
    assert m % size < size;
    assert (k - 1) * size == k * size - size;
    if n == 0 {
      DivUnique(m, size, 0);
    }
  }

  /** A quotient is pinned down by the multiples of the divisor around the dividend. */
  lemma DivUnique(m: nat, size: nat, q: nat)
    requires size >= 1
    requires q * size <= m < q * size + size
    ensures m / size == q
  {
    var d := m / size;
    assert m == d * size + m % size && 0 <= m % size < size;
    MultipleBelow(d, q, size);
    MultipleBelow(q, d, size);
  }

  /** A multiple that stays below the next multiple of `b` has a factor of at most `b`. */
  lemma MultipleBelow(a: nat, b: nat, size: nat)
    requires a * size < b * size + size
    ensures a <= b
  {
    if a > b {
      assert (b + 1) * size == b * size + size;
      MulMonotone(b + 1, a, size);
    }
  }

  /** One chunk's worth more of elements makes one chunk more. */
  lemma CeilDivStep(n: nat, size: nat)
    requires size >= 1 && n > size
    ensures CeilDiv(n, size) == CeilDiv(n - size, size) + 1
  {
    var q := CeilDiv(n - size, size);
    var x := n - 1;
    assert q == x / size;
    assert x == q * size + x % size && 0 <= x % size < size;
    assert (q + 1) * size == q * size + size;
    DivUnique(x + size, size, q + 1);
  }

  /** A list no longer than one chunk makes one chunk. */
  lemma CeilDivOne(n: nat, size: nat)
    requires 1 <= n <= size
    ensures CeilDiv(n, size) == 1
  {
    DivUnique(n + size - 1, size, 1);
  }

  lemma MulMonotone(a: nat, b: nat, size: nat)
    requires a <= b
    ensures a * size <= b * size
  {
  }

  // ---------------------------------------------------------------- the chunks

  /** Chunks cut by index are those cut one at a time from the front. */
  lemma {:induction false} CutAtIsChunks<T>(chunks: seq<seq<T>>, arr: seq<T>, size: nat)
    requires size >= 1 && CutAt(chunks, arr, size)
    ensures chunks == Chunks(arr, size)
    decreases |arr|
  {
    if |arr| == 0 {
      CeilDivBounds(0, size);
    } else if |arr| <= size {
      CeilDivOne(|arr|, size);
      assert 0 * size == 0;
      assert chunks[0] == arr[0..|arr|] == arr;
    } else {
      CutAtTail(chunks, arr, size);
      CutAtIsChunks(chunks[1..], arr[size..], size);
      assert 0 * size == 0;
      assert chunks[0] == arr[..size];
      assert chunks == [chunks[0]] + chunks[1..];
    }
  }

  /** Past the first chunk, the chunks are those of the rest of the list. */
  lemma CutAtTail<T>(chunks: seq<seq<T>>, arr: seq<T>, size: nat)
    requires 1 <= size < |arr| && CutAt(chunks, arr, size)
    ensures CutAt(chunks[1..], arr[size..], size)
  {
    CeilDivStep(|arr|, size);
    forall i | 0 <= i < |chunks| - 1 ensures chunks[1..][i] == Slice(arr[size..], i * size, i * size + size) {
      ShiftedSlice(arr, size, i);
    }
  }

  /** Chunk `i + 1` of a list is chunk `i` of the list without its first chunk. */
  lemma ShiftedSlice<T>(arr: seq<T>, size: nat, i: nat)
    requires 1 <= size < |arr|
    ensures Slice(arr, (i + 1) * size, (i + 1) * size + size) == Slice(arr[size..], i * size, i * size + size)
  {
    assert (i + 1) * size == i * size + size;
    var start := i * size;
    if start + size < |arr| {
      var end := Min(start + size + size, |arr|);
      assert arr[start + size..end] == arr[size..][start..end - size];
    }
  }

  /** Laying the chunks cut from the front end to end gives back the list. */
  lemma {:induction false} FlattenChunks<T>(arr: seq<T>, size: nat)
    requires size >= 1
    ensures Flatten(Chunks(arr, size)) == arr
    decreases |arr|
  {
    if |arr| > size {
      var rest := arr[size..];
      FlattenChunks(rest, size);
      assert Chunks(arr, size)[1..] == Chunks(rest, size);
      assert arr == arr[..size] + rest;
    } else if |arr| > 0 {
      assert Flatten([arr]) == arr + Flatten([]);
    }
  }

  /** There are `ceil(len / size)` chunks: just enough to hold the list. */
  lemma ChunkCount<T>(arr: seq<T>, size: nat)
    requires size >= 1
    ensures |ChunkArray(arr, size)| * size >= |arr|
    ensures |arr| > 0 ==> (|ChunkArray(arr, size)| - 1) * size < |arr|
  {
    CeilDivBounds(|arr|, size);
  }

  /** Every chunk but the last holds exactly `size` elements. */
  lemma FullChunks<T>(arr: seq<T>, size: nat, i: nat)
    requires size >= 1 && i + 1 < |ChunkArray(arr, size)|
    ensures |ChunkArray(arr, size)[i]| == size
  {
    var k := |ChunkArray(arr, size)|;
    CeilDivBounds(|arr|, size);
    MulMonotone(i + 1, k - 1, size);
    assert (i + 1) * size == i * size + size;
  }

  /** The last chunk holds between 1 and `size` elements. */
  lemma LastChunk<T>(arr: seq<T>, size: nat)
    requires size >= 1 && |ChunkArray(arr, size)| > 0
    ensures 1 <= |ChunkArray(arr, size)[|ChunkArray(arr, size)| - 1]| <= size
  {
    var k := |ChunkArray(arr, size)|;
    CeilDivBounds(|arr|, size);
    assert (k - 1) * size + size == k * size;
  }

  /** Each chunk is the run of the list that starts at its index times the size. */
  lemma ChunkContents<T>(arr: seq<T>, size: nat, i: nat)
    requires size >= 1 && i < |ChunkArray(arr, size)|
    ensures i * size < |arr|
    ensures ChunkArray(arr, size)[i] == arr[i * size..Min(i * size + size, |arr|)]
  {
    CeilDivBounds(|arr|, size);
    MulMonotone(i, |ChunkArray(arr, size)| - 1, size);
  }

  /** A list has no chunks exactly when it is empty. */
  lemma EmptyChunks<T>(arr: seq<T>, size: nat)
    requires size >= 1
    ensures ChunkArray(arr, size) == [] <==> arr == []
  {
    CeilDivBounds(|arr|, size);
  }
}
