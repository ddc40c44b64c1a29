/**
 * `chunk_text` of build_database.py: fixed-stride overlapping windows over the
 * extracted text. Window `k` starts at `k * (chunk_size - overlap)` and spans
 * `text[start:start + chunk_size]`; it is kept when its stripped length reaches
 * `min_size`. The loop advances only when `overlap < chunk_size`; the source never
 * checks this, so it is this model's precondition (see WindowStartStalls).
 */
module Chunking {
  import opened PyText

  /** Where window `k` starts: `k` strides from the beginning of the text. */
  function StartOf(k: nat, stride: int): int {
    if k == 0 then 0 else StartOf(k - 1, stride) + stride
  }

  /** Window `k` starts at `k * (chunk_size - overlap)`. */
  lemma {:induction false} StartOfIsMultiple(k: nat, stride: int)
    ensures StartOf(k, stride) == k * stride
  {
    if k > 0 {
      StartOfIsMultiple(k - 1, stride);
    }
  }

  /** Moving from window `k` to window `k + 1` advances the start by one stride. */
  lemma StartStep(k: nat, stride: int)
    ensures StartOf(k + 1, stride) == StartOf(k, stride) + stride
  {
  }

  /** Later windows start at least one stride further on. */
  lemma {:induction false} StartMono(j: nat, k: nat, stride: int)
    requires j < k && stride > 0
    ensures StartOf(j, stride) + stride <= StartOf(k, stride)
    decreases k
  {
    StartStep(k - 1, stride);
    if j < k - 1 {
      StartMono(j, k - 1, stride);
    }
  }

  /** With a positive stride no window starts before the text. */
  lemma StartNonNegative(k: nat, stride: int)
    requires stride > 0
    ensures StartOf(k, stride) >= 0
  {
    if k > 0 {
      StartMono(0, k, stride);
    }
  }

  /**
   * The windows visited from window `k` on while their start is below `n`:
   * for each one that `keep` accepts, `item` of its index. The chunk list and
   * the list of kept indices are both instances.
   */
  function Select<T>(k: nat, n: int, stride: int, keep: nat -> bool, item: nat -> T): seq<T>
    requires stride > 0
    decreases n - StartOf(k, stride)
  {
    if StartOf(k, stride) >= n then []
    else
      StartStep(k, stride);
      (if keep(k) then [item(k)] else []) + Select(k + 1, n, stride, keep, item)
  }

  /** One unfolding of Select, split on whether window `k` is kept. */
  lemma SelectStep<T>(k: nat, n: int, stride: int, keep: nat -> bool, item: nat -> T)
    requires stride > 0 && StartOf(k, stride) < n
    ensures keep(k) ==> Select(k, n, stride, keep, item) == [item(k)] + Select(k + 1, n, stride, keep, item)
    ensures !keep(k) ==> Select(k, n, stride, keep, item) == Select(k + 1, n, stride, keep, item)
  {
    ConcatEmpty(Select(k + 1, n, stride, keep, item));
  }

  /** The identity on window indices: `Select` with it lists the kept indices. */
  const Index: nat -> nat := j => j

  /** The selected indices from `k` on are each at least `k`. */
  lemma {:induction false} SelectedIndicesFrom(k: nat, n: int, stride: int, keep: nat -> bool)
    requires stride > 0
    ensures var ks := Select(k, n, stride, keep, Index);
      forall i :: 0 <= i < |ks| ==> k <= ks[i]
    decreases n - StartOf(k, stride)
  {
    if StartOf(k, stride) < n {
      StartMono(k, k + 1, stride);
      SelectStep(k, n, stride, keep, Index);
      SelectedIndicesFrom(k + 1, n, stride, keep);
      if keep(k) {
        var rest := Select(k + 1, n, stride, keep, Index);
        var ks := [k] + rest;
        forall i | 0 < i < |ks|
          ensures ks[i] == rest[i - 1]
        {
        }
      }
    }
  }

  /** The selected indices strictly increase. */
  lemma {:induction false} SelectedIndicesIncrease(k: nat, n: int, stride: int, keep: nat -> bool)
    requires stride > 0
    ensures var ks := Select(k, n, stride, keep, Index);
      forall i, j :: 0 <= i < j < |ks| ==> ks[i] < ks[j]
    decreases n - StartOf(k, stride)
  {
    if StartOf(k, stride) < n {
      StartMono(k, k + 1, stride);
      SelectStep(k, n, stride, keep, Index);
      SelectedIndicesFrom(k + 1, n, stride, keep);
      SelectedIndicesIncrease(k + 1, n, stride, keep);
      if keep(k) {
        ConsIncreasing(k, Select(k + 1, n, stride, keep, Index));
      }
    }
  }

  /** Putting a smaller index in front of increasing indices keeps them increasing. */
  lemma ConsIncreasing(x: nat, rest: seq<nat>)
    requires forall i :: 0 <= i < |rest| ==> x + 1 <= rest[i]
    requires forall i, j :: 0 <= i < j < |rest| ==> rest[i] < rest[j]
    ensures var ks := [x] + rest;
      forall i, j :: 0 <= i < j < |ks| ==> ks[i] < ks[j]
  {
    var ks := [x] + rest;
    forall i, j | 0 <= i < j < |ks|
      ensures ks[i] < ks[j]
    {
      assert ks[j] == rest[j - 1];
      if 0 < i {
        assert ks[i] == rest[i - 1];
      }
    }
  }

  /** An index is selected exactly when it is at least `k`, its window starts below `n`, and `keep` accepts it. */
  lemma {:induction false} SelectedIndicesMembers(k: nat, n: int, stride: int, keep: nat -> bool)
    requires stride > 0
    ensures var ks := Select(k, n, stride, keep, Index);
      forall j: nat :: j in ks <==> k <= j && StartOf(j, stride) < n && keep(j)
    decreases n - StartOf(k, stride)
  {
    forall j: nat | k < j ensures StartOf(k, stride) + stride <= StartOf(j, stride) {
      StartMono(k, j, stride);
    }
    if StartOf(k, stride) < n {
      StartStep(k, stride);
      SelectStep(k, n, stride, keep, Index);
      SelectedIndicesMembers(k + 1, n, stride, keep);
    }
  }

  /** Selecting items and selecting indices make parallel lists: item `i` belongs to index `i`. */
  lemma {:induction false} SelectParallel<T>(k: nat, n: int, stride: int, keep: nat -> bool, item: nat -> T)
    requires stride > 0
    ensures var ks := Select(k, n, stride, keep, Index);
      var xs := Select(k, n, stride, keep, item);
      |xs| == |ks| && forall i :: 0 <= i < |ks| ==> xs[i] == item(ks[i])
    decreases n - StartOf(k, stride)
  {
    if StartOf(k, stride) < n {
      StartStep(k, stride);
      StartMono(k, k + 1, stride);
      SelectStep(k, n, stride, keep, Index);
      SelectStep(k, n, stride, keep, item);
      SelectParallel(k + 1, n, stride, keep, item);
      if keep(k) {
        var rks := Select(k + 1, n, stride, keep, Index);
        var rxs := Select(k + 1, n, stride, keep, item);
        var ks, xs := [k] + rks, [item(k)] + rxs;
        forall i | 0 < i < |ks|
          ensures ks[i] == rks[i - 1] && xs[i] == rxs[i - 1]
        {
        }
      }
    }
  }

  /** Where `text[start:start + chunk_size]` begins and ends once Python has clamped the bounds. */
  function WindowLo(text: string, start: int): nat {
    SliceBound(start, |text|)
  }

  function WindowHi(text: string, start: int, chunkSize: int): (hi: nat)
    ensures WindowLo(text, start) <= hi <= |text|
  {
    var lo := WindowLo(text, start);
    var b := SliceBound(start + chunkSize, |text|);
    if lo < b then b else lo
  }

  /** `text[start:start + chunk_size]`. */
  function Window(text: string, start: int, chunkSize: int): (w: string)
    ensures w == text[WindowLo(text, start)..WindowHi(text, start, chunkSize)]
  {
    PySlice(text, start, start + chunkSize)
  }

  /** `len(chunk.strip()) >= min_size` for the window at `start`. */
  predicate Kept(text: string, start: int, chunkSize: int, minSize: int) {
    StrippedLength(text, WindowLo(text, start), WindowHi(text, start, chunkSize)) >= minSize
  }

  /** Kept is the source's test on the window's text. */
  lemma KeptIsStripTest(text: string, start: int, chunkSize: int, minSize: int)
    ensures Kept(text, start, chunkSize, minSize) <==> |Strip(Window(text, start, chunkSize))| >= minSize
  {
    StrippedLengthIsStrip(text, WindowLo(text, start), WindowHi(text, start, chunkSize));
  }

  /** Whether window `k` is kept. */
  function KeepAt(text: string, chunkSize: int, overlap: int, minSize: int): nat -> bool {
    (k: nat) => Kept(text, StartOf(k, chunkSize - overlap), chunkSize, minSize)
  }

  /** The text of window `k`. */
  function WindowAt(text: string, chunkSize: int, overlap: int): nat -> string {
    (k: nat) => Window(text, StartOf(k, chunkSize - overlap), chunkSize)
  }

  /** The kept windows from window `k` on: what the loop still appends once it has reached window `k`. */
  function ChunksFrom(text: string, k: nat, chunkSize: int, overlap: int, minSize: int): seq<string>
    requires overlap < chunkSize
  {
    Select(k, |text|, chunkSize - overlap, KeepAt(text, chunkSize, overlap, minSize), WindowAt(text, chunkSize, overlap))
  }

  /** The value `chunk_text(text, chunk_size, overlap, min_size)` returns. */
  function Chunks(text: string, chunkSize: int, overlap: int, minSize: int): seq<string>
    requires overlap < chunkSize
  {
    if |text| < minSize then [] else ChunksFrom(text, 0, chunkSize, overlap, minSize)
  }

  /** The indices of the windows `chunk_text` keeps. */
  function KeptIndices(text: string, chunkSize: int, overlap: int, minSize: int): seq<nat>
    requires overlap < chunkSize
  {
    if |text| < minSize then []
    else Select(0, |text|, chunkSize - overlap, KeepAt(text, chunkSize, overlap, minSize), Index)
  }

  /** The loop's invariant: the chunks so far followed by the kept windows from window `k` on are the answer. */
  predicate Progress(text: string, k: nat, chunkSize: int, overlap: int, minSize: int, chunks: seq<string>)
    requires overlap < chunkSize
  {
    chunks + ChunksFrom(text, k, chunkSize, overlap, minSize) == Chunks(text, chunkSize, overlap, minSize)
  }

  /** The chunk loop of build_database.py, proved to return `Chunks`. */
  method ChunkText(text: string, chunkSize: int, overlap: int, minSize: int) returns (chunks: seq<string>)
    requires overlap < chunkSize
    ensures chunks == Chunks(text, chunkSize, overlap, minSize)
    ensures |text| < minSize ==> chunks == []
  {
    if |text| < minSize {
      return [];
    }
    chunks := [];
    var start := 0;
    ghost var k: nat := 0;
    ProgressStart(text, chunkSize, overlap, minSize);
    while start < |text|
      invariant 0 <= start == StartOf(k, chunkSize - overlap)
      invariant Progress(text, k, chunkSize, overlap, minSize, chunks)
      decreases |text| - start
    {
      var end := start + chunkSize;
      var chunk := PySlice(text, start, end);
      var before := chunks;
      if |Strip(chunk)| >= minSize {
        chunks := chunks + [chunk];
      }
      ghost var previous := k;
      k := k + 1;
      LoopStep(text, previous, k, start, chunkSize, overlap, minSize, before, chunks);
      start := end - overlap;
    }
    ProgressDone(text, k, chunkSize, overlap, minSize, chunks);
  }

  /** One turn of the loop in ChunkText keeps its invariant. */
  lemma LoopStep(text: string, k: nat, next: nat, start: int, chunkSize: int, overlap: int, minSize: int,
                 before: seq<string>, after: seq<string>)
    requires overlap < chunkSize && start == StartOf(k, chunkSize - overlap) && start < |text|
    requires next == k + 1
    requires Progress(text, k, chunkSize, overlap, minSize, before)
    requires var w := PySlice(text, start, start + chunkSize);
      after == if |Strip(w)| >= minSize then before + [w] else before
    ensures StartOf(next, chunkSize - overlap) == start + chunkSize - overlap
    ensures Progress(text, next, chunkSize, overlap, minSize, after)
  {
    var stride := chunkSize - overlap;
    var keep := KeepAt(text, chunkSize, overlap, minSize);
    var item := WindowAt(text, chunkSize, overlap);
    var cur := ChunksFrom(text, k, chunkSize, overlap, minSize);
    var rest := ChunksFrom(text, k + 1, chunkSize, overlap, minSize);
    assert cur == Select(k, |text|, stride, keep, item);
    assert rest == Select(k + 1, |text|, stride, keep, item);
    StartStep(k, stride);
    SelectStep(k, |text|, stride, keep, item);
    var w := PySlice(text, start, start + chunkSize);
    assert item(k) == w;
    KeptIsStripTest(text, start, chunkSize, minSize);
    assert keep(k) <==> |Strip(w)| >= minSize;
    if keep(k) {
      assert cur == [w] + rest;
      ConcatAssoc(before, [w], rest);
    } else {
      assert cur == rest;
    }
  }

  /** Before the loop nothing is appended and every window is still to come. */
  lemma ProgressStart(text: string, chunkSize: int, overlap: int, minSize: int)
    requires overlap < chunkSize && |text| >= minSize
    ensures Progress(text, 0, chunkSize, overlap, minSize, [])
  {
    ConcatEmpty(ChunksFrom(text, 0, chunkSize, overlap, minSize));
  }

  /** Once window `k` starts past the text no window is left, so the chunks so far are the answer. */
  lemma ProgressDone(text: string, k: nat, chunkSize: int, overlap: int, minSize: int, chunks: seq<string>)
    requires overlap < chunkSize && StartOf(k, chunkSize - overlap) >= |text|
    requires Progress(text, k, chunkSize, overlap, minSize, chunks)
    ensures chunks == Chunks(text, chunkSize, overlap, minSize)
  {
    assert ChunksFrom(text, k, chunkSize, overlap, minSize) == [];
    ConcatEmpty(chunks);
  }

  /**
   * What `chunk_text` returns, given `len(text) >= min_size`: the windows at the
   * kept indices, which increase, and an index is kept exactly when its window
   * starts inside the text and its stripped length reaches `min_size`.
   */
  lemma ChunksAreKeptWindows(text: string, chunkSize: int, overlap: int, minSize: int)
    requires overlap < chunkSize && |text| >= minSize
    ensures var ks := KeptIndices(text, chunkSize, overlap, minSize);
      var cs := Chunks(text, chunkSize, overlap, minSize);
      && |cs| == |ks|
      && (forall i :: 0 <= i < |ks| ==> cs[i] == Window(text, StartOf(ks[i], chunkSize - overlap), chunkSize))
      && (forall i, j :: 0 <= i < j < |ks| ==> ks[i] < ks[j])
      && (forall j: nat :: j in ks <==>
            StartOf(j, chunkSize - overlap) < |text| && Kept(text, StartOf(j, chunkSize - overlap), chunkSize, minSize))
  {
    var keep := KeepAt(text, chunkSize, overlap, minSize);
    SelectedIndicesIncrease(0, |text|, chunkSize - overlap, keep);
    SelectedIndicesMembers(0, |text|, chunkSize - overlap, keep);
    SelectParallel(0, |text|, chunkSize - overlap, keep, WindowAt(text, chunkSize, overlap));
  }

  /** Chunk `i` is the window at the `i`-th kept index, which starts inside the text and is kept. */
  lemma ChunkIsKeptWindow(text: string, chunkSize: int, overlap: int, minSize: int, i: nat)
    requires overlap < chunkSize
    requires i < |Chunks(text, chunkSize, overlap, minSize)|
    ensures i < |KeptIndices(text, chunkSize, overlap, minSize)|
    ensures var s := StartOf(KeptIndices(text, chunkSize, overlap, minSize)[i], chunkSize - overlap);
      && s < |text| && Kept(text, s, chunkSize, minSize)
      && Chunks(text, chunkSize, overlap, minSize)[i] == Window(text, s, chunkSize)
  {
    assert |text| >= minSize;
    var stride := chunkSize - overlap;
    var keep := KeepAt(text, chunkSize, overlap, minSize);
    var item := WindowAt(text, chunkSize, overlap);
    var ks := Select(0, |text|, stride, keep, Index);
    assert ks == KeptIndices(text, chunkSize, overlap, minSize);
    assert Select(0, |text|, stride, keep, item) == Chunks(text, chunkSize, overlap, minSize);
    SelectParallel(0, |text|, stride, keep, item);
    SelectedIndicesMembers(0, |text|, stride, keep);
    assert ks[i] in ks;
    assert keep(ks[i]);
  }

  /** A window that starts inside the text is the plain infix from its start, clamped at the end. */
  lemma WindowInside(text: string, s: int, chunkSize: int)
    requires 0 <= s < |text| && 0 < chunkSize
    ensures var w := Window(text, s, chunkSize);
      && w == text[s..if s + chunkSize <= |text| then s + chunkSize else |text|]
      && 0 < |w| <= chunkSize
  {
  }

  /**
   * With a positive window width every chunk is the plain infix
   * `text[s..min(s + chunk_size, len(text))]` for a start `s = k * (chunk_size - overlap)`,
   * is at most `chunk_size` long, and has stripped length at least `min_size`.
   */
  lemma ChunkShape(text: string, chunkSize: int, overlap: int, minSize: int, i: nat)
    requires 0 < chunkSize && overlap < chunkSize
    requires i < |Chunks(text, chunkSize, overlap, minSize)|
    ensures i < |KeptIndices(text, chunkSize, overlap, minSize)|
    ensures var c := Chunks(text, chunkSize, overlap, minSize)[i];
      var s := StartOf(KeptIndices(text, chunkSize, overlap, minSize)[i], chunkSize - overlap);
      && 0 <= s < |text|
      && c == text[s..if s + chunkSize <= |text| then s + chunkSize else |text|]
      && 0 < |c| <= chunkSize
      && |Strip(c)| >= minSize
  {
    ChunkIsKeptWindow(text, chunkSize, overlap, minSize, i);
    var s := StartOf(KeptIndices(text, chunkSize, overlap, minSize)[i], chunkSize - overlap);
    StartNonNegative(KeptIndices(text, chunkSize, overlap, minSize)[i], chunkSize - overlap);
    WindowInside(text, s, chunkSize);
    KeptIsStripTest(text, s, chunkSize, minSize);
  }

  /**
   * The loop as written when `overlap >= chunk_size`: the stride is not positive,
   * so no window ever starts past the first, every start stays below `len(text)`
   * and `while start < len(text)` never exits on a non-empty text.
   */
  lemma {:induction false} WindowStartStalls(text: string, chunkSize: int, overlap: int, k: nat)
    requires overlap >= chunkSize && |text| > 0
    ensures StartOf(k, chunkSize - overlap) <= 0 < |text|
  {
    if k > 0 {
      WindowStartStalls(text, chunkSize, overlap, k - 1);
    }
  }
}
