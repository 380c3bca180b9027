/** Overlapping token windows (`src/documents/chunk.ts`). The tokeniser's `encode`
    and `decode` are left out: a text is its tokens. */
module Chunking {
  import opened Arithmetic

  datatype TextChunk = TextChunk(index: nat, content: seq<int>, tokenCount: nat)

  function Step(chunkSize: nat, overlap: int): (step: nat)
    ensures step >= 1
  {
    if chunkSize - overlap > 1 then chunkSize - overlap else 1
  }

  function Window(tokens: seq<int>, start: nat, size: nat): seq<int>
    requires start <= |tokens|
  {
    tokens[start..Min(start + size, |tokens|)]
  }

  /** The chunks from `start` on. */
  function Windows(tokens: seq<int>, start: nat, index: nat, size: nat, step: nat): seq<TextChunk>
    requires step >= 1
    decreases |tokens| - start
  {
    if start >= |tokens| then []
    else
      var slice := Window(tokens, start, size);
      [TextChunk(index, slice, |slice|)] +
      if start + size >= |tokens| then [] else Windows(tokens, start + step, index + 1, size, step)
  }

  lemma NextWindow(tokens: seq<int>, start: nat, index: nat, size: nat, step: nat)
    requires step >= 1
    ensures var windows := Windows(tokens, start, index, size, step);
            if start >= |tokens| then windows == []
            else
              var slice := Window(tokens, start, size);
              var chunk := TextChunk(index, slice, |slice|);
              windows == [chunk] + if start + size >= |tokens| then [] else Windows(tokens, start + step, index + 1, size, step)
  {
  }

  method ChunkText(tokens: seq<int>, chunkSize: nat, overlap: int) returns (chunks: seq<TextChunk>)
    ensures chunks == Windows(tokens, 0, 0, chunkSize, Step(chunkSize, overlap))
  {
    hide Windows, Window, Step;
    var step := Step(chunkSize, overlap);
    ghost var all := Windows(tokens, 0, 0, chunkSize, step);
    NextWindow(tokens, 0, 0, chunkSize, step);
    if |tokens| == 0 { return []; }
    chunks := [];
    var start, index := 0, 0;
    ghost var rest := all;
    while start < |tokens|
      invariant rest == Windows(tokens, start, index, chunkSize, step)
      invariant chunks + rest == all
      decreases |tokens| - start
    {
      var slice := Window(tokens, start, chunkSize);
      NextWindow(tokens, start, index, chunkSize, step);
      rest := rest[1..];
      chunks := chunks + [TextChunk(index, slice, |slice|)];
      assert chunks + rest == all;
      if start + chunkSize >= |tokens| { break; }
      start, index := start + step, index + 1;
    }
    NextWindow(tokens, start, index, chunkSize, step);
  }

  /** Chunk `k` is the window at `k` steps, and there is another exactly while the last
      one has not reached the end. */
  lemma {:induction false} ChunkIsWindow(tokens: seq<int>, start: nat, index: nat, size: nat, step: nat, k: nat)
    requires 1 <= step <= size && start < |tokens|
    ensures var chunks, at := Windows(tokens, start, index, size, step), start + k * step;
            && (k < |chunks| <==> k == 0 || at - step + size < |tokens|)
            && (k < |chunks| ==>
                  at < |tokens| && chunks[k] == TextChunk(index + k, Window(tokens, at, size), |Window(tokens, at, size)|))
    decreases k
  {
    hide Windows, Window;
    NextWindow(tokens, start, index, size, step);
    if k > 0 {
      OneMore(step, k - 1);
      Scale(step, 0, k - 1);
      if start + size < |tokens| {
        ChunkIsWindow(tokens, start + step, index + 1, size, step, k - 1);
      }
    }
  }

  /** `1 + ceil(max(0, n - size) / step)` */
  function ChunkCount(n: nat, size: nat, step: nat): nat
    requires step >= 1
  {
    if n == 0 then 0 else if n <= size then 1 else 1 + (n - size + step - 1) / step
  }

  lemma {:induction false} NumberOfChunks(tokens: seq<int>, start: nat, index: nat, size: nat, step: nat)
    requires 1 <= step <= size && start <= |tokens|
    ensures |Windows(tokens, start, index, size, step)| == ChunkCount(|tokens| - start, size, step)
    decreases |tokens| - start
  {
    hide Windows, ChunkCount;
    NextWindow(tokens, start, index, size, step);
    CountStep(|tokens| - start, size, step);
    if |tokens| - start > size { NumberOfChunks(tokens, start + step, index + 1, size, step); }
  }

  lemma CountStep(n: nat, size: nat, step: nat)
    requires 1 <= step <= size
    ensures ChunkCount(n, size, step) == if n == 0 then 0 else if n <= size then 1 else 1 + ChunkCount(n - step, size, step)
  {
    if n > size {
      var x := n - size + step - 1;
      if n - step <= size {
        Quotient(x, 1, step);
      } else {
        var q := (x - step) / step;
        assert x - step == q * step + (x - step) % step;
        OneMore(step, q);
        OneMore(step, q + 1);
        Quotient(x, q + 1, step);
      }
    }
  }

  // ----- nothing lost, nothing repeated but the overlap

  /** The chunks without their first `lap` tokens, one after another. */
  function NewTokens(chunks: seq<TextChunk>, lap: nat): seq<int>
  {
    if chunks == [] then []
    else (if lap <= |chunks[0].content| then chunks[0].content[lap..] else []) + NewTokens(chunks[1..], lap)
  }

  function Rebuilt(chunks: seq<TextChunk>, lap: nat): seq<int>
  {
    if chunks == [] then [] else chunks[0].content + NewTokens(chunks[1..], lap)
  }

  /** Dropping what overlaps rebuilds the text. */
  lemma {:induction false} ChunksRebuild(tokens: seq<int>, start: nat, index: nat, size: nat, step: nat)
    requires 1 <= step <= size && start <= |tokens|
    ensures Rebuilt(Windows(tokens, start, index, size, step), size - step) == tokens[start..]
    decreases |tokens| - start
  {
    hide Windows, NewTokens;
    NextWindow(tokens, start, index, size, step);
    var chunks, lap := Windows(tokens, start, index, size, step), size - step;
    if start == |tokens| {
    } else if start + size >= |tokens| {
      NoNewTokens(lap);
      assert chunks[1..] == [] && chunks[0].content == tokens[start..];
    } else {
      var rest := Windows(tokens, start + step, index + 1, size, step);
      assert chunks[1..] == rest;
      ChunksRebuild(tokens, start + step, index + 1, size, step);
      NextWindow(tokens, start + step, index + 1, size, step);
      Overlap(tokens, start, rest, size, step);
    }
  }

  lemma NoNewTokens(lap: nat)
    ensures NewTokens([], lap) == []
  {
  }

  lemma Overlap(tokens: seq<int>, start: nat, rest: seq<TextChunk>, size: nat, step: nat)
    requires 1 <= step <= size && start + size < |tokens| && rest != []
    requires rest[0].content == Window(tokens, start + step, size) && Rebuilt(rest, size - step) == tokens[start + step..]
    ensures Window(tokens, start, size) + NewTokens(rest, size - step) == tokens[start..]
  {
    hide NewTokens;
    var lap, next := size - step, rest[0].content;
    var tail := NewTokens(rest[1..], lap);
    NextNewTokens(rest, lap);
    Split(next, tail, lap);
    assert tokens[start + step..][lap..] == tokens[start + size..];
    assert tokens[start..start + size] + tokens[start + size..] == tokens[start..];
  }

  lemma NextNewTokens(rest: seq<TextChunk>, lap: nat)
    requires rest != [] && lap <= |rest[0].content|
    ensures NewTokens(rest, lap) == rest[0].content[lap..] + NewTokens(rest[1..], lap)
  {
  }

  lemma Split(a: seq<int>, b: seq<int>, n: nat)
    requires n <= |a|
    ensures a[n..] + b == (a + b)[n..]
  {
  }

  /** Every chunk but the first adds tokens. */
  lemma EveryChunkAddsTokens(tokens: seq<int>, size: nat, step: nat, k: nat)
    requires 1 <= step <= size && 0 < k < |Windows(tokens, 0, 0, size, step)|
    ensures |Windows(tokens, 0, 0, size, step)[k].content| > size - step
  {
    ChunkIsWindow(tokens, 0, 0, size, step, k);
  }

  /** Consecutive chunks share exactly `overlap` tokens, the last of one being the first
      of the next, while it is less than the chunk size; else each starts one further. */
  lemma ConsecutiveChunks(tokens: seq<int>, size: nat, overlap: nat, k: nat)
    requires size >= 1
    ensures var chunks := Windows(tokens, 0, 0, size, Step(size, overlap));
            && (k < |chunks| ==> chunks[k].index == k && chunks[k].tokenCount == |chunks[k].content|)
            && (k + 1 < |chunks| && overlap < size ==>
                  && |chunks[k].content| == size && |chunks[k + 1].content| > overlap
                  && chunks[k].content[size - overlap..] == chunks[k + 1].content[..overlap])
            && (k + 1 < |chunks| && overlap >= size ==>
                  && |chunks[k].content| == size == |chunks[k + 1].content|
                  && chunks[k].content[1..] == chunks[k + 1].content[..size - 1])
  {
    hide Windows, Window;
    var step := Step(size, overlap);
    if tokens == [] {
      NextWindow(tokens, 0, 0, size, step);
    } else {
      ChunkIsWindow(tokens, 0, 0, size, step, k);
      ChunkIsWindow(tokens, 0, 0, size, step, k + 1);
      var start, next := k * step, (k + 1) * step;
      OneMore(step, k);
      assert next == start + step;
      if k + 1 < |Windows(tokens, 0, 0, size, step)| { WindowsShare(tokens, start, size, step); }
    }
  }

  lemma WindowsShare(tokens: seq<int>, start: nat, size: nat, step: nat)
    requires 1 <= step <= size && start + size < |tokens|
    ensures var a, b := Window(tokens, start, size), Window(tokens, start + step, size);
            && |a| == size && |b| > size - step && (step == 1 ==> |b| == size)
            && a[step..] == b[..size - step]
  {
  }

  /** Token `i` is in some chunk. */
  ghost predicate Covered(tokens: seq<int>, i: nat, size: nat, step: nat)
    requires step >= 1
  {
    exists k: nat :: k < |Windows(tokens, 0, 0, size, step)| && InChunk(Windows(tokens, 0, 0, size, step)[k], k, i, step)
  }

  predicate InChunk(chunk: TextChunk, k: nat, i: nat, step: nat)
  {
    k * step <= i < k * step + |chunk.content|
  }

  lemma {:induction false} TokenIsCovered(tokens: seq<int>, i: nat, size: nat, step: nat, k: nat)
    requires 1 <= step <= size && i < |tokens| && k * step <= i
    requires k < |Windows(tokens, 0, 0, size, step)|
    ensures Covered(tokens, i, size, step)
    decreases i - k * step
  {
    hide Windows;
    ChunkIsWindow(tokens, 0, 0, size, step, k);
    if !InChunk(Windows(tokens, 0, 0, size, step)[k], k, i, step) {
      assert (k + 1) * step == k * step + step;
      ChunkIsWindow(tokens, 0, 0, size, step, k + 1);
      TokenIsCovered(tokens, i, size, step, k + 1);
    }
  }

  /** No text loses a token exactly if a step is no longer than a chunk: with a positive
      chunk size, exactly if the overlap is not negative. */
  lemma NothingLostIffStepFits(size: nat, overlap: int)
    ensures (forall tokens: seq<int>, i: nat :: i < |tokens| ==> Covered(tokens, i, size, Step(size, overlap)))
            <==> Step(size, overlap) <= size
    ensures Step(size, overlap) <= size <==> size >= 1 && overlap >= 0
  {
    var step := Step(size, overlap);
    if step <= size {
      forall tokens: seq<int>, i: nat | i < |tokens|
        ensures Covered(tokens, i, size, step)
      {
        ChunkIsWindow(tokens, 0, 0, size, step, 0);
        TokenIsCovered(tokens, i, size, step, 0);
      }
    } else {
      var tokens := Zeros(size + 1);
      OneChunk(tokens, size, step);
      assert !Covered(tokens, size, size, step);
    }
  }

  function Zeros(n: nat): (r: seq<int>)
    ensures |r| == n
  {
    if n == 0 then [] else Zeros(n - 1) + [0]
  }

  lemma OneChunk(tokens: seq<int>, size: nat, step: nat)
    requires step > size && |tokens| == size + 1
    ensures |Windows(tokens, 0, 0, size, step)| == 1 && |Windows(tokens, 0, 0, size, step)[0].content| == size
  {
  }
}
