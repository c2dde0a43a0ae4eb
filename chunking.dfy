/** The generator `chunks(lst, n)` of workflow/scripts/KEGG.py: the slices
    `lst[i:i + n]` for `i` in `range(0, len(lst), n)`. */
module Chunking {
  import opened Wrappers
  import opened Sequences

  function Min(a: int, b: int): int
  {
    if a <= b then a else b
  }

  /** What the generator still yields once its loop index has reached `i`.
      A Python slice past the end is clamped, hence the `Min`. */
  function ChunksFrom<T>(lst: seq<T>, n: nat, i: nat): seq<seq<T>>
    requires n > 0
    decreases |lst| - i
  {
    if i >= |lst| then [] else [lst[i..Min(i + n, |lst|)]] + ChunksFrom(lst, n, i + n)
  }

  /** All chunks of `lst`, for a positive chunk size. */
  function Chunks<T>(lst: seq<T>, n: nat): seq<seq<T>>
    requires n > 0
  {
    ChunksFrom(lst, n, 0)
  }

  /** `range` raises ValueError for a zero step. */
  datatype ChunkError = ZeroStep

  /** `chunks` for any integer size: a zero size raises, and a negative size
      gives an empty range and so no chunks at all. */
  function ChunksChecked<T>(lst: seq<T>, n: int): (r: Result<seq<seq<T>>, ChunkError>)
    ensures r.Err? <==> n == 0
    ensures n < 0 ==> r == Ok([])
    ensures n > 0 ==> r.Ok? && Flatten(r.value) == lst
  {
    if n == 0 then Err(ZeroStep)
    else if n < 0 then Ok([])
    else
      ChunksConcat(lst, n);
      Ok(Chunks(lst, n))
  }

  lemma {:induction false} ChunksFromConcat<T>(lst: seq<T>, n: nat, i: nat)
    requires n > 0
    ensures Flatten(ChunksFrom(lst, n, i)) == lst[Min(i, |lst|)..]
    decreases |lst| - i
  {
    if i < |lst| {
      ChunksFromConcat(lst, n, i + n);
      assert lst[i..] == lst[i..Min(i + n, |lst|)] + lst[Min(i + n, |lst|)..];
    }
  }

  /** Concatenating the chunks gives back the list, in order. */
  lemma ChunksConcat<T>(lst: seq<T>, n: nat)
    requires n > 0
    ensures Flatten(Chunks(lst, n)) == lst
  {
    ChunksFromConcat(lst, n, 0);
  }

  lemma {:induction false} ChunksFromAt<T>(lst: seq<T>, n: nat, i: nat, k: nat)
    requires n > 0 && k < |ChunksFrom(lst, n, i)|
    ensures i + k * n < |lst|
    ensures ChunksFrom(lst, n, i)[k] == lst[i + k * n..Min(i + k * n + n, |lst|)]
    decreases k
  {
    if k > 0 {
      ChunksFromAt(lst, n, i + n, k - 1);
      assert i + n + (k - 1) * n == i + k * n;
    }
  }

  /** Chunk `k` is the slice `lst[k*n : (k+1)*n]`, clamped to the list. */
  lemma ChunkAt<T>(lst: seq<T>, n: nat, k: nat)
    requires n > 0 && k < |Chunks(lst, n)|
    ensures k * n < |lst|
    ensures Chunks(lst, n)[k] == lst[k * n..Min(k * n + n, |lst|)]
  {
    ChunksFromAt(lst, n, 0, k);
  }

  /** Every chunk is non-empty and at most `n` long; all but the last are exactly `n` long. */
  lemma ChunkSizes<T>(lst: seq<T>, n: nat)
    requires n > 0
    ensures forall k :: 0 <= k < |Chunks(lst, n)| ==> 0 < |Chunks(lst, n)[k]| <= n
    ensures forall k :: 0 <= k < |Chunks(lst, n)| - 1 ==> |Chunks(lst, n)[k]| == n
  {
    forall k | 0 <= k < |Chunks(lst, n)|
      ensures 0 < |Chunks(lst, n)[k]| <= n
      ensures k < |Chunks(lst, n)| - 1 ==> |Chunks(lst, n)[k]| == n
    {
      ChunkAt(lst, n, k);
      if k < |Chunks(lst, n)| - 1 {
        ChunkAt(lst, n, k + 1);
        assert (k + 1) * n == k * n + n;
      }
    }
  }

  lemma {:induction false} ChunksFromCount<T>(lst: seq<T>, n: nat, i: nat)
    requires n > 0 && i <= |lst|
    ensures |lst| - i <= |ChunksFrom(lst, n, i)| * n < |lst| - i + n
    decreases |lst| - i
  {
    if i < |lst| && i + n <= |lst| {
      var m := |ChunksFrom(lst, n, i + n)|;
      ChunksFromCount(lst, n, i + n);
      assert (m + 1) * n == m * n + n;
    }
  }

  /** There are ceil(len(lst) / n) chunks, that is the least count whose
      multiple of `n` covers the list; an empty list gives none. */
  lemma ChunkCount<T>(lst: seq<T>, n: nat)
    requires n > 0
    ensures |lst| <= |Chunks(lst, n)| * n < |lst| + n
    ensures |Chunks(lst, n)| == 0 <==> |lst| == 0
  {
    ChunksFromCount(lst, n, 0);
  }
}
