/**
 * Upserting vectors in consecutive batches, the loop
 * `for i in range(0, len(vectors), batch_size): batch = vectors[i:i + batch_size]`
 * shared by `src/vector_store.py` and `backend/app/services/rag_service.py`.
 */
module Batching {
  import opened Seqs

  /** Both stores send at most this many vectors per upsert call. */
  const BatchSize: nat := 100

  /** `[s[i:i + size] for i in range(0, len(s), size)]`. */
  function Batches<T>(s: seq<T>, size: nat): seq<seq<T>>
    requires size > 0
    decreases |s|
  {
    if |s| == 0 then []
    else if |s| <= size then [s]
    else [s[..size]] + Batches(s[size..], size)
  }

  /** The batches, concatenated in order, give back the input. */
  lemma {:induction false} BatchesCover<T>(s: seq<T>, size: nat)
    requires size > 0
    ensures Flatten(Batches(s, size)) == s
    decreases |s|
  {
    if |s| > size {
      BatchesCover(s[size..], size);
      assert s == s[..size] + s[size..];
    } else if |s| > 0 {
      assert Flatten([s]) == s + Flatten([]);
    }
  }

  /**
   * Batch `k` is the slice `s[k * size : (k + 1) * size]`: every batch but
   * the last holds exactly `size` vectors, and the last between 1 and `size`.
   */
  lemma {:induction false} BatchAt<T>(s: seq<T>, size: nat, k: nat)
    requires size > 0 && k < |Batches(s, size)|
    ensures k * size < |s|
    ensures Batches(s, size)[k] == s[k * size .. if (k + 1) * size <= |s| then (k + 1) * size else |s|]
    decreases |s|
  {
    if |s| > size && k > 0 {
      var rest := s[size..];
      assert Batches(s, size)[k] == Batches(rest, size)[k - 1];
      BatchAt(rest, size, k - 1);
      assert (k - 1) * size + size == k * size;
      assert k * size + size == (k + 1) * size;
    }
  }

  /** There is a batch `k` exactly when `k * size` is below the length (`range(0, len(s), size)`). */
  lemma {:induction false} BatchStarts<T>(s: seq<T>, size: nat, k: nat)
    requires size > 0
    ensures k < |Batches(s, size)| <==> k * size < |s|
    decreases |s|
  {
    if |s| > size && k > 0 {
      BatchStarts(s[size..], size, k - 1);
      assert (k - 1) * size + size == k * size;
    }
  }

  /** The vectors an index ends up holding: the batches whose upsert call succeeded, in order. */
  function StoredBy<T>(batches: seq<seq<T>>, succeeds: nat -> bool): seq<T> {
    if |batches| == 0 then []
    else
      var last := if succeeds(|batches| - 1) then batches[|batches| - 1] else [];
      StoredBy(batches[..|batches| - 1], succeeds) + last
  }

  /** When every call succeeds, every vector is stored, in order. */
  lemma {:induction false} StoredByAll<T>(batches: seq<seq<T>>, succeeds: nat -> bool)
    requires forall k :: 0 <= k < |batches| ==> succeeds(k)
    ensures StoredBy(batches, succeeds) == Flatten(batches)
  {
    if |batches| > 0 {
      var init := batches[..|batches| - 1];
      StoredByAll(init, succeeds);
      assert batches == init + [batches[|batches| - 1]];
      FlattenAppend(init, [batches[|batches| - 1]]);
      assert Flatten([batches[|batches| - 1]]) == batches[|batches| - 1] + Flatten([]);
    }
  }

  /** A failed call loses only its own batch: a later successful batch is still stored, after everything stored before it. */
  lemma {:induction false} StoredByLater<T>(batches: seq<seq<T>>, succeeds: nat -> bool, k: nat)
    requires k < |batches| && succeeds(k)
    ensures exists post :: StoredBy(batches, succeeds) == StoredBy(batches[..k], succeeds) + batches[k] + post
  {
    var n := |batches|;
    var init := batches[..n - 1];
    if k == n - 1 {
      assert init == batches[..k];
      assert StoredBy(batches, succeeds) == StoredBy(batches[..k], succeeds) + batches[k] + [];
    } else {
      StoredByLater(init, succeeds, k);
      var post :| StoredBy(init, succeeds) == StoredBy(init[..k], succeeds) + init[k] + post;
      assert init[..k] == batches[..k];
      var tail := if succeeds(n - 1) then batches[n - 1] else [];
      assert StoredBy(batches, succeeds) == StoredBy(batches[..k], succeeds) + batches[k] + (post + tail);
    }
  }

  /**
   * The upsert loop with a handler around each call: every batch is tried,
   * in order, and a failing one (`succeeds(k)` false) is skipped.
   */
  method UpsertInBatches<T>(vectors: seq<T>, succeeds: nat -> bool) returns (stored: seq<T>, calls: nat)
    ensures calls == |Batches(vectors, BatchSize)|
    ensures stored == StoredBy(Batches(vectors, BatchSize), succeeds)
  {
    ghost var batches := Batches(vectors, BatchSize);
    stored, calls := [], 0;
    var i := 0;
    while i < |vectors|
      invariant i == calls * BatchSize && calls <= |batches|
      invariant stored == StoredBy(batches[..calls], succeeds)
      decreases |vectors| - i
    {
      BatchStarts(vectors, BatchSize, calls);
      BatchAt(vectors, BatchSize, calls);
      var batch := vectors[i..if i + BatchSize <= |vectors| then i + BatchSize else |vectors|];
      assert batch == batches[calls];
      assert batches[..calls + 1][..calls] == batches[..calls];
      if succeeds(calls) {
        stored := stored + batch;
      }
      calls := calls + 1;
      i := i + BatchSize;
    }
    BatchStarts(vectors, BatchSize, calls);
    assert batches[..calls] == batches;
  }
}
