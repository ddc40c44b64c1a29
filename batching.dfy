/**
 * The part of `process_file` that hands chunks to the vector store: the cap on
 * chunks per file, the `range(0, len(chunks), batch_size)` batching and the
 * sequence of `collection.add` calls. The store is a class whose `add` may
 * raise; which batches it refuses is a parameter of the model.
 */
module Batching {
  import opened Wrappers
  import opened PyText
  import opened Json

  /** One `collection.add(ids=..., documents=..., metadatas=...)` call. */
  datatype Batch = Batch(ids: seq<string>, documents: seq<string>, metadatas: seq<Dict>)

  /** `chunks[:max_chunks_per_file]` when there are more chunks than the cap, else the chunks. */
  function Capped(chunks: seq<string>, max: int): seq<string> {
    if |chunks| > max then PySlice(chunks, 0, max) else chunks
  }

  /**
   * The capped chunks are a prefix of the chunks: all of them when they fit the
   * cap, exactly `max` of them when there are more and `max >= 0`; a negative
   * cap drops that many chunks from the end, as Python's slice does.
   */
  lemma CappedPrefix(chunks: seq<string>, max: int)
    ensures Capped(chunks, max) <= chunks
    ensures |chunks| <= max ==> Capped(chunks, max) == chunks
    ensures 0 <= max < |chunks| ==> |Capped(chunks, max)| == max
    ensures max < 0 ==> |Capped(chunks, max)| == if |chunks| + max < 0 then 0 else |chunks| + max
  {
  }

  /** `min(a, b)`. */
  function Min(a: int, b: int): int {
    if a < b then a else b
  }

  /** The batches the loop `for i in range(k, len(chunks), batch_size)` hands to `add`, from offset `k`. */
  function BatchesFrom(ids: seq<string>, docs: seq<string>, metas: seq<Dict>, k: nat, size: nat): seq<Batch>
    requires size > 0 && |ids| == |docs| == |metas|
    decreases |docs| - k
  {
    if k >= |docs| then []
    else
      var e := Min(k + size, |docs|);
      [Batch(ids[k..e], docs[k..e], metas[k..e])] + BatchesFrom(ids, docs, metas, k + size, size)
  }

  /** All ids handed over, batch after batch. */
  function AllIds(bs: seq<Batch>): seq<string>
    decreases |bs|
  {
    if |bs| == 0 then [] else bs[0].ids + AllIds(bs[1..])
  }

  function AllDocuments(bs: seq<Batch>): seq<string>
    decreases |bs|
  {
    if |bs| == 0 then [] else bs[0].documents + AllDocuments(bs[1..])
  }

  function AllMetadatas(bs: seq<Batch>): seq<Dict>
    decreases |bs|
  {
    if |bs| == 0 then [] else bs[0].metadatas + AllMetadatas(bs[1..])
  }

  /** Each batch is non-empty, holds at most `size` chunks, and its three lists line up. */
  predicate WellSized(bs: seq<Batch>, size: nat) {
    forall i :: 0 <= i < |bs| ==>
      0 < |bs[i].documents| <= size && |bs[i].ids| == |bs[i].documents| && |bs[i].metadatas| == |bs[i].documents|
  }

  lemma AllCons(head: Batch, rest: seq<Batch>)
    ensures AllDocuments([head] + rest) == head.documents + AllDocuments(rest)
    ensures AllIds([head] + rest) == head.ids + AllIds(rest)
    ensures AllMetadatas([head] + rest) == head.metadatas + AllMetadatas(rest)
  {
    assert ([head] + rest)[1..] == rest;
  }

  lemma SliceSplit<T>(s: seq<T>, k: nat, e: nat)
    requires k <= e <= |s|
    ensures s[k..] == s[k..e] + s[e..]
  {
  }

  /** Every batch is non-empty and at most `size` long, with its three lists in line. */
  lemma {:induction false} BatchesWellSized(ids: seq<string>, docs: seq<string>, metas: seq<Dict>, k: nat, size: nat)
    requires size > 0 && |ids| == |docs| == |metas|
    ensures WellSized(BatchesFrom(ids, docs, metas, k, size), size)
    decreases |docs| - k
  {
    var bs := BatchesFrom(ids, docs, metas, k, size);
    if k < |docs| {
      var e := Min(k + size, |docs|);
      var head := Batch(ids[k..e], docs[k..e], metas[k..e]);
      var rest := BatchesFrom(ids, docs, metas, k + size, size);
      assert bs == [head] + rest;
      BatchesWellSized(ids, docs, metas, k + size, size);
      forall i | 0 < i < |bs|
        ensures bs[i] == rest[i - 1]
      {
      }
    }
  }

  /**
   * Batching hands over every chunk exactly once and in order, with its own id
   * and metadata, in batches of at most `size` chunks.
   */
  lemma {:induction false} BatchesCover(ids: seq<string>, docs: seq<string>, metas: seq<Dict>, k: nat, size: nat)
    requires size > 0 && |ids| == |docs| == |metas| && k <= |docs|
    ensures var bs := BatchesFrom(ids, docs, metas, k, size);
      && AllDocuments(bs) == docs[k..]
      && AllIds(bs) == ids[k..]
      && AllMetadatas(bs) == metas[k..]
      && WellSized(bs, size)
    decreases |docs| - k
  {
    BatchesWellSized(ids, docs, metas, k, size);
    if k < |docs| {
      var e := Min(k + size, |docs|);
      var head := Batch(ids[k..e], docs[k..e], metas[k..e]);
      var rest := BatchesFrom(ids, docs, metas, k + size, size);
      assert BatchesFrom(ids, docs, metas, k, size) == [head] + rest;
      if e < |docs| {
        BatchesCover(ids, docs, metas, e, size);
      } else {
        assert rest == [];
      }
      AllCons(head, rest);
      SliceSplit(docs, k, e);
      SliceSplit(ids, k, e);
      SliceSplit(metas, k, e);
    }
  }

  /** A batch is refused, with the message of the exception, or accepted. */
  type Refusal = (seq<Batch>, Batch) -> Option<string>

  /**
   * What a run of `add` calls leaves in a store that held `stored`: the batches
   * are added in order until the store refuses one; the refusal's message ends
   * the run (and the `try` block).
   */
  function Submit(stored: seq<Batch>, todo: seq<Batch>, refuse: Refusal): (seq<Batch>, Option<string>)
    decreases |todo|
  {
    if |todo| == 0 then (stored, None)
    else match refuse(stored, todo[0])
      case Some(err) => (stored, Some(err))
      case None => Submit(stored + [todo[0]], todo[1..], refuse)
  }

  /** The first `k` batches of `todo`, each offered after the ones before it, are all accepted. */
  predicate AcceptedBefore(stored: seq<Batch>, todo: seq<Batch>, k: nat, refuse: Refusal)
    requires k <= |todo|
  {
    forall j :: 0 <= j < k ==> refuse(stored + todo[..j], todo[j]).None?
  }

  /**
   * Without a refusal every batch is accepted and stored, in order; after a
   * refusal the store holds exactly the batches before the first refused one,
   * which is the one whose message is reported.
   */
  lemma {:induction false} SubmitEffect(stored: seq<Batch>, todo: seq<Batch>, refuse: Refusal)
    ensures var (after, err) := Submit(stored, todo, refuse);
      && (err.None? ==> after == stored + todo && AcceptedBefore(stored, todo, |todo|, refuse))
      && (err.Some? ==> exists k :: 0 <= k < |todo| && after == stored + todo[..k] && refuse(after, todo[k]) == err
                          && AcceptedBefore(stored, todo, k, refuse))
    decreases |todo|
  {
    if |todo| == 0 {
      assert stored + todo == stored;
    } else if refuse(stored, todo[0]).None? {
      var (after, err) := Submit(stored, todo, refuse);
      var next, tail := stored + [todo[0]], todo[1..];
      SubmitEffect(next, tail, refuse);
      if err.None? {
        AcceptedCons(stored, todo, |todo|, refuse);
        AcceptedShift(stored, todo, |todo|);
      } else {
        var k :| 0 <= k < |tail| && after == next + tail[..k] && refuse(after, tail[k]) == err
                 && AcceptedBefore(next, tail, k, refuse);
        AcceptedCons(stored, todo, k + 1, refuse);
        AcceptedShift(stored, todo, k + 1);
        assert after == stored + todo[..k + 1] && refuse(after, todo[k + 1]) == err;
      }
    } else {
      assert stored + todo[..0] == stored;
      assert AcceptedBefore(stored, todo, 0, refuse);
    }
  }

  /** An accepted first batch followed by accepted batches of the tail. */
  lemma AcceptedCons(stored: seq<Batch>, todo: seq<Batch>, k: nat, refuse: Refusal)
    requires 0 < k <= |todo| && refuse(stored, todo[0]).None?
    requires AcceptedBefore(stored + [todo[0]], todo[1..], k - 1, refuse)
    ensures AcceptedBefore(stored, todo, k, refuse)
  {
    forall j | 0 <= j < k ensures refuse(stored + todo[..j], todo[j]).None? {
      if j == 0 {
        assert stored + todo[..0] == stored;
      } else {
        AcceptedShift(stored, todo, j);
      }
    }
  }

  /** The store before batch `j` of `todo` is the one before batch `j - 1` of its tail, after the first batch. */
  lemma AcceptedShift(stored: seq<Batch>, todo: seq<Batch>, j: nat)
    requires 0 < j <= |todo|
    ensures stored + todo[..j] == (stored + [todo[0]]) + todo[1..][..j - 1]
    ensures j < |todo| ==> todo[j] == todo[1..][j - 1]
  {
    assert todo[..j] == [todo[0]] + todo[1..][..j - 1];
  }

  /** The vector collection: the batches it holds, in the order they were added. */
  class Collection {
    var batches: seq<Batch>
    /** Which batches `add` refuses, given what the collection already holds. */
    const refuse: Refusal

    constructor(refuse: Refusal)
      ensures batches == [] && this.refuse == refuse
    {
      batches := [];
      this.refuse := refuse;
    }

    /** `collection.add(...)`: store the batch, or raise with the refusal's message and store nothing. */
    method Add(b: Batch) returns (err: Option<string>)
      modifies this
      ensures err == refuse(old(batches), b)
      ensures err.None? ==> batches == old(batches) + [b]
      ensures err.Some? ==> batches == old(batches)
    {
      err := refuse(batches, b);
      if err.None? {
        batches := batches + [b];
      }
    }
  }
}
