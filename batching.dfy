/** Splitting the seed items into the batches of a `BatchWriteItem` call,
    which accepts at most 25 put requests. */
module Batching {
  import opened Records

  /** The most put requests one `BatchWriteItem` call accepts. */
  const BATCH_SIZE: nat := 25

  /** The batches laid end to end. */
  function Flatten<T>(bs: seq<seq<T>>): seq<T> {
    if bs == [] then [] else bs[0] + Flatten(bs[1..])
  }

  lemma {:induction false} FlattenSnoc<T>(bs: seq<seq<T>>, b: seq<T>)
    ensures Flatten(bs + [b]) == Flatten(bs) + b
  {
    if bs == [] {
      assert Flatten([b]) == b + Flatten([b][1..]);
    } else {
      assert (bs + [b])[1..] == bs[1..] + [b];
      FlattenSnoc(bs[1..], b);
    }
  }

  /** `bs` splits `s` into contiguous batches, in order, none of them empty,
      none above the limit, and all but the last of them full. */
  ghost predicate IsBatching<T>(bs: seq<seq<T>>, s: seq<T>) {
    && Flatten(bs) == s
    && (forall k :: 0 <= k < |bs| ==> 1 <= |bs[k]| <= BATCH_SIZE)
    && (forall k :: 0 <= k < |bs| - 1 ==> |bs[k]| == BATCH_SIZE)
  }

  /** The reference split: full batches from the front, the rest last. */
  function Chunks<T>(s: seq<T>): seq<seq<T>>
    decreases |s|
  {
    if s == [] then []
    else if |s| <= BATCH_SIZE then [s]
    else [s[..BATCH_SIZE]] + Chunks(s[BATCH_SIZE..])
  }

  /** `Chunks` is a batching, with ceil(N / 25) batches for N items (none
      for none). */
  lemma {:induction false} ChunksIsBatching<T>(s: seq<T>)
    ensures IsBatching(Chunks(s), s)
    ensures |Chunks(s)| == (|s| + BATCH_SIZE - 1) / BATCH_SIZE
    decreases |s|
  {
    if s == [] {
    } else if |s| <= BATCH_SIZE {
      assert Flatten([s]) == s + Flatten([s][1..]);
    } else {
      var rest := s[BATCH_SIZE..];
      ChunksIsBatching(rest);
      var bs := Chunks(s);
      assert bs == [s[..BATCH_SIZE]] + Chunks(rest);
      assert bs[1..] == Chunks(rest);
      assert s[..BATCH_SIZE] + rest == s;
    }
  }

  /** The last batch holds N mod 25 items, or 25 when 25 divides N. */
  lemma {:induction false} LastBatchSize<T>(s: seq<T>)
    requires s != []
    ensures |Chunks(s)| >= 1
    ensures |Chunks(s)[|Chunks(s)| - 1]| == if |s| % BATCH_SIZE == 0 then BATCH_SIZE else |s| % BATCH_SIZE
    decreases |s|
  {
    if |s| > BATCH_SIZE {
      var rest := s[BATCH_SIZE..];
      LastBatchSize(rest);
      assert Chunks(s) == [s[..BATCH_SIZE]] + Chunks(rest);
      assert |s| % BATCH_SIZE == |rest| % BATCH_SIZE;
    }
  }

  /** There is only one batching of a sequence: whoever splits it under
      these rules produces `Chunks`. */
  lemma {:induction false} BatchingIsChunks<T>(bs: seq<seq<T>>, s: seq<T>)
    requires IsBatching(bs, s)
    ensures bs == Chunks(s)
    decreases |bs|
  {
    if bs == [] {
    } else {
      var rest := bs[1..];
      assert s == bs[0] + Flatten(rest);
      if rest == [] {
        assert s == bs[0];
      } else {
        assert |bs[0]| == BATCH_SIZE;
        assert Flatten(rest) == rest[0] + Flatten(rest[1..]);
        assert |s| > BATCH_SIZE;
        assert s[..BATCH_SIZE] == bs[0];
        assert s[BATCH_SIZE..] == Flatten(rest);
        assert forall k :: 0 <= k < |rest| ==> rest[k] == bs[k + 1];
        BatchingIsChunks(rest, s[BATCH_SIZE..]);
      }
    }
  }

  /** The first loop of the bulk load: maps each seed movie to its item and
      collects the items into batches of at most 25, pushing a batch when
      it is full and the unfinished one at the end if it is not empty. */
  method BuildBatches(json: seq<SourceMovie>) returns (batches: seq<seq<Item>>)
    ensures IsBatching(batches, MapAll(json))
    ensures |batches| == (|json| + BATCH_SIZE - 1) / BATCH_SIZE
    ensures batches == Chunks(MapAll(json))
  {
    ghost var items := MapAll(json);
    batches := [];
    var batch: seq<Item> := [];
    for i := 0 to |json|
      invariant Flatten(batches) + batch == items[..i]
      invariant forall k :: 0 <= k < |batches| ==> |batches[k]| == BATCH_SIZE
      invariant |batch| <= BATCH_SIZE
      invariant i > 0 ==> |batch| >= 1
      invariant |batches| * BATCH_SIZE + |batch| == i
    {
      if |batch| == BATCH_SIZE {
        FlattenSnoc(batches, batch);
        batches := batches + [batch];
        batch := [];
      }
      batch := batch + [MapMovie(json[i])];
      assert items[..i + 1] == items[..i] + [items[i]];
    }
    if |batch| != 0 {
      FlattenSnoc(batches, batch);
      batches := batches + [batch];
    }
    assert items[..|json|] == items;
    BatchingIsChunks(batches, items);
    ChunksIsBatching(items);
  }
}
