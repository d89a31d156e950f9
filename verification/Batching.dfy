/** The greedy batching of the embedding plan (backend/app/repository_indexing/semantic.py). */
module Batching {
  import opened Chunking
  import opened Utf8

  const MAX_EMBEDDING_REQUEST_BYTES := 128_000

  /** A plan entry: a chunk of a file and its embedding text. */
  datatype Item = Item(file: File, chunk: Chunk, text: string)

  function Weight(item: Item): nat {
    Size(item.text)
  }

  function TotalSize(items: seq<Item>): nat {
    if items == [] then 0 else TotalSize(items[..|items| - 1]) + Weight(items[|items| - 1])
  }

  function Flatten(batches: seq<seq<Item>>): seq<Item> {
    if batches == [] then [] else Flatten(batches[..|batches| - 1]) + batches[|batches| - 1]
  }

  predicate BatchOk(batch: seq<Item>, batchSize: nat) {
    1 <= |batch| <= batchSize && (|batch| == 1 || TotalSize(batch) <= MAX_EMBEDDING_REQUEST_BYTES)
  }

  /** The batch could not have taken the text that starts the next one. */
  predicate Full(batch: seq<Item>, next: Item, batchSize: nat) {
    |batch| == batchSize || TotalSize(batch) + Weight(next) > MAX_EMBEDDING_REQUEST_BYTES
  }

  /** Every batch is within the limits, and each but the last had no room for the next one's first text. */
  ghost predicate Batched(batches: seq<seq<Item>>, batchSize: nat) {
    batches == [] ||
    (var n := |batches| - 1;
     && Batched(batches[..n], batchSize)
     && BatchOk(batches[n], batchSize)
     && (n > 0 ==> Full(batches[n - 1], batches[n][0], batchSize)))
  }

  lemma {:induction false} BatchedAt(batches: seq<seq<Item>>, batchSize: nat, i: nat)
    requires Batched(batches, batchSize) && i < |batches|
    ensures BatchOk(batches[i], batchSize)
    ensures i + 1 < |batches| ==> batches[i + 1] != [] && Full(batches[i], batches[i + 1][0], batchSize)
  {
    if i + 2 < |batches| { BatchedAt(batches[..|batches| - 1], batchSize, i); }
    else if i + 2 == |batches| { BatchedAt(batches[..|batches| - 1], batchSize, i); }
  }

  /** What the loop of `_batches` keeps: closed batches, and an open one that fits behind them. */
  ghost predicate Batching(done: seq<Item>, batches: seq<seq<Item>>, batch: seq<Item>, size: nat, batchSize: nat) {
    && size == TotalSize(batch)
    && Batched(batches, batchSize)
    && Flatten(batches) + batch == done
    && (batch == [] ==> batches == [] && done == [])
    && (batch != [] ==> BatchOk(batch, batchSize))
    && (batch != [] && batches != [] ==> Full(batches[|batches| - 1], batch[0], batchSize))
  }

  lemma Closed(done: seq<Item>, batches: seq<seq<Item>>, batch: seq<Item>, size: nat, item: Item, batchSize: nat)
    requires Batching(done, batches, batch, size, batchSize) && batchSize >= 1 && batch != []
    requires |batch| >= batchSize || size + Weight(item) > MAX_EMBEDDING_REQUEST_BYTES
    ensures Batching(done + [item], batches + [batch], [item], Weight(item), batchSize)
  {
  }

  /** One turn of the loop of `_batches`. */
  method AddText(batches: seq<seq<Item>>, batch: seq<Item>, size: nat, item: Item, batchSize: nat, ghost done: seq<Item>)
    returns (nextBatches: seq<seq<Item>>, nextBatch: seq<Item>, nextSize: nat)
    requires batchSize >= 1 && Batching(done, batches, batch, size, batchSize)
    ensures Batching(done + [item], nextBatches, nextBatch, nextSize, batchSize)
  {
    nextBatches, nextBatch, nextSize := batches, batch, size;
    var itemSize := Weight(item);
    if batch != [] && (|batch| >= batchSize || size + itemSize > MAX_EMBEDDING_REQUEST_BYTES) {
      Closed(done, batches, batch, size, item, batchSize);
      nextBatches := nextBatches + [nextBatch];
      nextBatch, nextSize := [], 0;
    }
    nextBatch := nextBatch + [item];
    nextSize := nextSize + itemSize;
  }

  lemma NothingBatched(batchSize: nat)
    ensures Batching([], [], [], 0, batchSize)
  {
  }

  /** The end of `_batches`: an open batch is closed. */
  method FinishBatches(batches: seq<seq<Item>>, batch: seq<Item>, size: nat, batchSize: nat, ghost done: seq<Item>)
    returns (all: seq<seq<Item>>)
    requires Batching(done, batches, batch, size, batchSize)
    ensures Batched(all, batchSize) && Flatten(all) == done
  {
    all := batches;
    if batch != [] {
      all := all + [batch];
    }
  }

  /**
   `_batches`: the batches concatenate to the plan in order, each is non-empty and within both
   limits, and each but the last is full: it had no room for the next text.
   */
  method Batches(plan: seq<Item>, batchSize: nat) returns (batches: seq<seq<Item>>)
    requires batchSize >= 1
    ensures Batched(batches, batchSize)
    ensures Flatten(batches) == plan
  {
    var batch: seq<Item>, size: nat := [], 0;
    batches := [];
    NothingBatched(batchSize);
    Prefixes(plan);
    for i := 0 to |plan|
      invariant Batching(plan[..i], batches, batch, size, batchSize)
    {
      batches, batch, size := AddText(batches, batch, size, plan[i], batchSize, plan[..i]);
    }
    batches := FinishBatches(batches, batch, size, batchSize, plan);
  }

  lemma Prefixes(plan: seq<Item>)
    ensures plan[..0] == [] && plan[..|plan|] == plan
    ensures forall i | 0 <= i < |plan| :: plan[..i] + [plan[i]] == plan[..i + 1]
  {
  }
}
