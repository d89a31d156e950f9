/**
 Embedding texts, their batches and the provider's input check
 (backend/app/repository_indexing/{chunking,semantic}.py, backend/app/embeddings/base.py).
 */
module Embedding {
  import opened Wrappers
  import opened Batching
  import opened Chunking
  import opened PyText
  import opened Utf8

  const MAX_EMBEDDING_TEXT_BYTES := 8000
  const MAX_INDEX_CHUNKS := 10_000

  const FILE_LABEL := "File: "
  const SYMBOLS_LABEL := "\nSymbols: "
  const BLANK_LINE := "\n\n"

  /** `embedding_text`. */
  function EmbeddingText(file: File, chunk: Chunk): string {
    FILE_LABEL + BytePrefix(file.path, 1024) + SYMBOLS_LABEL
    + BytePrefix(Join(chunk.symbolNames, ", "), 256) + BLANK_LINE + chunk.content
  }

  lemma LabelSizes()
    ensures Size(FILE_LABEL) == 6 && Size(SYMBOLS_LABEL) == 10 && Size(BLANK_LINE) == 2
  {
  }

  lemma SizeOfSix(a: string, b: string, c: string, d: string, e: string, f: string)
    ensures Size(a + b + c + d + e + f) == Size(a) + Size(b) + Size(c) + Size(d) + Size(e) + Size(f)
  {
    SizeOfConcat(a, b);
    SizeOfConcat(a + b, c);
    SizeOfConcat(a + b + c, d);
    SizeOfConcat(a + b + c + d, e);
    SizeOfConcat(a + b + c + d + e, f);
  }

  predicate Acceptable(text: string, limit: nat) {
    Size(text) <= limit && !Blank(text)
  }

  lemma EmbeddingTextIsVisible(file: File, chunk: Chunk)
    ensures !Blank(EmbeddingText(file, chunk))
  {
    assert EmbeddingText(file, chunk)[0] == FILE_LABEL[0] == 'F';
  }

  /** The text ends with the chunk, after a blank line, and starts with the path, as far as it has 1024 bytes. */
  lemma EmbeddingTextShows(file: File, chunk: Chunk) returns (path: string, listed: string)
    ensures EmbeddingText(file, chunk) == "File: " + path + "\nSymbols: " + listed + "\n\n" + chunk.content
    ensures Longest(path, file.path, 1024) && Longest(listed, Join(chunk.symbolNames, ", "), 256)
  {
    var names := Join(chunk.symbolNames, ", ");
    BytePrefixIsLongest(file.path, 1024);
    BytePrefixIsLongest(names, 256);
    path, listed := BytePrefix(file.path, 1024), BytePrefix(names, 256);
  }

  /** The longest start of a text that fits the limit. */
  predicate Longest(start: string, text: string, limit: nat) {
    start <= text && Size(start) <= limit && (|start| < |text| ==> Size(text[..|start| + 1]) > limit)
  }

  /** Under the chunk settings an embedding text has at most 7298 bytes, whatever the file holds. */
  lemma EmbeddingTextFits(file: File, chunk: Chunk)
    requires |chunk.content| <= 1500
    ensures Acceptable(EmbeddingText(file, chunk), 7298)
  {
    var names := Join(chunk.symbolNames, ", ");
    LabelSizes();
    BytePrefixIsLongest(file.path, 1024);
    BytePrefixIsLongest(names, 256);
    SizeBounds(chunk.content);
    SizeOfSix(FILE_LABEL, BytePrefix(file.path, 1024), SYMBOLS_LABEL, BytePrefix(names, 256), BLANK_LINE, chunk.content);
    EmbeddingTextIsVisible(file, chunk);
  }

  predicate Fits(item: Item) {
    Acceptable(item.text, 7298)
  }

  ghost predicate AllFit(items: seq<Item>) {
    forall i | 0 <= i < |items| :: Fits(items[i])
  }

  predicate Valid(texts: seq<Item>, batchSize: nat) {
    && 1 <= |texts| <= batchSize
    && (forall i | 0 <= i < |texts| :: Acceptable(texts[i].text, MAX_EMBEDDING_TEXT_BYTES))
    && TotalSize(texts) <= MAX_EMBEDDING_REQUEST_BYTES
  }

  /** `validate_texts`: false stands for the exception. */
  method ValidateTexts(texts: seq<Item>, batchSize: nat) returns (ok: bool)
    ensures ok <==> Valid(texts, batchSize)
  {
    if !(1 <= |texts| <= batchSize) {
      return false;
    }
    var sizes := 0;
    for i := 0 to |texts|
      invariant forall k | 0 <= k < i :: Acceptable(texts[k].text, MAX_EMBEDDING_TEXT_BYTES)
      invariant sizes == TotalSize(texts[..i])
    {
      assert texts[..i + 1][..i] == texts[..i];
      if Blank(texts[i].text) || Size(texts[i].text) > MAX_EMBEDDING_TEXT_BYTES {
        return false;
      }
      sizes := sizes + Size(texts[i].text);
    }
    assert texts[..|texts|] == texts;
    return sizes <= MAX_EMBEDDING_REQUEST_BYTES;
  }

  function ItemFor(file: File, chunk: Chunk): Item {
    Item(file, chunk, EmbeddingText(file, chunk))
  }

  function ItemsOf(file: File, chunks: seq<Chunk>): (items: seq<Item>)
    ensures |items| == |chunks|
  {
    seq(|chunks|, i requires 0 <= i < |chunks| => ItemFor(file, chunks[i]))
  }

  /** The whole plan: an entry for every chunk of every file, in order. */
  function Entries(files: seq<File>, settings: ChunkSettings): seq<Item>
    requires settings.Valid()
  {
    if files == [] then []
    else Entries(files[..|files| - 1], settings) + ItemsOf(files[|files| - 1], Chunks(files[|files| - 1], settings))
  }

  lemma EntriesSnoc(files: seq<File>, settings: ChunkSettings, n: nat)
    requires settings.Valid() && n < |files|
    ensures Entries(files[..n + 1], settings) == Entries(files[..n], settings) + ItemsOf(files[n], Chunks(files[n], settings))
  {
    assert files[..n + 1][..n] == files[..n];
  }

  lemma {:induction false} EntriesGrow(files: seq<File>, settings: ChunkSettings, n: nat)
    requires settings.Valid() && n <= |files|
    ensures |Entries(files[..n], settings)| <= |Entries(files, settings)|
    decreases |files| - n
  {
    if n == |files| {
      assert files[..n] == files;
    } else {
      EntriesGrow(files, settings, n + 1);
      EntriesSnoc(files, settings, n);
    }
  }

  /** Character `i` of the file is in a chunk that is sent, in a text that ends with it. */
  ghost predicate Sent(items: seq<Item>, file: File, i: nat)
    requires i < |file.content|
  {
    exists k, w :: 0 <= k < |items| && SentIn(items[k], file, w, i)
  }

  ghost predicate SentIn(item: Item, file: File, w: Window, i: nat)
    requires i < |file.content|
  {
    item.file == file && Holds(file, item.chunk, w, i) && item.text == EmbeddingText(file, item.chunk)
  }

  /** Every character of an accepted file that is not whitespace is sent, and nothing of a refused file is. */
  ghost predicate AllSent(files: seq<File>, items: seq<Item>) {
    && (forall n, i: nat | 0 <= n < |files| && i < |files[n].content| && Accepted(files[n]) && !IsSpace(files[n].content[i]) ::
          Sent(items, files[n], i))
    && (forall k | 0 <= k < |items| :: items[k].file in files && Accepted(items[k].file))
  }

  lemma FileIsSent(file: File, settings: ChunkSettings, i: nat)
    requires settings.Valid() && Accepted(file) && i < |file.content| && !IsSpace(file.content[i])
    ensures Sent(ItemsOf(file, Chunks(file, settings)), file, i)
  {
    var chunks := Chunks(file, settings);
    EveryCharacterIsIndexed(file, settings, i);
    var j, w :| 0 <= j < |chunks| && Holds(file, chunks[j], w, i);
    assert SentIn(ItemsOf(file, chunks)[j], file, w, i);
  }

  lemma StillSent(before: seq<Item>, items: seq<Item>, after: seq<Item>, file: File, i: nat)
    requires i < |file.content| && Sent(items, file, i)
    ensures Sent(before + items, file, i) && Sent(items + after, file, i)
  {
    var k, w :| 0 <= k < |items| && SentIn(items[k], file, w, i);
    assert SentIn((before + items)[|before| + k], file, w, i);
    assert SentIn((items + after)[k], file, w, i);
  }

  lemma {:induction false} EntriesSendAll(files: seq<File>, settings: ChunkSettings)
    requires settings.Valid()
    ensures AllSent(files, Entries(files, settings))
  {
    if files != [] {
      var n := |files| - 1;
      var front, last := files[..n], files[n];
      EntriesSendAll(front, settings);
      OneMoreFile(front, last, settings);
      assert files == front + [last];
    }
  }

  lemma OneMoreFile(front: seq<File>, last: File, settings: ChunkSettings)
    requires settings.Valid() && AllSent(front, Entries(front, settings))
    ensures AllSent(front + [last], Entries(front, settings) + ItemsOf(last, Chunks(last, settings)))
  {
    var files, before, added := front + [last], Entries(front, settings), ItemsOf(last, Chunks(last, settings));
    forall n, i: nat | 0 <= n < |files| && i < |files[n].content| && Accepted(files[n]) && !IsSpace(files[n].content[i])
      ensures Sent(before + added, files[n], i)
    {
      if n < |front| {
        StillSent([], before, added, files[n], i);
      } else {
        FileIsSent(last, settings, i);
        StillSent(before, added, [], last, i);
      }
    }
    forall k | 0 <= k < |before + added| ensures (before + added)[k].file in files && Accepted((before + added)[k].file) {
      if k < |before| {
        assert before[k].file in front;
      } else {
        assert files[|front|] == last;
        if !Accepted(last) { RefusedHasNoChunks(last, settings); }
      }
    }
  }

  lemma EntriesFit(file: File, settings: ChunkSettings, chunks: seq<Chunk>)
    requires settings.Valid() && chunks == Chunks(file, settings)
    ensures AllFit(ItemsOf(file, chunks))
  {
    ChunkSizes(file, settings, chunks);
    forall i | 0 <= i < |chunks| ensures Fits(ItemFor(file, chunks[i])) {
      EmbeddingTextFits(file, chunks[i]);
    }
  }

  /** The inner loop of `build`'s plan, over the chunks of one file; false once the plan is past the chunk limit. */
  method AddChunks(before: seq<Item>, file: File, chunks: seq<Chunk>) returns (plan: seq<Item>, ok: bool)
    requires |before| <= MAX_INDEX_CHUNKS
    ensures ok ==> plan == before + ItemsOf(file, chunks) && |plan| <= MAX_INDEX_CHUNKS
    ensures !ok ==> |before| + |chunks| > MAX_INDEX_CHUNKS
  {
    plan := before;
    for j := 0 to |chunks|
      invariant |plan| == |before| + j <= MAX_INDEX_CHUNKS
      invariant plan == before + ItemsOf(file, chunks)[..j]
    {
      plan := plan + [ItemFor(file, chunks[j])];
      if |plan| > MAX_INDEX_CHUNKS {
        return plan, false;
      }
    }
    assert ItemsOf(file, chunks)[..|chunks|] == ItemsOf(file, chunks);
    return plan, true;
  }

  /** The plan of `build`: every chunk of every file with its embedding text; `None` past the chunk limit. */
  method Plan(files: seq<File>, settings: ChunkSettings) returns (plan: Option<seq<Item>>)
    requires settings.Valid()
    ensures plan.Some? ==> plan.value == Entries(files, settings) && |plan.value| <= MAX_INDEX_CHUNKS && AllFit(plan.value)
    ensures plan.None? <==> |Entries(files, settings)| > MAX_INDEX_CHUNKS
  {
    var items: seq<Item> := [];
    for i := 0 to |files|
      invariant items == Entries(files[..i], settings)
      invariant |items| <= MAX_INDEX_CHUNKS && AllFit(items)
    {
      var chunks := ChunkFile(files[i], settings);
      EntriesSnoc(files, settings, i);
      EntriesFit(files[i], settings, chunks);
      var ok;
      items, ok := AddChunks(items, files[i], chunks);
      if !ok {
        EntriesGrow(files, settings, i + 1);
        return None;
      }
    }
    assert files[..|files|] == files;
    return Some(items);
  }

  lemma {:induction false} FlattenMembers(batches: seq<seq<Item>>, i: nat, j: nat)
    requires i < |batches| && j < |batches[i]|
    ensures batches[i][j] in Flatten(batches)
  {
    if i < |batches| - 1 { FlattenMembers(batches[..|batches| - 1], i, j); }
  }

  /** A batch of a plan of embedding texts passes the provider's input check. */
  lemma BatchIsValid(batches: seq<seq<Item>>, batchSize: nat, i: nat)
    requires Batched(batches, batchSize) && i < |batches|
    requires AllFit(Flatten(batches))
    ensures Valid(batches[i], batchSize)
  {
    var batch := batches[i];
    BatchedAt(batches, batchSize, i);
    forall j | 0 <= j < |batch| ensures Fits(batch[j]) {
      FlattenMembers(batches, i, j);
    }
    if |batch| == 1 {
      assert Fits(batch[0]);
      assert batch == [] + [batch[0]];
    }
  }

  lemma BatchesAreValid(batches: seq<seq<Item>>, batchSize: nat)
    requires Batched(batches, batchSize) && AllFit(Flatten(batches))
    ensures forall i | 0 <= i < |batches| :: Valid(batches[i], batchSize)
  {
    forall i | 0 <= i < |batches| ensures Valid(batches[i], batchSize) {
      BatchIsValid(batches, batchSize, i);
    }
  }

  /** The loop of `build` over the batches: the number of batches the provider was asked to embed. */
  method SendAll(batches: seq<seq<Item>>, batchSize: nat) returns (sent: nat)
    requires forall i | 0 <= i < |batches| :: Valid(batches[i], batchSize)
    ensures sent == |batches|
  {
    sent := 0;
    while sent < |batches|
      invariant sent <= |batches|
    {
      var ok := ValidateTexts(batches[sent], batchSize);
      if !ok {
        return;
      }
      sent := sent + 1;
    }
  }

  /**
   `build` up to the provider: unless the repository is past the chunk limit, every batch passes
   the provider's input check, so the whole plan is embedded, in order.
   */
  method Build(files: seq<File>, settings: ChunkSettings, batchSize: nat)
    returns (batches: Option<seq<seq<Item>>>, sent: nat)
    requires settings.Valid() && 1 <= batchSize <= 128
    ensures batches.None? <==> |Entries(files, settings)| > MAX_INDEX_CHUNKS
    ensures batches.Some? ==> Flatten(batches.value) == Entries(files, settings) && Batched(batches.value, batchSize)
    ensures batches.Some? ==> sent == |batches.value| && AllSent(files, Flatten(batches.value))
  {
    var plan := Plan(files, settings);
    if plan.None? {
      return None, 0;
    }
    var all := Batches(plan.value, batchSize);
    BatchesAreValid(all, batchSize);
    EntriesSendAll(files, settings);
    sent := SendAll(all, batchSize);
    return Some(all), sent;
  }
}
