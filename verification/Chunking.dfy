/** Overlapping chunk windows over a file (backend/app/repository_indexing/chunking.py). */
module Chunking {
  import opened PyText
  import Utf8

  const MAX_CHUNK_FILE_BYTES := 256_000

  datatype Symbol = Symbol(name: string, line: nat, endLine: nat)

  /** `searchable` is the verdict of the path check, which WorkspaceWalk models. */
  datatype File = File(path: string, searchable: bool, sizeBytes: nat, content: string, symbols: seq<Symbol>)

  /** The chunk settings, with the bounds the configuration enforces. */
  datatype ChunkSettings = ChunkSettings(size: nat, overlap: nat) {
    predicate Valid() {
      128 <= size <= 1500 && overlap <= 500 && overlap < size
    }
  }

  datatype Window = Window(start: nat, end: nat)

  datatype Chunk = Chunk(ordinal: nat, startLine: nat, endLine: nat, content: string, symbolNames: seq<string>)

  predicate CanBeEmbedded(file: File) {
    && file.searchable
    && file.sizeBytes <= MAX_CHUNK_FILE_BYTES
    && Utf8.Size(file.content) <= MAX_CHUNK_FILE_BYTES
    && forall i | 0 <= i < |file.content| :: file.content[i] as int >= 32 || file.content[i] as int in {9, 10, 12, 13}
  }

  /** `content.rfind("\n", lo, hi)`. */
  function LastNewline(content: string, lo: nat, hi: nat): (i: int)
    requires hi <= |content|
    ensures i == -1 || (lo <= i < hi && content[i] == '\n')
    decreases hi
  {
    if hi <= lo then -1 else if content[hi - 1] == '\n' then hi - 1 else LastNewline(content, lo, hi - 1)
  }

  function Larger(a: nat, b: nat): nat {
    if a >= b then a else b
  }

  /** Where the window starting at `start` ends: at a late line boundary, or at the hard bound. */
  function WindowEnd(content: string, size: nat, overlap: nat, start: nat): (end: nat)
    requires overlap < size && start < |content|
    ensures start < end <= |content| && end <= start + size
    ensures end < |content| ==> start + overlap < end && (end == start + size || content[end - 1] == '\n')
  {
    var hard := if start + size < |content| then start + size else |content|;
    if hard == |content| then hard
    else
      var newline := LastNewline(content, start + Larger(size / 2, overlap + 1), hard);
      if newline == -1 then hard else newline + 1
  }

  function Windows(content: string, size: nat, overlap: nat, start: nat): seq<Window>
    requires overlap < size && start <= |content|
    decreases |content| - start
  {
    if start == |content| then []
    else
      var end := WindowEnd(content, size, overlap, start);
      if end == |content| then [Window(start, end)]
      else [Window(start, end)] + Windows(content, size, overlap, end - overlap)
  }

  /** `content.count("\n", 0, n)`. */
  function Newlines(content: string, n: nat): nat
    requires n <= |content|
  {
    if n == 0 then 0 else Newlines(content, n - 1) + if content[n - 1] == '\n' then 1 else 0
  }

  /** The 1-based line of character `i`. */
  function LineOf(content: string, i: nat): nat
    requires i <= |content|
  {
    Newlines(content, i) + 1
  }

  function Take(names: seq<string>, n: nat): seq<string> {
    if |names| <= n then names else names[..n]
  }

  function SymbolNames(symbols: seq<Symbol>, startLine: nat, endLine: nat): seq<string> {
    if symbols == [] then [] else NameOf(symbols[0], startLine, endLine) + SymbolNames(symbols[1..], startLine, endLine)
  }

  function NameOf(s: Symbol, startLine: nat, endLine: nat): seq<string> {
    if s.line <= endLine && s.endLine >= startLine then [if |s.name| <= 64 then s.name else s.name[..64]] else []
  }

  function ChunkOf(file: File, w: Window, ordinal: nat): Chunk
    requires w.start < w.end <= |file.content|
  {
    var startLine, endLine := LineOf(file.content, w.start), LineOf(file.content, w.end - 1);
    Chunk(ordinal, startLine, endLine, file.content[w.start..w.end],
          Take(SymbolNames(file.symbols, startLine, endLine), 20))
  }

  predicate WindowOk(content: string, size: nat, w: Window) {
    w.start < w.end <= |content| && w.end - w.start <= size
  }

  /** Neighbours share exactly `overlap` characters and the second one ends later. */
  predicate Joint(v: Window, w: Window, overlap: nat) {
    v.end == w.start + overlap && v.end < w.end
  }

  predicate JointAt(ws: seq<Window>, k: int, overlap: nat)
    requires 0 < k < |ws|
  {
    Joint(ws[k - 1], ws[k], overlap)
  }

  ghost predicate Chain(content: string, size: nat, overlap: nat, ws: seq<Window>) {
    && (forall k | 0 <= k < |ws| :: WindowOk(content, size, ws[k]))
    && (forall k | 0 < k < |ws| :: JointAt(ws, k, overlap))
  }

  /** A chain from `start` to the end of the file. */
  ghost predicate Spans(content: string, size: nat, overlap: nat, start: nat, ws: seq<Window>) {
    && Chain(content, size, overlap, ws)
    && ws != [] && ws[0].start == start && ws[|ws| - 1].end == |content|
  }

  lemma SpanCons(content: string, size: nat, overlap: nat, w: Window, ws: seq<Window>)
    requires WindowOk(content, size, w) && overlap <= w.end
    requires Spans(content, size, overlap, w.end - overlap, ws) && w.end < ws[0].end
    ensures Spans(content, size, overlap, w.start, [w] + ws)
  {
    var all := [w] + ws;
    forall k | 0 < k < |all| ensures JointAt(all, k, overlap) {
      if k > 1 { assert JointAt(ws, k - 1, overlap); }
    }
  }

  lemma SpanTail(content: string, size: nat, overlap: nat, start: nat, ws: seq<Window>)
    requires Spans(content, size, overlap, start, ws) && ws[0].end < |content|
    ensures ws[1..] != [] && Spans(content, size, overlap, ws[1..][0].start, ws[1..])
    ensures Joint(ws[0], ws[1..][0], overlap)
  {
    var rest := ws[1..];
    assert JointAt(ws, 1, overlap);
    forall k | 0 < k < |rest| ensures JointAt(rest, k, overlap) {
      assert JointAt(ws, k + 1, overlap);
    }
  }

  lemma {:induction false} WindowsSpan(content: string, size: nat, overlap: nat, start: nat, ws: seq<Window>)
    requires overlap < size && start < |content| && ws == Windows(content, size, overlap, start)
    ensures Spans(content, size, overlap, start, ws)
    decreases |content| - start
  {
    var end := WindowEnd(content, size, overlap, start);
    if end < |content| {
      var rest := Windows(content, size, overlap, end - overlap);
      NextEndsLater(content, size, overlap, start);
      WindowsSpan(content, size, overlap, end - overlap, rest);
      SpanCons(content, size, overlap, Window(start, end), rest);
    }
  }

  /** Each window ends where `WindowEnd` says. */
  ghost predicate StepAt(content: string, size: nat, overlap: nat, w: Window) {
    overlap < size && w.start < |content| && w.end == WindowEnd(content, size, overlap, w.start)
  }

  lemma {:induction false} WindowsStep(content: string, size: nat, overlap: nat, start: nat, ws: seq<Window>)
    requires overlap < size && start <= |content| && ws == Windows(content, size, overlap, start)
    ensures forall k | 0 <= k < |ws| :: StepAt(content, size, overlap, ws[k])
    decreases |content| - start
  {
    if start < |content| {
      var end := WindowEnd(content, size, overlap, start);
      if end < |content| {
        var rest := Windows(content, size, overlap, end - overlap);
        WindowsStep(content, size, overlap, end - overlap, rest);
        assert ws == [Window(start, end)] + rest;
      } else {
        assert ws == [Window(start, end)];
      }
    }
  }

  lemma WindowsFormChain(content: string, size: nat, overlap: nat)
    requires overlap < size
    ensures var ws := Windows(content, size, overlap, 0);
            && Chain(content, size, overlap, ws)
            && (content != "" ==> Spans(content, size, overlap, 0, ws))
  {
    if content != "" { WindowsSpan(content, size, overlap, 0, Windows(content, size, overlap, 0)); }
  }

  /** The window after this one ends strictly later. */
  lemma NextEndsLater(content: string, size: nat, overlap: nat, start: nat)
    requires overlap < size && start < |content|
    requires WindowEnd(content, size, overlap, start) < |content|
    ensures var end := WindowEnd(content, size, overlap, start);
            end < WindowEnd(content, size, overlap, end - overlap)
  {
  }

  /** The windows that are not all whitespace, numbered in order. */
  function Kept(file: File, size: nat, windows: seq<Window>): seq<Chunk>
    requires forall k | 0 <= k < |windows| :: WindowOk(file.content, size, windows[k])
  {
    if windows == [] then []
    else
      assert WindowOk(file.content, size, windows[|windows| - 1]);
      var before, w := Kept(file, size, windows[..|windows| - 1]), windows[|windows| - 1];
      if Blank(file.content[w.start..w.end]) then before else before + [ChunkOf(file, w, |before|)]
  }

  /** `chunk_file` on a file that can be embedded, as a function of its windows. */
  function Chunks(file: File, settings: ChunkSettings): seq<Chunk>
    requires settings.Valid()
  {
    WindowsFormChain(file.content, settings.size, settings.overlap);
    if CanBeEmbedded(file) then Kept(file, settings.size, Windows(file.content, settings.size, settings.overlap, 0)) else []
  }

  /** `chunk_file`. */
  method ChunkFile(file: File, settings: ChunkSettings) returns (chunks: seq<Chunk>)
    requires settings.Valid()
    ensures chunks == Chunks(file, settings)
  {
    if !CanBeEmbedded(file) {
      return [];
    }
    ghost var all := Windows(file.content, settings.size, settings.overlap, 0);
    WindowsFormChain(file.content, settings.size, settings.overlap);
    WindowsStep(file.content, settings.size, settings.overlap, 0, all);
    chunks := CutWindows(file, settings.size, settings.overlap, all);
  }

  /** The window loop of `chunk_file`, against the windows `all` it is to produce. */
  method CutWindows(file: File, size: nat, overlap: nat, ghost all: seq<Window>) returns (chunks: seq<Chunk>)
    requires overlap < size && (file.content == "" ==> all == [])
    requires file.content != "" ==> Spans(file.content, size, overlap, 0, all)
    requires forall k | 0 <= k < |all| :: StepAt(file.content, size, overlap, all[k]) && WindowOk(file.content, size, all[k])
    ensures chunks == Kept(file, size, all)
  {
    chunks := [];
    var start := 0;
    ghost var k := 0;
    while start < |file.content|
      invariant 0 <= k <= |all| && start <= |file.content|
      invariant k < |all| ==> start == all[k].start
      invariant k == |all| ==> start == |file.content|
      invariant chunks == Kept(file, size, all[..k])
      decreases |all| - k
    {
      var end := WindowEnd(file.content, size, overlap, start);
      assert StepAt(file.content, size, overlap, all[k]);
      assert all[..k] + [all[k]] == all[..k + 1];
      chunks := AddChunk(file, size, Window(start, end), chunks, all[..k]);
      NextWindow(file.content, size, overlap, all, k);
      k := k + 1;
      if end == |file.content| {
        break;
      }
      start := end - overlap;
    }
    assert all[..|all|] == all;
  }

  /** The last window is the one that reaches the end; every other one is followed `overlap` earlier. */
  lemma NextWindow(content: string, size: nat, overlap: nat, ws: seq<Window>, k: nat)
    requires k < |ws| && Spans(content, size, overlap, 0, ws)
    ensures ws[k].end == |content| <==> k == |ws| - 1
    ensures k < |ws| - 1 ==> ws[k + 1].start == ws[k].end - overlap
  {
    if k < |ws| - 1 {
      assert JointAt(ws, k + 1, overlap) && WindowOk(content, size, ws[k + 1]);
    }
  }

  /** The chunk of one window, unless the window is blank. */
  method AddChunk(file: File, size: nat, w: Window, chunks: seq<Chunk>, ghost done: seq<Window>)
    returns (more: seq<Chunk>)
    requires forall k | 0 <= k < |done| :: WindowOk(file.content, size, done[k])
    requires WindowOk(file.content, size, w) && chunks == Kept(file, size, done)
    ensures forall k | 0 <= k < |done + [w]| :: WindowOk(file.content, size, (done + [w])[k])
    ensures more == Kept(file, size, done + [w])
  {
    more := chunks;
    if !Blank(file.content[w.start..w.end]) {
      more := chunks + [ChunkOf(file, w, |chunks|)];
    }
  }

  /** What later windows add beyond the characters they share with the window before. */
  function LaterPieces(content: string, ws: seq<Window>, overlap: nat): string
    requires forall k | 0 <= k < |ws| :: Adds(content, ws[k], overlap)
  {
    if ws == [] then ""
    else
      assert Adds(content, ws[0], overlap);
      content[ws[0].start + overlap..ws[0].end] + LaterPieces(content, ws[1..], overlap)
  }

  predicate Adds(content: string, w: Window, overlap: nat) {
    w.start + overlap <= w.end <= |content|
  }

  lemma {:induction false} PiecesJoin(content: string, size: nat, overlap: nat, start: nat, ws: seq<Window>)
    requires Spans(content, size, overlap, start, ws)
    ensures forall k | 0 <= k < |ws[1..]| :: Adds(content, ws[1..][k], overlap)
    ensures ws[0].end <= |content| && content[ws[0].end..] == LaterPieces(content, ws[1..], overlap)
    decreases |ws|
  {
    var rest := ws[1..];
    assert WindowOk(content, size, ws[0]);
    if rest != [] {
      assert JointAt(ws, 1, overlap) && WindowOk(content, size, ws[1]);
      SpanTail(content, size, overlap, start, ws);
      PiecesJoin(content, size, overlap, rest[0].start, rest);
      assert content[ws[0].end..] == content[ws[0].end..rest[0].end] + content[rest[0].end..];
      forall k | 0 <= k < |rest| ensures Adds(content, rest[k], overlap) {
        if k > 0 { assert rest[k] == rest[1..][k - 1]; }
      }
    }
  }

  /**
   Every window has at most `size` characters, ends strictly increase, neighbours share exactly
   `overlap` characters, and the first window followed by what each later one adds is the file.
   */
  lemma WindowsRebuildTheFile(content: string, size: nat, overlap: nat)
    requires overlap < size && content != ""
    ensures var ws := Windows(content, size, overlap, 0);
            && ws != [] && Chain(content, size, overlap, ws)
            && (forall k | 0 <= k < |ws[1..]| :: Adds(content, ws[1..][k], overlap))
            && WindowOk(content, size, ws[0])
            && content == content[ws[0].start..ws[0].end] + LaterPieces(content, ws[1..], overlap)
  {
    WindowsFormChain(content, size, overlap);
    var ws := Windows(content, size, overlap, 0);
    PiecesJoin(content, size, overlap, 0, ws);
    assert WindowOk(content, size, ws[0]);
    assert content == content[..ws[0].end] + content[ws[0].end..];
  }

  predicate Covers(w: Window, i: nat) {
    w.start <= i < w.end
  }

  /** Windows that span the rest of the file leave no character out. */
  lemma {:induction false} Covered(content: string, size: nat, overlap: nat, start: nat, ws: seq<Window>, i: nat)
    requires Spans(content, size, overlap, start, ws) && start <= i < |content|
    ensures exists k :: 0 <= k < |ws| && Covers(ws[k], i)
    decreases |ws|
  {
    assert WindowOk(content, size, ws[0]);
    if i < ws[0].end {
      assert Covers(ws[0], i);
    } else {
      var rest := ws[1..];
      SpanTail(content, size, overlap, start, ws);
      Covered(content, size, overlap, rest[0].start, rest, i);
      var k :| 0 <= k < |rest| && Covers(rest[k], i);
      assert Covers(ws[k + 1], i);
    }
  }

  lemma {:induction false} NewlinesGrow(content: string, m: nat, n: nat)
    requires m <= n <= |content|
    ensures Newlines(content, m) <= Newlines(content, n)
    decreases n - m
  {
    if m < n { NewlinesGrow(content, m, n - 1); }
  }

  lemma KeptLast(file: File, size: nat, windows: seq<Window>)
    requires windows != [] && forall k | 0 <= k < |windows| :: WindowOk(file.content, size, windows[k])
    ensures var front := windows[..|windows| - 1]; forall k | 0 <= k < |front| :: WindowOk(file.content, size, front[k])
    ensures var w, before := windows[|windows| - 1], Kept(file, size, windows[..|windows| - 1]);
            && w.start < w.end <= |file.content| && w.end - w.start <= size
            && Kept(file, size, windows) ==
                 if Blank(file.content[w.start..w.end]) then before else before + [ChunkOf(file, w, |before|)]
  {
    assert WindowOk(file.content, size, windows[|windows| - 1]);
  }

  /** The chunks are numbered 0, 1, 2, ..., bounded, and none is blank. */
  lemma {:induction false} KeptBounds(file: File, size: nat, windows: seq<Window>)
    requires forall k | 0 <= k < |windows| :: WindowOk(file.content, size, windows[k])
    ensures forall j | 0 <= j < |Kept(file, size, windows)| ::
              KeptAt(Kept(file, size, windows)[j], j, size)
  {
    if windows != [] {
      KeptLast(file, size, windows);
      KeptBounds(file, size, windows[..|windows| - 1]);
    }
  }

  predicate KeptAt(chunk: Chunk, j: nat, size: nat) {
    chunk.ordinal == j && |chunk.content| <= size && !Blank(chunk.content)
  }

  /** There is a kept chunk for every window that is not blank. */
  lemma {:induction false} KeptWindow(file: File, size: nat, windows: seq<Window>, k: nat) returns (j: nat)
    requires forall n | 0 <= n < |windows| :: WindowOk(file.content, size, windows[n])
    requires k < |windows| && WindowOk(file.content, size, windows[k])
    requires !Blank(file.content[windows[k].start..windows[k].end])
    ensures j < |Kept(file, size, windows)| && Kept(file, size, windows)[j] == ChunkOf(file, windows[k], j)
  {
    KeptLast(file, size, windows);
    if k == |windows| - 1 { j := |Kept(file, size, windows)| - 1; } else { j := KeptWindow(file, size, windows[..|windows| - 1], k); }
  }

  /** Every chunk is within the size bound and has something to embed. */
  lemma ChunkSizes(file: File, settings: ChunkSettings, chunks: seq<Chunk>)
    requires settings.Valid() && chunks == Chunks(file, settings)
    ensures forall j | 0 <= j < |chunks| :: |chunks[j].content| <= settings.size && !Blank(chunks[j].content)
  {
    WindowsFormChain(file.content, settings.size, settings.overlap);
    if CanBeEmbedded(file) {
      KeptBounds(file, settings.size, Windows(file.content, settings.size, settings.overlap, 0));
      assert forall j | 0 <= j < |chunks| :: KeptAt(chunks[j], j, settings.size);
    }
  }

  /** Chunk `c` is the text of a window around character `i`, with the lines of the window's first and last character. */
  ghost predicate Holds(file: File, c: Chunk, w: Window, i: nat)
    requires i < |file.content|
  {
    && w.start < w.end <= |file.content| && Covers(w, i)
    && c.content == file.content[w.start..w.end]
    && c.startLine == 1 + |NewlinesBefore(file.content, w.start)|
    && c.endLine == 1 + |NewlinesBefore(file.content, w.end - 1)|
    && c.startLine <= 1 + |NewlinesBefore(file.content, i)| <= c.endLine
  }

  /** The newlines among the first `n` characters. */
  function NewlinesBefore(content: string, n: nat): set<nat>
    requires n <= |content|
  {
    set i | 0 <= i < n && content[i] == '\n'
  }

  lemma {:induction false} NewlinesCount(content: string, n: nat)
    requires n <= |content|
    ensures Newlines(content, n) == |NewlinesBefore(content, n)|
  {
    if n > 0 {
      NewlinesCount(content, n - 1);
      if content[n - 1] == '\n' {
        assert NewlinesBefore(content, n) == NewlinesBefore(content, n - 1) + {n - 1};
      } else {
        assert NewlinesBefore(content, n) == NewlinesBefore(content, n - 1);
      }
    }
  }

  lemma ChunkHolds(file: File, w: Window, ordinal: nat, i: nat)
    requires w.start < w.end <= |file.content| && Covers(w, i)
    ensures Holds(file, ChunkOf(file, w, ordinal), w, i)
  {
    NewlinesGrow(file.content, w.start, i);
    NewlinesGrow(file.content, i, w.end - 1);
    NewlinesCount(file.content, w.start);
    NewlinesCount(file.content, i);
    NewlinesCount(file.content, w.end - 1);
  }

  /** Some chunk holds character `i` and has its line. */
  ghost predicate Indexed(file: File, chunks: seq<Chunk>, i: nat)
    requires i < |file.content|
  {
    exists j, w :: 0 <= j < |chunks| && Holds(file, chunks[j], w, i)
  }

  ghost predicate Numbered(chunks: seq<Chunk>) {
    forall j | 0 <= j < |chunks| :: chunks[j].ordinal == j
  }

  /** A window that covers a character that is not whitespace is kept as a chunk. */
  lemma CoveringChunk(file: File, size: nat, ws: seq<Window>, kept: seq<Chunk>, k: nat, i: nat)
    requires (forall j | 0 <= j < |ws| :: WindowOk(file.content, size, ws[j])) && kept == Kept(file, size, ws)
    requires k < |ws| && i < |file.content| && Covers(ws[k], i) && !IsSpace(file.content[i])
    ensures Numbered(kept) && Indexed(file, kept, i)
  {
    KeptBounds(file, size, ws);
    assert forall j | 0 <= j < |kept| :: KeptAt(kept[j], j, size);
    assert WindowOk(file.content, size, ws[k]);
    var text := file.content[ws[k].start..ws[k].end];
    assert text[i - ws[k].start] == file.content[i];
    var j := KeptWindow(file, size, ws, k);
    ChunkHolds(file, ws[k], j, i);
  }

  /**
   A file gets chunks exactly when the path check let it through, it has at most 256000 bytes both
   on disk and as text, and no control character occurs in it but tabs and line ends.
   */
  predicate Accepted(file: File) {
    && file.searchable && file.sizeBytes <= 256_000 && Utf8.Size(file.content) <= 256_000
    && forall i | 0 <= i < |file.content| :: AcceptedChar(file.content[i])
  }

  predicate AcceptedChar(c: char) {
    c >= ' ' || c == '\t' || c == '\n' || c == '\U{0c}' || c == '\r'
  }

  lemma AcceptedIff(file: File)
    ensures CanBeEmbedded(file) <==> Accepted(file)
  {
    assert forall c: char :: AcceptedChar(c) <==> c as int >= 32 || c as int in {9, 10, 12, 13};
    assert forall i | 0 <= i < |file.content| :: AcceptedChar(file.content[i]) <==>
        file.content[i] as int >= 32 || file.content[i] as int in {9, 10, 12, 13};
  }

  /** A file with something other than whitespace has no chunks exactly when it is not accepted. */
  lemma HasChunksIff(file: File, settings: ChunkSettings)
    requires settings.Valid() && !Blank(file.content)
    ensures Chunks(file, settings) != [] <==> Accepted(file)
  {
    AcceptedIff(file);
    if Accepted(file) {
      var i :| 0 <= i < |file.content| && !IsSpace(file.content[i]);
      EveryCharacterIsIndexed(file, settings, i);
    }
  }

  /** ... and a refused file never has any. */
  lemma RefusedHasNoChunks(file: File, settings: ChunkSettings)
    requires settings.Valid() && !Accepted(file)
    ensures Chunks(file, settings) == []
  {
    AcceptedIff(file);
  }

  /**
   Chunks are numbered 0, 1, 2, ..., and every character of an accepted file that is not whitespace
   lies in a kept chunk with the lines of its first and last character.
   */
  lemma EveryCharacterIsIndexed(file: File, settings: ChunkSettings, i: nat)
    requires settings.Valid() && Accepted(file) && i < |file.content| && !IsSpace(file.content[i])
    ensures Numbered(Chunks(file, settings)) && Indexed(file, Chunks(file, settings), i)
  {
    AcceptedIff(file);
    var size := settings.size;
    WindowsFormChain(file.content, size, settings.overlap);
    var ws := Windows(file.content, size, settings.overlap, 0);
    Covered(file.content, size, settings.overlap, 0, ws, i);
    var k :| 0 <= k < |ws| && Covers(ws[k], i);
    CoveringChunk(file, size, ws, Chunks(file, settings), k, i);
  }

  // Where a window ends, and which symbols a chunk names

  lemma {:induction false} LastNewlineIsLast(content: string, lo: nat, hi: nat)
    requires hi <= |content|
    ensures forall i | lo <= i < hi && content[i] == '\n' :: i <= LastNewline(content, lo, hi)
    decreases hi
  {
    if lo < hi && content[hi - 1] != '\n' { LastNewlineIsLast(content, lo, hi - 1); }
  }

  /**
   A window that does not reach the end of the file ends after the last newline of its later half,
   past the overlap, or after exactly `size` characters if there is none.
   */
  lemma WindowEndsAtLastLine(content: string, size: nat, overlap: nat, start: nat)
    requires overlap < size && start < |content|
    ensures var end := WindowEnd(content, size, overlap, start);
            && (end == |content| || start + size < |content|)
            && (start + size >= |content| ==> end == |content|)
            && (start + size < |content| ==>
                  && (forall i | start <= i < start + size && content[i] == '\n' && i >= start + size / 2 && i > start + overlap :: i < end)
                  && (end < start + size ==> content[end - 1] == '\n' && end - 1 >= start + size / 2 && end - 1 > start + overlap))
  {
    LastNewlineIsLast(content, start + Larger(size / 2, overlap + 1), if start + size < |content| then start + size else |content|);
  }

  /** The symbol overlaps the lines. */
  predicate Overlaps(symbol: Symbol, startLine: nat, endLine: nat) {
    symbol.line <= endLine && startLine <= symbol.endLine
  }

  /** A name is listed exactly if a symbol on the lines has it, cut to 64 characters. */
  lemma {:induction false} SymbolNamesIff(symbols: seq<Symbol>, startLine: nat, endLine: nat, name: string)
    ensures name in SymbolNames(symbols, startLine, endLine) <==>
              exists i :: 0 <= i < |symbols| && Overlaps(symbols[i], startLine, endLine) && name == Take64(symbols[i].name)
  {
    if symbols != [] {
      SymbolNamesIff(symbols[1..], startLine, endLine, name);
      assert forall i | 0 < i < |symbols| :: symbols[i] == symbols[1..][i - 1];
    }
  }

  function Take64(name: string): string {
    if |name| <= 64 then name else name[..64]
  }

  /** In their order: the names of the first symbols come first. */
  lemma {:induction false} SymbolNamesInOrder(a: seq<Symbol>, b: seq<Symbol>, startLine: nat, endLine: nat)
    ensures SymbolNames(a + b, startLine, endLine) == SymbolNames(a, startLine, endLine) + SymbolNames(b, startLine, endLine)
    decreases |a|
  {
    if a == [] {
      assert a + b == b;
    } else {
      SymbolNamesInOrder(a[1..], b, startLine, endLine);
      assert (a + b)[1..] == a[1..] + b;
      NamesAssociate(NameOf(a[0], startLine, endLine), SymbolNames(a[1..], startLine, endLine), SymbolNames(b, startLine, endLine));
    }
  }

  lemma NamesAssociate(a: seq<string>, b: seq<string>, c: seq<string>)
    ensures a + b + c == a + (b + c)
  {
  }

  /** A chunk names the first twenty symbols on its lines. */
  lemma ChunkNames(file: File, w: Window, ordinal: nat)
    requires w.start < w.end <= |file.content|
    ensures var c := ChunkOf(file, w, ordinal);
            && c.symbolNames <= SymbolNames(file.symbols, c.startLine, c.endLine)
            && (|c.symbolNames| == 20 || c.symbolNames == SymbolNames(file.symbols, c.startLine, c.endLine))
            && |c.symbolNames| <= 20
  {
  }
}
