/**
 What `_parse_hunks` collects and `_changed_line_counts` counts of a printed patch, line by line
 (backend/app/patch_quality/service.py:519-557, 815-825).
 */
module HunkContents {
  import opened Wrappers
  import opened DiffText
  import opened PatchPaths
  import opened HunkCounts

  /** The text of an added line, unless it prints like a `+++` line. */
  function AddedText(line: BodyLine): seq<string> {
    if line.kind.Added? && !("++" <= line.text) then [line.text] else []
  }

  /** The text of a removed line, unless it prints like a `---` line. */
  function RemovedText(line: BodyLine): seq<string> {
    if line.kind.Removed? && !("--" <= line.text) then [line.text] else []
  }

  function AddedTexts(body: seq<BodyLine>): seq<string> {
    if body == [] then [] else AddedText(body[0]) + AddedTexts(body[1..])
  }

  function RemovedTexts(body: seq<BodyLine>): seq<string> {
    if body == [] then [] else RemovedText(body[0]) + RemovedTexts(body[1..])
  }

  /** What is collected of the hunks read from this path on: each one under the path before it, if that is listed. */
  function Collected(names: Names, listed: seq<string>, path: string, hunks: seq<Hunk>): seq<PatchHunk>
    decreases |hunks|
  {
    if hunks == [] then []
    else
      var body := hunks[0].body;
      CollectedHunk(path, listed, body) + Collected(names, listed, PathAfter(names, path, body), hunks[1..])
  }

  function CollectedOf(names: Names, listed: seq<string>, patch: seq<FileDiff>): seq<PatchHunk> {
    if patch == [] then []
    else Collected(names, listed, names.normalize(patch[0].newPath), patch[0].hunks) + CollectedOf(names, listed, patch[1..])
  }

  // ------------------------------------------------------------------- parsing

  lemma {:induction false} ParsedConcat(names: Names, listed: seq<string>, a: seq<string>, b: seq<string>, parse: Parse)
    requires parse.Valid()
    ensures Parsed(names, listed, a, parse).Valid()
    ensures Parsed(names, listed, a + b, parse) == Parsed(names, listed, b, Parsed(names, listed, a, parse))
    decreases |a|
  {
    if a == [] {
      assert a + b == b;
    } else {
      assert (a + b)[1..] == a[1..] + b;
      ParsedConcat(names, listed, a[1..], b, HunkCounts.Next(MarkOf(names, a[0]), a[0], listed, parse));
    }
  }

  lemma ParsedOne(names: Names, listed: seq<string>, line: string, parse: Parse)
    requires parse.Valid()
    ensures Parsed(names, listed, [line], parse) == HunkCounts.Next(MarkOf(names, line), line, listed, parse)
  {
    assert [line][1..] == [];
  }

  lemma {:induction false} PassedParsed(names: Names, listed: seq<string>, lines: seq<string>, parse: Parse)
    requires parse.Valid() && forall i | 0 <= i < |lines| :: Passed(names, lines[i])
    ensures Parsed(names, listed, lines, parse) == parse
    decreases |lines|
  {
    if lines != [] {
      assert Passed(names, lines[0]);
      PassedParsed(names, listed, lines[1..], parse);
    }
  }

  /** The `---` and `+++` lines leave the path the first header line set. */
  lemma PathLinesParsed(names: Names, listed: seq<string>, file: FileDiff, parse: Parse)
    requires parse.Valid() && parse.path == names.normalize(file.newPath)
    ensures Parsed(names, listed, PathLines(file), parse) == parse
  {
    if file.hunks != [] {
      var x := OLD + if file.created then NULL_PATH else A + file.oldPath;
      var y := NEW + if file.deleted then NULL_PATH else B + file.newPath;
      OldLinePassed(names, if file.created then NULL_PATH else A + file.oldPath);
      NewLineMarks(names, file.newPath);
      assert [x, y] == [x] + [y];
      ParsedConcat(names, listed, [x], [y], parse);
      ParsedOne(names, listed, x, parse);
      ParsedOne(names, listed, y, parse);
    }
  }

  /** A file's headers leave the parser at the file's new path, with no hunk open. */
  lemma HeaderParsed(names: Names, listed: seq<string>, file: FileDiff, parse: Parse)
    requires Finds(names) && Countable(file) && parse.Valid()
    ensures Parsed(names, listed, HeaderLines(file), parse) == Parse(parse.hunks, names.normalize(file.newPath), false)
  {
    var git, notes, moves, ends := [GitLine(file)], file.notes, MoveLines(file), PathLines(file);
    var own := Parse(parse.hunks, names.normalize(file.newPath), false);
    GitLineMark(names, file);
    ParsedOne(names, listed, GitLine(file), parse);
    forall i | 0 <= i < |notes| ensures Passed(names, notes[i]) { QuietIsPassed(names, notes[i]); }
    PassedParsed(names, listed, notes, own);
    MoveLinesPassed(names, file);
    PassedParsed(names, listed, moves, own);
    PathLinesParsed(names, listed, file, own);
    ParsedConcat(names, listed, git, notes, parse);
    ParsedConcat(names, listed, git + notes, moves, parse);
    ParsedConcat(names, listed, git + notes + moves, ends, parse);
  }

  lemma BodyLineMark(names: Names, line: BodyLine)
    ensures MarkOf(names, BodyText(line)) ==
            if Disguises(line) then NewPath(names.normalize(line.text[|DISGUISE|..]))
            else if line.kind.Added? && !("++" <= line.text) then Add
            else if line.kind.Removed? && !("--" <= line.text) then Remove
            else Other
    ensures BodyText(line) != "" && BodyText(line)[1..] == line.text
    ensures Disguises(line) ==> "++" <= line.text
  {
    BodyIsInner(line);
    BodyMark(names, "", line);
    Prefixes();
    var text := BodyText(line);
    assert text[0] == Marker(line.kind) && text[1..] == line.text;
    assert PLUSES == ['+'] + "++" && MINUSES == ['-'] + "--" && NEW_B == ['+'] + DISGUISE;
    if Disguises(line) { assert text[|NEW_B|..] == line.text[|DISGUISE|..] && line.text[..2] == DISGUISE[..2] == "++"; }
  }

  /** A hunk with more lines added and removed. */
  function Grown(hunk: PatchHunk, added: seq<string>, removed: seq<string>): PatchHunk {
    PatchHunk(hunk.path, hunk.added + added, hunk.removed + removed)
  }

  lemma GrownNothing(hunks: seq<PatchHunk>)
    requires hunks != []
    ensures hunks[|hunks| - 1 := Grown(hunks[|hunks| - 1], [], [])] == hunks
  {
    var last := hunks[|hunks| - 1];
    assert last.added + [] == last.added && last.removed + [] == last.removed;
  }

  /** The hunks with more lines in the last one, while it is open. */
  function Filled(parse: Parse, added: seq<string>, removed: seq<string>): seq<PatchHunk>
    requires parse.Valid()
  {
    var n := |parse.hunks| - 1;
    if parse.open then parse.hunks[n := Grown(parse.hunks[n], added, removed)] else parse.hunks
  }

  lemma LineParsed(names: Names, listed: seq<string>, line: BodyLine, parse: Parse)
    requires parse.Valid()
    ensures BodyText(line) != ""
    ensures HunkCounts.Next(MarkOf(names, BodyText(line)), BodyText(line), listed, parse) ==
            Parse(Filled(parse, AddedText(line), RemovedText(line)),
                  if Disguises(line) then names.normalize(line.text[|DISGUISE|..]) else parse.path, parse.open)
  {
    BodyLineMark(names, line);
    if parse.open { GrownNothing(parse.hunks); }
    if parse.open && AddedText(line) != [] { GrownOne(parse.hunks[|parse.hunks| - 1], line.text); }
    if parse.open && RemovedText(line) != [] { GrownOne(parse.hunks[|parse.hunks| - 1], line.text); }
  }

  lemma GrownOne(hunk: PatchHunk, text: string)
    ensures Grown(hunk, [text], []) == hunk.(added := hunk.added + [text])
    ensures Grown(hunk, [], [text]) == hunk.(removed := hunk.removed + [text])
  {
    assert hunk.removed + [] == hunk.removed && hunk.added + [] == hunk.added;
  }

  lemma FilledTwice(parse: Parse, path: string, a: seq<string>, r: seq<string>, b: seq<string>, t: seq<string>)
    requires parse.Valid()
    ensures Filled(Parse(Filled(parse, a, r), path, parse.open), b, t) == Filled(parse, a + b, r + t)
  {
    if parse.open {
      var last := parse.hunks[|parse.hunks| - 1];
      assert last.added + a + b == last.added + (a + b) && last.removed + r + t == last.removed + (r + t);
    }
  }

  lemma {:induction false} BodyParsed(names: Names, listed: seq<string>, body: seq<BodyLine>, parse: Parse)
    requires parse.Valid()
    ensures Parsed(names, listed, BodyLines(body), parse) ==
            Parse(Filled(parse, AddedTexts(body), RemovedTexts(body)), PathAfter(names, parse.path, body), parse.open)
    decreases |body|
  {
    if body == [] {
      if parse.open { GrownNothing(parse.hunks); }
    } else {
      var line := body[0];
      var path := if Disguises(line) then names.normalize(line.text[|DISGUISE|..]) else parse.path;
      assert BodyLines(body)[0] == BodyText(line) && BodyLines(body)[1..] == BodyLines(body[1..]);
      LineParsed(names, listed, line, parse);
      BodyParsed(names, listed, body[1..], Parse(Filled(parse, AddedText(line), RemovedText(line)), path, parse.open));
      FilledTwice(parse, path, AddedText(line), RemovedText(line), AddedTexts(body[1..]), RemovedTexts(body[1..]));
    }
  }

  lemma HunkParsed(names: Names, listed: seq<string>, hunk: Hunk, parse: Parse)
    requires parse.Valid() && UnbrokenHunk(hunk)
    ensures Parsed(names, listed, HunkPieces(hunk), parse) ==
            Parse(parse.hunks + CollectedHunk(parse.path, listed, hunk.body),
                  PathAfter(names, parse.path, hunk.body), parse.path in listed)
  {
    UnbrokenHunkIsInner(hunk);
    OpenLine(names, hunk.heading);
    var open, body := OPEN + hunk.heading, BodyLines(hunk.body);
    assert HunkPieces(hunk) == [open] + body;
    var next := HunkCounts.Next(MarkOf(names, open), open, listed, parse);
    ParsedConcat(names, listed, [open], body, parse);
    ParsedOne(names, listed, open, parse);
    BodyParsed(names, listed, hunk.body, next);
    if parse.path in listed {
      var empty := PatchHunk(parse.path, [], []);
      assert Grown(empty, AddedTexts(hunk.body), RemovedTexts(hunk.body)) ==
             PatchHunk(parse.path, AddedTexts(hunk.body), RemovedTexts(hunk.body));
    } else {
      assert parse.hunks + [] == parse.hunks;
    }
  }

  lemma HunksAssociate(a: seq<PatchHunk>, b: seq<PatchHunk>, c: seq<PatchHunk>)
    ensures a + b + c == a + (b + c)
  {
  }

  /** What is collected of one hunk. */
  function CollectedHunk(path: string, listed: seq<string>, body: seq<BodyLine>): seq<PatchHunk> {
    if path in listed then [PatchHunk(path, AddedTexts(body), RemovedTexts(body))] else []
  }

  lemma {:induction false} HunksParsed(names: Names, listed: seq<string>, hunks: seq<Hunk>, parse: Parse)
    requires parse.Valid() && UnbrokenHunks(hunks)
    ensures Parsed(names, listed, AllHunkPieces(hunks), parse).hunks == parse.hunks + Collected(names, listed, parse.path, hunks)
    decreases |hunks|
  {
    if hunks == [] {
      assert parse.hunks + [] == parse.hunks;
    } else {
      var first, body := HunkPieces(hunks[0]), hunks[0].body;
      var path, one := PathAfter(names, parse.path, body), CollectedHunk(parse.path, listed, body);
      HunkParsed(names, listed, hunks[0], parse);
      ParsedConcat(names, listed, first, AllHunkPieces(hunks[1..]), parse);
      HunksParsed(names, listed, hunks[1..], Parse(parse.hunks + one, path, parse.path in listed));
      HunksAssociate(parse.hunks, one, Collected(names, listed, path, hunks[1..]));
    }
  }

  lemma FileParsed(names: Names, listed: seq<string>, file: FileDiff, parse: Parse)
    requires Finds(names) && Countable(file) && UnbrokenHunks(file.hunks) && parse.Valid()
    ensures Parsed(names, listed, HeaderLines(file) + AllHunkPieces(file.hunks), parse).Valid()
    ensures Parsed(names, listed, HeaderLines(file) + AllHunkPieces(file.hunks), parse).hunks ==
            parse.hunks + Collected(names, listed, names.normalize(file.newPath), file.hunks)
  {
    var own := Parse(parse.hunks, names.normalize(file.newPath), false);
    HeaderParsed(names, listed, file, parse);
    ParsedConcat(names, listed, HeaderLines(file), AllHunkPieces(file.hunks), parse);
    ParsedConcat(names, listed, HeaderLines(file) + AllHunkPieces(file.hunks), [], parse);
    HunksParsed(names, listed, file.hunks, own);
  }

  lemma {:induction false} PatchParsed(names: Names, listed: seq<string>, patch: seq<FileDiff>, parse: Parse)
    requires Finds(names) && AllCountable(patch) && UnbrokenPatch(patch) && parse.Valid()
    ensures Parsed(names, listed, PatchPieces(patch), parse).hunks == parse.hunks + CollectedOf(names, listed, patch)
    decreases |patch|
  {
    if patch == [] {
      assert parse.hunks + [] == parse.hunks;
    } else {
      var file, first := patch[0], HeaderLines(patch[0]) + AllHunkPieces(patch[0].hunks);
      assert UnbrokenHunks(file.hunks);
      FileParsed(names, listed, file, parse);
      ParsedConcat(names, listed, first, PatchPieces(patch[1..]), parse);
      PatchParsed(names, listed, patch[1..], Parsed(names, listed, first, parse));
      HunksAssociate(parse.hunks, Collected(names, listed, names.normalize(file.newPath), file.hunks),
                     CollectedOf(names, listed, patch[1..]));
    }
  }

  /**
   Of a printed patch whose texts hide no separator the parser collects, hunk by hunk, the path the
   hunk is read under and exactly its added and its removed texts, for each hunk under a listed path.
   */
  lemma PrintedHunksAreCollected(names: Names, listed: seq<string>, patch: seq<FileDiff>)
    requires Finds(names) && AllCountable(patch) && UnbrokenPatch(patch)
    ensures Parsed(names, listed, SplitLines(Render(patch)), HunkCounts.Start(listed)).hunks == CollectedOf(names, listed, patch)
  {
    SplitText(PatchLines(patch));
    PiecesOfPatch(patch);
    PatchParsed(names, listed, patch, HunkCounts.Start(listed));
  }

  /** Without a disguised line every hunk is read under its file's path. */
  function Expected(path: string, hunks: seq<Hunk>): (collected: seq<PatchHunk>)
    ensures |collected| == |hunks|
  {
    seq(|hunks|, k requires 0 <= k < |hunks| => PatchHunk(path, AddedTexts(hunks[k].body), RemovedTexts(hunks[k].body)))
  }

  lemma {:induction false} UndisguisedCollected(names: Names, listed: seq<string>, path: string, hunks: seq<Hunk>)
    requires UndisguisedHunks(hunks)
    ensures Collected(names, listed, path, hunks) == if path in listed then Expected(path, hunks) else []
    decreases |hunks|
  {
    if hunks != [] {
      UndisguisedKeepsPath(names, path, hunks[0].body);
      UndisguisedCollected(names, listed, path, hunks[1..]);
      if path in listed { assert Expected(path, hunks) == [Expected(path, hunks)[0]] + Expected(path, hunks[1..]); }
    }
  }

  // ------------------------------------------------------------------ counting

  lemma {:induction false} CountsConcat(a: seq<string>, b: seq<string>)
    ensures HunkCounts.Added(a + b) == HunkCounts.Added(a) + HunkCounts.Added(b)
    ensures HunkCounts.Removed(a + b) == HunkCounts.Removed(a) + HunkCounts.Removed(b)
  {
    if a == [] {
      assert a + b == b;
    } else {
      assert (a + b)[1..] == a[1..] + b;
      CountsConcat(a[1..], b);
    }
  }

  lemma LineCounts(line: BodyLine)
    ensures IsAdded(BodyText(line)) <==> line.kind.Added? && !("++" <= line.text)
    ensures IsRemoved(BodyText(line)) <==> line.kind.Removed? && !("--" <= line.text)
  {
    Prefixes();
    var text := BodyText(line);
    assert text[0] == Marker(line.kind) && text[1..] == line.text;
    assert PLUSES == ['+'] + "++" && MINUSES == ['-'] + "--";
  }

  lemma {:induction false} BodyCounts(body: seq<BodyLine>)
    ensures HunkCounts.Added(BodyLines(body)) == |AddedTexts(body)|
    ensures HunkCounts.Removed(BodyLines(body)) == |RemovedTexts(body)|
  {
    if body != [] {
      LineCounts(body[0]);
      assert BodyLines(body)[0] == BodyText(body[0]) && BodyLines(body)[1..] == BodyLines(body[1..]);
      BodyCounts(body[1..]);
    }
  }

  function AddedIn(hunks: seq<Hunk>): nat {
    if hunks == [] then 0 else |AddedTexts(hunks[0].body)| + AddedIn(hunks[1..])
  }

  function RemovedIn(hunks: seq<Hunk>): nat {
    if hunks == [] then 0 else |RemovedTexts(hunks[0].body)| + RemovedIn(hunks[1..])
  }

  lemma {:induction false} HunksCount(names: Names, hunks: seq<Hunk>)
    requires UnbrokenHunks(hunks)
    ensures HunkCounts.Added(AllHunkPieces(hunks)) == AddedIn(hunks) && HunkCounts.Removed(AllHunkPieces(hunks)) == RemovedIn(hunks)
  {
    if hunks != [] {
      var open, body := OPEN + hunks[0].heading, BodyLines(hunks[0].body);
      UnbrokenHunkIsInner(hunks[0]);
      OpenLine(names, hunks[0].heading);
      assert HunkPieces(hunks[0]) == [open] + body && [open][1..] == [];
      CountsConcat([open], body);
      BodyCounts(hunks[0].body);
      CountsConcat(HunkPieces(hunks[0]), AllHunkPieces(hunks[1..]));
      HunksCount(names, hunks[1..]);
    }
  }

  function PatchAdded(patch: seq<FileDiff>): nat {
    if patch == [] then 0 else AddedIn(patch[0].hunks) + PatchAdded(patch[1..])
  }

  function PatchRemoved(patch: seq<FileDiff>): nat {
    if patch == [] then 0 else RemovedIn(patch[0].hunks) + PatchRemoved(patch[1..])
  }

  lemma {:induction false} PatchCounts(names: Names, patch: seq<FileDiff>)
    requires Finds(names) && AllCountable(patch) && UnbrokenPatch(patch)
    ensures HunkCounts.Added(PatchPieces(patch)) == PatchAdded(patch)
    ensures HunkCounts.Removed(PatchPieces(patch)) == PatchRemoved(patch)
  {
    if patch != [] {
      var header, pieces := HeaderLines(patch[0]), AllHunkPieces(patch[0].hunks);
      HeaderUncounted(names, patch[0]);
      assert UnbrokenHunks(patch[0].hunks);
      HunksCount(names, patch[0].hunks);
      CountsConcat(header, pieces);
      CountsConcat(header + pieces, PatchPieces(patch[1..]));
      PatchCounts(names, patch[1..]);
    }
  }

  /** The two counts over the whole text are those of the added and of the removed texts of its hunks, whatever is listed. */
  lemma PrintedLinesAreCounted(names: Names, patch: seq<FileDiff>)
    requires Finds(names) && AllCountable(patch) && UnbrokenPatch(patch)
    ensures HunkCounts.Added(SplitLines(Render(patch))) == PatchAdded(patch)
    ensures HunkCounts.Removed(SplitLines(Render(patch))) == PatchRemoved(patch)
  {
    SplitText(PatchLines(patch));
    PiecesOfPatch(patch);
    PatchCounts(names, patch);
  }
}
