/**
 How many changed lines a patch has: the count over the whole text (`_changed_line_counts`, and
 `calculate_patch_size_statistics`), and the hunks `_parse_hunks` collects for the listed files
 (backend/app/patch_quality/service.py:519-557, 815-825).
 */
module HunkCounts {
  import opened Wrappers
  import opened DiffText
  import opened PatchPaths

  const GIT_A := "diff --git a/"
  const NEW_B := "+++ b/"
  const AT := "@@"
  const PLUSES := "+++"
  const MINUSES := "---"
  const PLUS := "+"
  const MINUS := "-"

  predicate IsAdded(line: string) {
    !(PLUSES <= line) && !(MINUSES <= line) && PLUS <= line
  }

  predicate IsRemoved(line: string) {
    !(PLUSES <= line) && !(MINUSES <= line) && !(PLUS <= line) && MINUS <= line
  }

  function Added(lines: seq<string>): nat {
    if lines == [] then 0 else (if IsAdded(lines[0]) then 1 else 0) + Added(lines[1..])
  }

  function Removed(lines: seq<string>): nat {
    if lines == [] then 0 else (if IsRemoved(lines[0]) then 1 else 0) + Removed(lines[1..])
  }

  /** `_changed_line_counts`. */
  method ChangedLineCounts(text: string) returns (added: nat, removed: nat)
    ensures added == Added(SplitLines(text)) && removed == Removed(SplitLines(text))
  {
    var lines := SplitLines(text);
    added, removed := 0, 0;
    for i := 0 to |lines|
      invariant added + Added(lines[i..]) == Added(lines)
      invariant removed + Removed(lines[i..]) == Removed(lines)
    {
      if !(PLUSES <= lines[i]) && !(MINUSES <= lines[i]) {
        if PLUS <= lines[i] {
          added := added + 1;
        } else if MINUS <= lines[i] {
          removed := removed + 1;
        }
      }
    }
  }

  /** The second path of a `diff --git` line, where its pattern matches, and the path normalisation. */
  datatype Names = Names(gitPath: string -> Option<string>, normalize: string -> string)

  datatype PatchHunk = PatchHunk(path: string, added: seq<string>, removed: seq<string>)

  /** The hunks so far, the current path, and whether the last hunk is the current one. */
  datatype Parse = Parse(hunks: seq<PatchHunk>, path: string, open: bool) {
    predicate Valid() { open ==> hunks != [] }
  }

  function WithAdded(hunks: seq<PatchHunk>, line: string): seq<PatchHunk>
    requires hunks != []
  {
    var last := hunks[|hunks| - 1];
    hunks[|hunks| - 1 := last.(added := last.added + [line])]
  }

  function WithRemoved(hunks: seq<PatchHunk>, line: string): seq<PatchHunk>
    requires hunks != []
  {
    var last := hunks[|hunks| - 1];
    hunks[|hunks| - 1 := last.(removed := last.removed + [line])]
  }

  /** What a line is to the parser. */
  datatype Mark = File(named: Option<string>) | NewPath(path: string) | Open | Add | Remove | Other

  function MarkOf(names: Names, line: string): Mark {
    if GIT_A <= line then
      File(match names.gitPath(line) case None => None case Some(path) => Some(names.normalize(path)))
    else if NEW_B <= line then NewPath(names.normalize(line[|NEW_B|..]))
    else if AT <= line then Open
    else if IsAdded(line) then Add
    else if IsRemoved(line) then Remove
    else Other
  }

  function Next(mark: Mark, line: string, listed: seq<string>, parse: Parse): (next: Parse)
    requires parse.Valid() && (mark.Add? || mark.Remove? ==> line != "")
    ensures next.Valid()
  {
    match mark
    case File(path) => Parse(parse.hunks, if path.Some? then path.value else parse.path, false)
    case NewPath(path) => parse.(path := path)
    case Open =>
      if parse.path in listed then Parse(parse.hunks + [PatchHunk(parse.path, [], [])], parse.path, true)
      else parse.(open := false)
    case Add => if parse.open then parse.(hunks := WithAdded(parse.hunks, line[1..])) else parse
    case Remove => if parse.open then parse.(hunks := WithRemoved(parse.hunks, line[1..])) else parse
    case Other => parse
  }

  function Parsed(names: Names, listed: seq<string>, lines: seq<string>, parse: Parse): Parse
    requires parse.Valid()
    decreases |lines|
  {
    if lines == [] then parse else Parsed(names, listed, lines[1..], Next(MarkOf(names, lines[0]), lines[0], listed, parse))
  }

  function Start(listed: seq<string>): Parse {
    Parse([], if |listed| == 1 then listed[0] else "", false)
  }

  /** The body of the parser's loop. */
  method ParseLine(names: Names, listed: seq<string>, line: string, parse: Parse) returns (next: Parse)
    requires parse.Valid()
    ensures next == Next(MarkOf(names, line), line, listed, parse)
  {
    next := parse;
    if GIT_A <= line {
      var path := names.gitPath(line);
      if path.Some? { next := next.(path := names.normalize(path.value)); }
      next := next.(open := false);
    } else if NEW_B <= line {
      next := next.(path := names.normalize(line[|NEW_B|..]));
    } else if AT <= line {
      next := next.(open := parse.path in listed);
      if next.open { next := next.(hunks := parse.hunks + [PatchHunk(parse.path, [], [])]); }
    } else if parse.open && !(PLUSES <= line) && !(MINUSES <= line) {
      if PLUS <= line {
        next := next.(hunks := WithAdded(parse.hunks, line[1..]));
      } else if MINUS <= line {
        next := next.(hunks := WithRemoved(parse.hunks, line[1..]));
      }
    }
  }

  /** `_parse_hunks`. */
  method ParseHunks(names: Names, text: string, listed: seq<string>) returns (hunks: seq<PatchHunk>)
    ensures hunks == Parsed(names, listed, SplitLines(text), Start(listed)).hunks
  {
    var lines, parse := SplitLines(text), Start(listed);
    for i := 0 to |lines|
      invariant parse.Valid()
      invariant Parsed(names, listed, lines[i..], parse) == Parsed(names, listed, lines, Start(listed))
    {
      parse := ParseLine(names, listed, lines[i], parse);
    }
    return parse.hunks;
  }

  // The totals

  function Size(hunk: PatchHunk): nat {
    |hunk.added| + |hunk.removed|
  }

  function Total(hunks: seq<PatchHunk>): nat {
    if hunks == [] then 0 else Total(hunks[..|hunks| - 1]) + Size(hunks[|hunks| - 1])
  }

  function Changed(lines: seq<string>): nat {
    Added(lines) + Removed(lines)
  }

  /** The current path, and whether a hunk is open, after a line. */
  function PathStep(mark: Mark, path: string): string {
    if mark.NewPath? then mark.path else if mark.File? && mark.named.Some? then mark.named.value else path
  }

  function OpenStep(mark: Mark, path: string, listed: seq<string>, open: bool): bool {
    if mark.Open? then path in listed else open && !mark.File?
  }

  /** The changed lines that meet an open hunk. */
  function Seen(names: Names, listed: seq<string>, path: string, open: bool, lines: seq<string>): nat
    decreases |lines|
  {
    if lines == [] then 0
    else
      var mark := MarkOf(names, lines[0]);
      (if open && (mark.Add? || mark.Remove?) then 1 else 0)
      + Seen(names, listed, PathStep(mark, path), OpenStep(mark, path, listed, open), lines[1..])
  }

  /** The collected hunks hold exactly the changed lines that met an open hunk. */
  lemma {:induction false} ParsedTotal(names: Names, listed: seq<string>, lines: seq<string>, parse: Parse)
    requires parse.Valid()
    ensures Total(Parsed(names, listed, lines, parse).hunks) == Total(parse.hunks) + Seen(names, listed, parse.path, parse.open, lines)
    decreases |lines|
  {
    if lines != [] {
      var mark := MarkOf(names, lines[0]);
      ParsedTotal(names, listed, lines[1..], Next(mark, lines[0], listed, parse));
    }
  }

  /** For every text the hunks hold at most the changed lines counted over the whole text. */
  lemma {:induction false} SeenAtMostChanged(names: Names, listed: seq<string>, path: string, open: bool, lines: seq<string>)
    ensures Seen(names, listed, path, open, lines) <= Changed(lines)
    decreases |lines|
  {
    if lines != [] {
      var mark := MarkOf(names, lines[0]);
      SeenAtMostChanged(names, listed, PathStep(mark, path), OpenStep(mark, path, listed, open), lines[1..]);
    }
  }

  /** For every text the parsed hunks hold at most the changed lines of the text. */
  lemma HunksNeverOvercount(names: Names, text: string, listed: seq<string>)
    ensures Total(Parsed(names, listed, SplitLines(text), Start(listed)).hunks) <= Changed(SplitLines(text))
  {
    ParsedTotal(names, listed, SplitLines(text), Start(listed));
    SeenAtMostChanged(names, listed, Start(listed).path, false, SplitLines(text));
  }

  // Printed patches

  /** What the pattern finds in a printed first header line over plain paths. */
  ghost predicate Finds(names: Names) {
    forall oldPath, newPath :: Plain(oldPath) && Plain(newPath) ==> FindsPath(names, oldPath, newPath)
  }

  ghost predicate FindsPath(names: Names, oldPath: string, newPath: string) {
    names.gitPath(GitHeader(oldPath, newPath)) == Some(newPath)
  }

  /** A header line that the counters and the parser pass over. */
  predicate Quiet(line: string) {
    !(GIT_A <= line) && !(AT <= line) && !(PLUS <= line) && !(MINUS <= line)
  }

  ghost predicate Countable(file: FileDiff) {
    && WellPrinted(file)
    && forall i | 0 <= i < |file.notes| :: Quiet(file.notes[i])
  }

  ghost predicate AllCountable(patch: seq<FileDiff>) {
    patch == [] || (Countable(patch[0]) && AllCountable(patch[1..]))
  }

  /** The path these lines leave for what follows. */
  function EndPath(names: Names, path: string, lines: seq<string>): string
    decreases |lines|
  {
    if lines == [] then path else EndPath(names, PathStep(MarkOf(names, lines[0]), path), lines[1..])
  }

  /** Lines that open a hunk or start a file first, so that an open hunk before them does not matter. */
  ghost predicate Starts(names: Names, lines: seq<string>) {
    lines == [] || MarkOf(names, lines[0]) == Open || Resets(names, lines)
  }

  /** Nothing is left of the parser's state once a file's first header line is read. */
  ghost predicate Resets(names: Names, lines: seq<string>) {
    lines == [] || (MarkOf(names, lines[0]).File? && MarkOf(names, lines[0]).named.Some?)
  }

  lemma StartForgets(names: Names, listed: seq<string>, path: string, open: bool, lines: seq<string>)
    requires Starts(names, lines)
    ensures Seen(names, listed, path, open, lines) == Seen(names, listed, path, false, lines)
    ensures Resets(names, lines) ==> Seen(names, listed, path, open, lines) == Seen(names, listed, "", false, lines)
  {
  }

  lemma {:induction false} SeenConcat(names: Names, listed: seq<string>, path: string, open: bool, a: seq<string>, b: seq<string>)
    requires Starts(names, b)
    ensures Seen(names, listed, path, open, a + b)
         == Seen(names, listed, path, open, a) + Seen(names, listed, EndPath(names, path, a), false, b)
    decreases |a|
  {
    if a == [] {
      assert a + b == b;
      StartForgets(names, listed, path, open, b);
    } else {
      assert (a + b)[1..] == a[1..] + b;
      var mark := MarkOf(names, a[0]);
      SeenConcat(names, listed, PathStep(mark, path), OpenStep(mark, path, listed, open), a[1..], b);
    }
  }

  lemma Prefixes()
    ensures GIT_A[0] == 'd' && NEW_B[0] == '+' && AT[0] == '@' && PLUSES[0] == '+' && MINUSES[0] == '-'
    ensures PLUS == ['+'] && MINUS == ['-'] && |NEW_B| == 6 && NEW_B[4] == 'b' && |PLUSES| == 3 == |MINUSES|
    ensures PLUSES <= NEW_B
  {
  }

  /** A line of a hunk's body neither starts a file nor opens a hunk. */
  predicate Inner(line: string) {
    !(GIT_A <= line) && !(AT <= line)
  }

  lemma BodyIsInner(line: BodyLine)
    ensures Inner(BodyText(line))
  {
    Prefixes();
    assert BodyText(line)[0] == Marker(line.kind);
  }

  lemma NewPathIsUncounted(line: string)
    ensures NEW_B <= line ==> !IsAdded(line) && !IsRemoved(line)
  {
    Prefixes();
    if NEW_B <= line { assert line[..3] == NEW_B[..3] == PLUSES; }
  }

  lemma OpenIsUncounted(line: string)
    ensures AT <= line ==> !IsAdded(line) && !IsRemoved(line)
  {
    Prefixes();
    if AT <= line { assert line[0] == '@'; }
  }

  /** Inner lines count when a hunk is open. */
  lemma {:induction false} InnerSeen(names: Names, listed: seq<string>, path: string, open: bool, lines: seq<string>)
    requires forall i | 0 <= i < |lines| :: Inner(lines[i])
    ensures Seen(names, listed, path, open, lines) == if open then Changed(lines) else 0
    decreases |lines|
  {
    if lines != [] {
      NewPathIsUncounted(lines[0]);
      InnerSeen(names, listed, PathStep(MarkOf(names, lines[0]), path), open, lines[1..]);
    }
  }

  lemma OpenLine(names: Names, heading: string)
    ensures MarkOf(names, OPEN + heading) == Open && !(NEW_B <= OPEN + heading)
    ensures !IsAdded(OPEN + heading) && !IsRemoved(OPEN + heading)
  {
    Prefixes();
    var line := OPEN + heading;
    assert line[0] == '@' && line[..2] == OPEN[..2] == AT;
  }

  /** A hunk as the scanners see it. */
  function HunkPieces(hunk: Hunk): seq<string> {
    AllPieces(HunkLines(hunk))
  }

  lemma HunkOpens(names: Names, hunk: Hunk)
    ensures HunkPieces(hunk) != [] && MarkOf(names, HunkPieces(hunk)[0]) == Open
    ensures !IsAdded(HunkPieces(hunk)[0]) && !IsRemoved(HunkPieces(hunk)[0])
  {
    var line := HunkPieces(hunk)[0];
    OpenLine(names, line[|OPEN|..]);
    assert line == OPEN + line[|OPEN|..];
  }

  /** The changed lines the parser keeps of hunks, each read under the path left before it. */
  function SeenOf(names: Names, listed: seq<string>, path: string, hunks: seq<Hunk>): nat
    decreases |hunks|
  {
    if hunks == [] then 0
    else Seen(names, listed, path, false, HunkPieces(hunks[0]))
         + SeenOf(names, listed, EndPath(names, path, HunkPieces(hunks[0])), hunks[1..])
  }

  function ChangedOf(hunks: seq<Hunk>): nat {
    if hunks == [] then 0 else Changed(HunkPieces(hunks[0])) + ChangedOf(hunks[1..])
  }

  function AllHunkPieces(hunks: seq<Hunk>): seq<string> {
    if hunks == [] then [] else HunkPieces(hunks[0]) + AllHunkPieces(hunks[1..])
  }

  lemma HunksStart(names: Names, hunks: seq<Hunk>, rest: seq<string>)
    requires Resets(names, rest)
    ensures Starts(names, AllHunkPieces(hunks) + rest)
  {
    if hunks == [] {
      assert [] + rest == rest;
    } else {
      HunkOpens(names, hunks[0]);
    }
  }

  lemma {:induction false} HunksSeen(names: Names, listed: seq<string>, path: string, hunks: seq<Hunk>, rest: seq<string>)
    requires Resets(names, rest)
    ensures Seen(names, listed, path, false, AllHunkPieces(hunks) + rest)
         == SeenOf(names, listed, path, hunks) + Seen(names, listed, "", false, rest)
    decreases |hunks|
  {
    if hunks == [] {
      assert [] + rest == rest;
      StartForgets(names, listed, path, false, rest);
    } else {
      var first, later := HunkPieces(hunks[0]), AllHunkPieces(hunks[1..]);
      LinesAssociate(first, later, rest);
      HunksStart(names, hunks[1..], rest);
      SeenConcat(names, listed, path, false, first, later + rest);
      HunksSeen(names, listed, EndPath(names, path, first), hunks[1..], rest);
    }
  }

  lemma {:induction false} ChangedConcat(a: seq<string>, b: seq<string>)
    ensures Changed(a + b) == Changed(a) + Changed(b)
  {
    if a == [] {
      assert a + b == b;
    } else {
      assert (a + b)[1..] == a[1..] + b;
      ChangedConcat(a[1..], b);
    }
  }

  lemma {:induction false} ChangedInHunks(hunks: seq<Hunk>)
    ensures Changed(AllHunkPieces(hunks)) == ChangedOf(hunks)
  {
    if hunks != [] {
      ChangedInHunks(hunks[1..]);
      ChangedConcat(HunkPieces(hunks[0]), AllHunkPieces(hunks[1..]));
    }
  }

  /** A line the parser and the counters pass over. */
  predicate Passed(names: Names, line: string) {
    MarkOf(names, line) == Other
  }

  lemma {:induction false} PassedSeen(names: Names, listed: seq<string>, path: string, open: bool, lines: seq<string>, rest: seq<string>)
    requires forall i | 0 <= i < |lines| :: Passed(names, lines[i])
    ensures Seen(names, listed, path, open, lines + rest) == Seen(names, listed, path, open, rest)
    ensures Changed(lines) == 0
    decreases |lines|
  {
    if lines == [] {
      assert lines + rest == rest;
    } else {
      assert (lines + rest)[1..] == lines[1..] + rest;
      assert Passed(names, lines[0]);
      PassedSeen(names, listed, path, open, lines[1..], rest);
    }
  }

  lemma NewPathStartsWithPlus(line: string)
    ensures NEW_B <= line ==> PLUS <= line
  {
    Prefixes();
    if NEW_B <= line { assert line[0] == NEW_B[0]; }
  }

  lemma QuietIsPassed(names: Names, line: string)
    requires Quiet(line)
    ensures Passed(names, line)
  {
    Prefixes();
    NewPathStartsWithPlus(line);
  }

  lemma MoveLinesPassed(names: Names, file: FileDiff)
    ensures forall i | 0 <= i < |MoveLines(file)| :: Passed(names, MoveLines(file)[i])
  {
    Prefixes();
    FirstLetters();
    forall i | 0 <= i < |MoveLines(file)| ensures Passed(names, MoveLines(file)[i]) {
      var line := MoveLines(file)[i];
      assert line[0] == 'r' || line[0] == 'c';
      QuietIsPassed(names, line);
    }
  }

  lemma OldLinePassed(names: Names, word: string)
    ensures Passed(names, OLD + word)
  {
    Prefixes();
    FirstLetters();
    var line := OLD + word;
    assert line[0] == '-' && line[..3] == OLD[..3] == MINUSES;
  }

  lemma NewLineMarks(names: Names, path: string)
    ensures MarkOf(names, NEW + (B + path)) == NewPath(names.normalize(path))
    ensures Passed(names, NEW + NULL_PATH)
    ensures !IsAdded(NEW + (B + path)) && !IsRemoved(NEW + (B + path))
  {
    Prefixes();
    FirstLetters();
    var line, gone := NEW + (B + path), NEW + NULL_PATH;
    assert line[0] == '+' && line[..6] == NEW_B && line[6..] == path;
    assert gone[0] == '+' && gone[4] == '/' && gone[..3] == NEW[..3] == PLUSES;
    NewPathIsUncounted(line);
  }

  lemma GitLineMark(names: Names, file: FileDiff)
    requires Finds(names) && WellPrinted(file)
    ensures MarkOf(names, GitLine(file)) == File(Some(names.normalize(file.newPath)))
    ensures !IsAdded(GitLine(file)) && !IsRemoved(GitLine(file))
  {
    Prefixes();
    assert FindsPath(names, file.oldPath, file.newPath);
    var line := GitLine(file);
    assert GIT + A == GIT_A && line[..13] == GIT_A && line[0] == 'd';
  }

  /** The `---` and `+++` lines leave the path the first header line set. */
  lemma PathLinesSeen(names: Names, listed: seq<string>, file: FileDiff, rest: seq<string>)
    ensures var path := names.normalize(file.newPath);
            Seen(names, listed, path, false, PathLines(file) + rest) == Seen(names, listed, path, false, rest)
    ensures Changed(PathLines(file)) == 0
  {
    var path := names.normalize(file.newPath);
    if file.hunks == [] {
      assert [] + rest == rest;
    } else {
      var x := OLD + if file.created then NULL_PATH else A + file.oldPath;
      var y := NEW + if file.deleted then NULL_PATH else B + file.newPath;
      OldLinePassed(names, if file.created then NULL_PATH else A + file.oldPath);
      NewLineMarks(names, file.newPath);
      PassedSeen(names, listed, path, false, [x], [y] + rest);
      PassedSeen(names, listed, path, false, [], rest);
      assert [x, y] == [x] + [y] && [x] + [y] + rest == [x] + ([y] + rest);
      assert ([y] + rest)[1..] == rest && [y][1..] == [];
      assert Seen(names, listed, path, false, [y] + rest) == Seen(names, listed, path, false, rest);
      ChangedConcat([x], [y]);
    }
  }

  lemma GitLineSeen(names: Names, listed: seq<string>, path: string, open: bool, file: FileDiff, rest: seq<string>)
    requires Finds(names) && WellPrinted(file)
    ensures Seen(names, listed, path, open, [GitLine(file)] + rest) == Seen(names, listed, names.normalize(file.newPath), false, rest)
  {
    GitLineMark(names, file);
    assert ([GitLine(file)] + rest)[1..] == rest;
  }

  /** A file's headers leave the parser at the file's new path, with no hunk open. */
  lemma HeaderSeen(names: Names, listed: seq<string>, path: string, open: bool, file: FileDiff, rest: seq<string>)
    requires Finds(names) && Countable(file)
    ensures Seen(names, listed, path, open, HeaderLines(file) + rest) == Seen(names, listed, names.normalize(file.newPath), false, rest)
  {
    var git, notes, moves, ends, own := [GitLine(file)], file.notes, MoveLines(file), PathLines(file), names.normalize(file.newPath);
    GitLineSeen(names, listed, path, open, file, notes + (moves + (ends + rest)));
    forall i | 0 <= i < |notes| ensures Passed(names, notes[i]) { QuietIsPassed(names, notes[i]); }
    PassedSeen(names, listed, own, false, notes, moves + (ends + rest));
    MoveLinesPassed(names, file);
    PassedSeen(names, listed, own, false, moves, ends + rest);
    PathLinesSeen(names, listed, file, rest);
    HeaderParts(git, notes, moves, ends, rest);
  }

  /** ... and are not counted. */
  lemma HeaderUncounted(names: Names, file: FileDiff)
    requires Finds(names) && Countable(file)
    ensures Changed(HeaderLines(file)) == 0
  {
    var git, notes, moves, ends := [GitLine(file)], file.notes, MoveLines(file), PathLines(file);
    GitLineMark(names, file);
    assert git[1..] == [];
    forall i | 0 <= i < |notes| ensures Passed(names, notes[i]) { QuietIsPassed(names, notes[i]); }
    PassedSeen(names, [], "", false, notes, []);
    MoveLinesPassed(names, file);
    PassedSeen(names, [], "", false, moves, []);
    PathLinesSeen(names, [], file, []);
    ChangedConcat(git, notes);
    ChangedConcat(git + notes, moves);
    ChangedConcat(git + notes + moves, ends);
  }

  lemma HeaderParts(a: seq<string>, b: seq<string>, c: seq<string>, d: seq<string>, e: seq<string>)
    ensures a + b + c + d + e == a + (b + (c + (d + e)))
  {
  }

  function PatchSeen(names: Names, listed: seq<string>, patch: seq<FileDiff>): nat {
    if patch == [] then 0
    else SeenOf(names, listed, names.normalize(patch[0].newPath), patch[0].hunks) + PatchSeen(names, listed, patch[1..])
  }

  function PatchChanged(patch: seq<FileDiff>): nat {
    if patch == [] then 0 else ChangedOf(patch[0].hunks) + PatchChanged(patch[1..])
  }

  /** A patch as the scanners see it. */
  function PatchPieces(patch: seq<FileDiff>): seq<string> {
    if patch == [] then [] else HeaderLines(patch[0]) + AllHunkPieces(patch[0].hunks) + PatchPieces(patch[1..])
  }

  lemma PatchResets(names: Names, patch: seq<FileDiff>)
    requires Finds(names) && AllCountable(patch)
    ensures Resets(names, PatchPieces(patch))
  {
    if patch != [] { GitLineMark(names, patch[0]); }
  }

  lemma {:induction false} PatchPiecesSeen(names: Names, listed: seq<string>, patch: seq<FileDiff>)
    requires Finds(names) && AllCountable(patch)
    ensures Seen(names, listed, "", false, PatchPieces(patch)) == PatchSeen(names, listed, patch)
    ensures Changed(PatchPieces(patch)) == PatchChanged(patch)
  {
    if patch != [] {
      var file, later := patch[0], PatchPieces(patch[1..]);
      PatchPiecesSeen(names, listed, patch[1..]);
      PatchResets(names, patch[1..]);
      LinesAssociate(HeaderLines(file), AllHunkPieces(file.hunks), later);
      HeaderSeen(names, listed, "", false, file, AllHunkPieces(file.hunks) + later);
      HeaderUncounted(names, file);
      HunksSeen(names, listed, names.normalize(file.newPath), file.hunks, later);
      ChangedInHunks(file.hunks);
      ChangedConcat(HeaderLines(file), AllHunkPieces(file.hunks));
      ChangedConcat(HeaderLines(file) + AllHunkPieces(file.hunks), later);
    }
  }

  lemma {:induction false} PiecesOfHunks(hunks: seq<Hunk>)
    ensures AllPieces(AllHunkLines(hunks)) == AllHunkPieces(hunks)
  {
    if hunks != [] {
      PiecesOfHunks(hunks[1..]);
      PiecesOfConcat(HunkLines(hunks[0]), AllHunkLines(hunks[1..]));
    }
  }

  lemma {:induction false} PiecesOfPatch(patch: seq<FileDiff>)
    requires AllCountable(patch)
    ensures AllPieces(PatchLines(patch)) == PatchPieces(patch)
  {
    if patch != [] {
      var file := patch[0];
      HeadersUnbroken(file);
      UnbrokenPieces(HeaderLines(file));
      PiecesOfHunks(file.hunks);
      PiecesOfPatch(patch[1..]);
      PiecesOfConcat(HeaderLines(file), AllHunkLines(file.hunks));
      PiecesOfConcat(HeaderLines(file) + AllHunkLines(file.hunks), PatchLines(patch[1..]));
    }
  }

  /** What the parsed hunks of a text hold, and what is counted over it. */
  function HunkTotal(names: Names, text: string, listed: seq<string>): nat {
    Total(Parsed(names, listed, SplitLines(text), Start(listed)).hunks)
  }

  function CountedTotal(text: string): nat {
    Changed(SplitLines(text))
  }

  lemma PrintedTotals(names: Names, listed: seq<string>, patch: seq<FileDiff>)
    requires Finds(names) && AllCountable(patch)
    ensures HunkTotal(names, Render(patch), listed) == PatchSeen(names, listed, patch)
    ensures CountedTotal(Render(patch)) == PatchChanged(patch)
  {
    SplitText(PatchLines(patch));
    PiecesOfPatch(patch);
    ParsedTotal(names, listed, PatchPieces(patch), Start(listed));
    PatchResets(names, patch);
    StartForgets(names, listed, Start(listed).path, false, PatchPieces(patch));
    PatchPiecesSeen(names, listed, patch);
  }

  /** Of every hunk, read on its own under the path left before it, the parser keeps every changed line. */
  ghost predicate NoneLost(names: Names, listed: seq<string>, path: string, hunks: seq<Hunk>)
    decreases |hunks|
  {
    hunks == [] || (Seen(names, listed, path, false, HunkPieces(hunks[0])) == Changed(HunkPieces(hunks[0]))
                    && NoneLost(names, listed, EndPath(names, path, HunkPieces(hunks[0])), hunks[1..]))
  }

  ghost predicate NoneLostIn(names: Names, listed: seq<string>, patch: seq<FileDiff>) {
    patch == [] || (NoneLost(names, listed, names.normalize(patch[0].newPath), patch[0].hunks) && NoneLostIn(names, listed, patch[1..]))
  }

  lemma {:induction false} LostHunks(names: Names, listed: seq<string>, path: string, hunks: seq<Hunk>)
    ensures SeenOf(names, listed, path, hunks) <= ChangedOf(hunks)
    ensures SeenOf(names, listed, path, hunks) == ChangedOf(hunks) <==> NoneLost(names, listed, path, hunks)
    decreases |hunks|
  {
    if hunks != [] {
      SeenAtMostChanged(names, listed, path, false, HunkPieces(hunks[0]));
      LostHunks(names, listed, EndPath(names, path, HunkPieces(hunks[0])), hunks[1..]);
    }
  }

  lemma {:induction false} LostInPatch(names: Names, listed: seq<string>, patch: seq<FileDiff>)
    ensures PatchSeen(names, listed, patch) <= PatchChanged(patch)
    ensures PatchSeen(names, listed, patch) == PatchChanged(patch) <==> NoneLostIn(names, listed, patch)
  {
    if patch != [] {
      LostHunks(names, listed, names.normalize(patch[0].newPath), patch[0].hunks);
      LostInPatch(names, listed, patch[1..]);
    }
  }

  /** On a printed patch the hunk totals equal the counts exactly when no hunk, read on its own, loses a changed line. */
  lemma TotalsAgreeIff(names: Names, listed: seq<string>, patch: seq<FileDiff>)
    requires Finds(names) && AllCountable(patch)
    ensures HunkTotal(names, Render(patch), listed) == CountedTotal(Render(patch)) <==> NoneLostIn(names, listed, patch)
  {
    PrintedTotals(names, listed, patch);
    LostInPatch(names, listed, patch);
  }

  /** A hunk none of whose lines is taken for a new file loses lines exactly when the path before it is not listed. */
  lemma InnerHunkLosesIff(names: Names, listed: seq<string>, path: string, hunk: Hunk)
    requires forall i | 0 < i < |HunkPieces(hunk)| :: Inner(HunkPieces(hunk)[i])
    ensures Seen(names, listed, path, false, HunkPieces(hunk)) == Changed(HunkPieces(hunk))
       <==> path in listed || Changed(HunkPieces(hunk)) == 0
  {
    HunkOpens(names, hunk);
    InnerSeen(names, listed, path, path in listed, HunkPieces(hunk)[1..]);
  }

  lemma UnbrokenHunkIsInner(hunk: Hunk)
    requires UnbrokenHunk(hunk)
    ensures HunkPieces(hunk) == HunkLines(hunk)
    ensures forall i | 0 < i < |HunkPieces(hunk)| :: Inner(HunkPieces(hunk)[i])
  {
    UnbrokenHunkLines(hunk);
    forall i | 0 < i < |HunkPieces(hunk)| ensures Inner(HunkPieces(hunk)[i]) { BodyIsInner(hunk.body[i - 1]); }
  }

  // The same read off the patch, when no text in it hides a separator

  const DISGUISE := "++ b/"

  /** An added line that prints as a new path. */
  predicate Disguises(line: BodyLine) {
    line.kind.Added? && DISGUISE <= line.text
  }

  /** An added or removed line that does not print as a `+++` or `---` line. */
  predicate Counts(line: BodyLine) {
    (line.kind.Added? && !("++" <= line.text)) || (line.kind.Removed? && !("--" <= line.text))
  }

  predicate HasCounted(body: seq<BodyLine>) {
    exists i | 0 <= i < |body| :: Counts(body[i])
  }

  /** The path a hunk's lines leave: that of the last disguised one, if any. */
  function PathAfter(names: Names, path: string, body: seq<BodyLine>): string
    decreases |body|
  {
    if body == [] then path
    else PathAfter(names, if Disguises(body[0]) then names.normalize(body[0].text[|DISGUISE|..]) else path, body[1..])
  }

  /** The path under which hunk `k` is read. */
  function PathAt(names: Names, path: string, hunks: seq<Hunk>, k: nat): string
    requires k < |hunks|
    decreases |hunks|
  {
    if k == 0 then path else PathAt(names, PathAfter(names, path, hunks[0].body), hunks[1..], k - 1)
  }

  ghost predicate ReadUnderListed(names: Names, listed: seq<string>, path: string, hunks: seq<Hunk>) {
    forall k: nat | k < |hunks| && HasCounted(hunks[k].body) :: PathAt(names, path, hunks, k) in listed
  }

  ghost predicate AllReadUnderListed(names: Names, listed: seq<string>, patch: seq<FileDiff>) {
    forall i | 0 <= i < |patch| :: ReadUnderListed(names, listed, names.normalize(patch[i].newPath), patch[i].hunks)
  }

  ghost predicate UnbrokenHunks(hunks: seq<Hunk>) {
    forall k | 0 <= k < |hunks| :: UnbrokenHunk(hunks[k])
  }

  ghost predicate UnbrokenPatch(patch: seq<FileDiff>) {
    forall i | 0 <= i < |patch| :: UnbrokenHunks(patch[i].hunks)
  }

  lemma BodyMark(names: Names, path: string, line: BodyLine)
    ensures IsAdded(BodyText(line)) || IsRemoved(BodyText(line)) <==> Counts(line)
    ensures NEW_B <= BodyText(line) <==> Disguises(line)
    ensures PathStep(MarkOf(names, BodyText(line)), path) ==
            if Disguises(line) then names.normalize(line.text[|DISGUISE|..]) else path
  {
    BodyIsInner(line);
    Prefixes();
    var text := BodyText(line);
    assert text[0] == Marker(line.kind) && text[1..] == line.text;
    assert PLUSES == ['+'] + "++" && MINUSES == ['-'] + "--" && NEW_B == ['+'] + DISGUISE;
    if Disguises(line) { assert text[|NEW_B|..] == line.text[|DISGUISE|..]; }
  }

  lemma {:induction false} BodyEnds(names: Names, path: string, body: seq<BodyLine>)
    ensures EndPath(names, path, BodyLines(body)) == PathAfter(names, path, body)
    ensures Changed(BodyLines(body)) == 0 <==> !HasCounted(body)
    decreases |body|
  {
    if body != [] {
      var first, line := body[0], BodyText(body[0]);
      BodyMark(names, path, first);
      assert BodyLines(body)[0] == line && BodyLines(body)[1..] == BodyLines(body[1..]);
      BodyEnds(names, PathStep(MarkOf(names, line), path), body[1..]);
      if HasCounted(body) && !Counts(first) {
        var i :| 0 <= i < |body| && Counts(body[i]);
        assert Counts(body[1..][i - 1]);
      }
      if HasCounted(body[1..]) {
        var i :| 0 <= i < |body[1..]| && Counts(body[1..][i]);
        assert Counts(body[i + 1]);
      }
    }
  }

  lemma UnbrokenEnds(names: Names, path: string, hunk: Hunk)
    requires UnbrokenHunk(hunk)
    ensures EndPath(names, path, HunkPieces(hunk)) == PathAfter(names, path, hunk.body)
    ensures Changed(HunkPieces(hunk)) == 0 <==> !HasCounted(hunk.body)
  {
    UnbrokenHunkIsInner(hunk);
    HunkOpens(names, hunk);
    assert HunkPieces(hunk)[1..] == BodyLines(hunk.body);
    BodyEnds(names, path, hunk.body);
  }

  lemma {:induction false} UnbrokenLosesNoneIff(names: Names, listed: seq<string>, path: string, hunks: seq<Hunk>)
    requires UnbrokenHunks(hunks)
    ensures NoneLost(names, listed, path, hunks) <==> ReadUnderListed(names, listed, path, hunks)
    decreases |hunks|
  {
    if hunks != [] {
      UnbrokenHunkIsInner(hunks[0]);
      InnerHunkLosesIff(names, listed, path, hunks[0]);
      UnbrokenEnds(names, path, hunks[0]);
      UnbrokenLosesNoneIff(names, listed, PathAfter(names, path, hunks[0].body), hunks[1..]);
    }
  }

  lemma {:induction false} UnbrokenPatchLosesNoneIff(names: Names, listed: seq<string>, patch: seq<FileDiff>)
    requires UnbrokenPatch(patch)
    ensures NoneLostIn(names, listed, patch) <==> AllReadUnderListed(names, listed, patch)
  {
    if patch != [] {
      var first, rest := patch[0], patch[1..];
      assert UnbrokenHunks(first.hunks);
      UnbrokenLosesNoneIff(names, listed, names.normalize(first.newPath), first.hunks);
      UnbrokenPatchLosesNoneIff(names, listed, rest);
      if AllReadUnderListed(names, listed, patch) {
        forall i | 0 <= i < |rest| ensures ReadUnderListed(names, listed, names.normalize(rest[i].newPath), rest[i].hunks) {
          assert rest[i] == patch[i + 1];
        }
      }
    }
  }

  /**
   When no text in the patch hides a separator: the hunk totals equal the counts exactly when every
   hunk with a counted line is read under a listed path, which is the file's own unless an added
   line before it starts with `++ b/`.
   */
  lemma UnbrokenTotalsAgreeIff(names: Names, listed: seq<string>, patch: seq<FileDiff>)
    requires Finds(names) && AllCountable(patch) && UnbrokenPatch(patch)
    ensures HunkTotal(names, Render(patch), listed) == CountedTotal(Render(patch)) <==> AllReadUnderListed(names, listed, patch)
  {
    TotalsAgreeIff(names, listed, patch);
    UnbrokenPatchLosesNoneIff(names, listed, patch);
  }

  predicate Undisguised(body: seq<BodyLine>) {
    forall i | 0 <= i < |body| :: !Disguises(body[i])
  }

  predicate UndisguisedHunks(hunks: seq<Hunk>) {
    forall k | 0 <= k < |hunks| :: Undisguised(hunks[k].body)
  }

  lemma {:induction false} UndisguisedKeepsPath(names: Names, path: string, body: seq<BodyLine>)
    requires Undisguised(body)
    ensures PathAfter(names, path, body) == path
    decreases |body|
  {
    if body != [] { UndisguisedKeepsPath(names, path, body[1..]); }
  }

  lemma {:induction false} UndisguisedReadAsOwn(names: Names, path: string, hunks: seq<Hunk>, k: nat)
    requires k < |hunks| && UndisguisedHunks(hunks)
    ensures PathAt(names, path, hunks, k) == path
    decreases |hunks|
  {
    if k > 0 {
      UndisguisedKeepsPath(names, path, hunks[0].body);
      UndisguisedReadAsOwn(names, path, hunks[1..], k - 1);
    }
  }

  /** Without such lines they agree exactly when every file with a counted line is listed. */
  lemma UndisguisedTotalsAgreeIff(names: Names, listed: seq<string>, patch: seq<FileDiff>)
    requires Finds(names) && AllCountable(patch) && UnbrokenPatch(patch)
    requires forall i | 0 <= i < |patch| :: UndisguisedHunks(patch[i].hunks)
    ensures HunkTotal(names, Render(patch), listed) == CountedTotal(Render(patch)) <==>
            forall i, k: nat | 0 <= i < |patch| && k < |patch[i].hunks| && HasCounted(patch[i].hunks[k].body) ::
              names.normalize(patch[i].newPath) in listed
  {
    UnbrokenTotalsAgreeIff(names, listed, patch);
    forall i, k: nat | 0 <= i < |patch| && k < |patch[i].hunks|
      ensures PathAt(names, names.normalize(patch[i].newPath), patch[i].hunks, k) == names.normalize(patch[i].newPath)
    {
      UndisguisedReadAsOwn(names, names.normalize(patch[i].newPath), patch[i].hunks, k);
    }
    if AllReadUnderListed(names, listed, patch) {
      forall i, k: nat | 0 <= i < |patch| && k < |patch[i].hunks| && HasCounted(patch[i].hunks[k].body)
        ensures names.normalize(patch[i].newPath) in listed
      {
        assert ReadUnderListed(names, listed, names.normalize(patch[i].newPath), patch[i].hunks);
      }
    }
  }

  /** No line of the hunk, as the scanners see them, starts like a new file or a new path; others may open it again. */
  ghost predicate Steady(lines: seq<string>) {
    forall i | 0 <= i < |lines| :: !(GIT_A <= lines[i]) && !(NEW_B <= lines[i])
  }

  ghost predicate SteadyHunks(hunks: seq<Hunk>) {
    hunks == [] || (Steady(HunkPieces(hunks[0])) && SteadyHunks(hunks[1..]))
  }

  /** A hunk without separators is steady unless an added line starts with `++ b/`. */
  lemma UndisguisedIsSteady(hunk: Hunk)
    requires UnbrokenHunk(hunk)
    ensures Steady(HunkPieces(hunk)) <==> Undisguised(hunk.body)
  {
    var names := Names(line => None, path => path);
    UnbrokenHunkIsInner(hunk);
    OpenLine(names, hunk.heading);
    Prefixes();
    assert HunkPieces(hunk)[0][0] == '@';
    forall i | 0 <= i < |hunk.body|
      ensures HunkPieces(hunk)[i + 1] == BodyText(hunk.body[i]) && (NEW_B <= BodyText(hunk.body[i]) <==> Disguises(hunk.body[i]))
    {
      BodyMark(names, "", hunk.body[i]);
    }
    if Undisguised(hunk.body) {
      forall i | 0 <= i < |HunkPieces(hunk)| ensures !(GIT_A <= HunkPieces(hunk)[i]) && !(NEW_B <= HunkPieces(hunk)[i]) {
        if i > 0 { assert HunkPieces(hunk)[i - 1 + 1] == BodyText(hunk.body[i - 1]); }
      }
    }
    if Steady(HunkPieces(hunk)) {
      forall i | 0 <= i < |hunk.body| ensures !Disguises(hunk.body[i]) { assert !(NEW_B <= HunkPieces(hunk)[i + 1]); }
    }
  }

  ghost predicate ListedPatch(names: Names, listed: seq<string>, patch: seq<FileDiff>) {
    patch == [] || (names.normalize(patch[0].newPath) in listed && SteadyHunks(patch[0].hunks) && ListedPatch(names, listed, patch[1..]))
  }

  lemma {:induction false} SteadySeen(names: Names, listed: seq<string>, path: string, lines: seq<string>)
    requires Steady(lines) && path in listed
    ensures Seen(names, listed, path, true, lines) == Changed(lines) && EndPath(names, path, lines) == path
  {
    if lines != [] {
      OpenIsUncounted(lines[0]);
      SteadySeen(names, listed, path, lines[1..]);
    }
  }

  lemma {:induction false} SteadyLosesNone(names: Names, listed: seq<string>, path: string, hunks: seq<Hunk>)
    requires SteadyHunks(hunks) && path in listed
    ensures NoneLost(names, listed, path, hunks)
  {
    if hunks != [] {
      HunkOpens(names, hunks[0]);
      SteadySeen(names, listed, path, HunkPieces(hunks[0]));
      SteadyLosesNone(names, listed, path, hunks[1..]);
    }
  }

  lemma {:induction false} ListedLosesNone(names: Names, listed: seq<string>, patch: seq<FileDiff>)
    requires ListedPatch(names, listed, patch)
    ensures NoneLostIn(names, listed, patch)
  {
    if patch != [] {
      SteadyLosesNone(names, listed, names.normalize(patch[0].newPath), patch[0].hunks);
      ListedLosesNone(names, listed, patch[1..]);
    }
  }

  /** Over listed files they agree when no line of a hunk starts with `+++ b/` or `diff --git a/`. */
  lemma ListedTotalsAgree(names: Names, listed: seq<string>, patch: seq<FileDiff>)
    requires Finds(names) && AllCountable(patch) && ListedPatch(names, listed, patch)
    ensures HunkTotal(names, Render(patch), listed) == CountedTotal(Render(patch))
  {
    ListedLosesNone(names, listed, patch);
    TotalsAgreeIff(names, listed, patch);
  }

  const AT_TOP := "-1,3 +1,4 @@"
  const AT_END := "-8,3 +9,4 @@ g"

  /** A file of ten lines, `a` to `j`: a line `++ b/` with another path is added before them and a line `x` after them. */
  function Disguised(index: string, path: string, other: string): FileDiff {
    FileDiff(path, path, Stays, [index], false, false,
             [Hunk(AT_TOP, [BodyLine(DiffText.Added, DISGUISE + other),
                            BodyLine(Context, "a"), BodyLine(Context, "b"), BodyLine(Context, "c")]),
              Hunk(AT_END, [BodyLine(Context, "h"), BodyLine(Context, "i"), BodyLine(Context, "j"),
                            BodyLine(DiffText.Added, "x")])])
  }

  lemma DisguisedIsPrinted(index: string, path: string, other: string)
    requires Plain(path) && Plain(other) && Neutral(index) && Quiet(index)
    ensures Countable(Disguised(index, path, other)) && UnbrokenHunks(Disguised(index, path, other).hunks)
  {
    var top, end, mark := AT_TOP, AT_END, DISGUISE;
    assert forall i | 0 <= i < |top| :: !IsBreak(top[i]);
    assert forall i | 0 <= i < |end| :: !IsBreak(end[i]);
    assert forall i | 0 <= i < |mark| :: !IsBreak(mark[i]);
    UnbrokenConcat(DISGUISE, other);
  }

  /** The second hunk is read under the other path. */
  lemma SecondHunkRenamed(names: Names, index: string, path: string, other: string)
    ensures var file := Disguised(index, path, other);
            PathAt(names, names.normalize(path), file.hunks, 1) == names.normalize(other) && HasCounted(file.hunks[1].body)
  {
    var file := Disguised(index, path, other);
    var body := file.hunks[0].body;
    assert body[0].text[|DISGUISE|..] == other;
    UndisguisedKeepsPath(names, names.normalize(other), body[1..]);
    assert PathAt(names, names.normalize(path), file.hunks, 1) == PathAfter(names, names.normalize(path), body);
    assert Counts(file.hunks[1].body[3]);
  }

  /** The parser takes that added line for a new path, and loses the second hunk. */
  lemma DisguisedLineLosesHunk(names: Names, listed: seq<string>, index: string, path: string, other: string)
    requires Finds(names) && Plain(path) && Plain(other) && Neutral(index) && Quiet(index)
    requires names.normalize(other) !in listed
    ensures var text := Render([Disguised(index, path, other)]);
            HunkTotal(names, text, listed) < CountedTotal(text)
  {
    var file := Disguised(index, path, other);
    DisguisedIsPrinted(index, path, other);
    SecondHunkRenamed(names, index, path, other);
    assert !ReadUnderListed(names, listed, names.normalize(path), file.hunks);
    assert [file][0] == file && [file][1..] == [];
    UnbrokenTotalsAgreeIff(names, listed, [file]);
    HunksNeverOvercount(names, Render([file]), listed);
  }

  /** A pattern that finds the second path: the last of the four words, without its `b/`. */
  function SecondPath(line: string): Option<string> {
    var words := Words(line);
    if |words| == 4 && |words[3]| >= 2 then Some(words[3][2..]) else None
  }

  /** What is asked of the pattern is consistent. */
  lemma SecondPathFinds()
    ensures Finds(Names(SecondPath, text => text))
  {
    var names := Names(SecondPath, text => text);
    forall oldPath, newPath | Plain(oldPath) && Plain(newPath) ensures FindsPath(names, oldPath, newPath) {
      HeaderWords(oldPath, newPath);
      assert (B + newPath)[2..] == newPath;
    }
  }
}
