/** Which paths a patch touches: `extract_patch_paths` (backend/app/patches/service.py:607-651). */
module PatchPaths {
  import opened Wrappers
  import opened PyText
  import opened DiffText

  /** `shlex.split`; `None` is its `ValueError`. */
  type Splitter = string -> Option<seq<string>>

  // The scan over lines

  /** What a line does: fail, start a file's headers, open a hunk, or name paths when outside a hunk. */
  datatype Effect = Fails | Git(paths: set<string>) | Enter | FailsOutside | Name(paths: set<string>)

  datatype Scan = Scan(paths: set<string>, inHunk: bool)

  function Step(effect: Effect, scan: Scan): Option<Scan> {
    match effect
    case Fails => None
    case Git(paths) => Some(Scan(scan.paths + paths, false))
    case Enter => Some(Scan(scan.paths, true))
    case FailsOutside => if scan.inHunk then Some(scan) else None
    case Name(paths) => Some(if scan.inHunk then scan else Scan(scan.paths + paths, false))
  }

  type Reader = string -> Effect

  function Scanned(read: Reader, lines: seq<string>, scan: Scan): Option<Scan> {
    if lines == [] then Some(scan)
    else match Step(read(lines[0]), scan)
      case None => None
      case Some(next) => Scanned(read, lines[1..], next)
  }

  function Then(read: Reader, scan: Option<Scan>, lines: seq<string>): Option<Scan> {
    match scan
    case None => None
    case Some(s) => Scanned(read, lines, s)
  }

  lemma {:induction false} ScanConcat(read: Reader, a: seq<string>, b: seq<string>, scan: Scan)
    ensures Scanned(read, a + b, scan) == Then(read, Scanned(read, a, scan), b)
  {
    if a == [] {
      assert a + b == b;
    } else {
      assert (a + b)[1..] == a[1..] + b;
      var next := Step(read(a[0]), scan);
      if next.Some? { ScanConcat(read, a[1..], b, next.value); }
    }
  }

  function Adding(paths: set<string>, scan: Option<Scan>): Option<Scan> {
    match scan
    case None => None
    case Some(s) => Some(Scan(paths + s.paths, s.inHunk))
  }

  /** Paths already found only ever add to what a scan finds. */
  lemma {:induction false} ScanAdds(read: Reader, lines: seq<string>, paths: set<string>, scan: Scan)
    ensures Scanned(read, lines, Scan(paths + scan.paths, scan.inHunk)) == Adding(paths, Scanned(read, lines, scan))
  {
    if lines != [] {
      var next := Step(read(lines[0]), scan);
      StepAdds(read(lines[0]), paths, scan);
      if next.Some? { ScanAdds(read, lines[1..], paths, next.value); }
    }
  }

  lemma StepAdds(effect: Effect, paths: set<string>, scan: Scan)
    ensures Step(effect, Scan(paths + scan.paths, scan.inHunk)) == Adding(paths, Step(effect, scan))
  {
    match effect
    case Git(more) => assert paths + scan.paths + more == paths + (scan.paths + more);
    case Name(more) => assert paths + scan.paths + more == paths + (scan.paths + more);
    case _ =>
  }

  // The effect of a line

  function BeforeTab(text: string): string {
    if text == "" || text[0] == '\t' then "" else [text[0]] + BeforeTab(text[1..])
  }

  /** `_first_patch_path_token`; `None` is the safety error. */
  function FirstToken(split: Splitter, text: string): Option<string> {
    var value := Strip(text);
    var path := if '\t' in value then Strip(BeforeTab(value)) else value;
    match split(path)
    case None => None
    case Some(parts) => if parts == [] then None else Some(parts[0])
  }

  function GitEffect(split: Splitter, line: string): Effect {
    match split(line)
    case None => Fails
    case Some(parts) => if |parts| < 4 then Fails else Git({parts[2], parts[3]})
  }

  function PathEffect(split: Splitter, text: string): Effect {
    match FirstToken(split, text)
    case None => FailsOutside
    case Some(path) => Name(if path == NULL_PATH then {} else {path})
  }

  function LineEffect(split: Splitter, line: string): Effect {
    if GIT <= line then GitEffect(split, line)
    else if OPEN <= line then Enter
    else if OLD <= line then PathEffect(split, line[4..])
    else if NEW <= line then PathEffect(split, line[4..])
    else if RENAME_FROM <= line then Name({line[|RENAME_FROM|..]})
    else if RENAME_TO <= line then Name({line[|RENAME_TO|..]})
    else if COPY_FROM <= line then Name({line[|COPY_FROM|..]})
    else if COPY_TO <= line then Name({line[|COPY_TO|..]})
    else Name({})
  }

  function ReadBy(split: Splitter): Reader {
    line => LineEffect(split, line)
  }

  /** `extract_patch_paths`: the result is sorted in the source; `None` is the safety error. */
  method ExtractPatchPaths(split: Splitter, text: string) returns (result: Option<set<string>>)
    ensures result == Extract(split, text)
  {
    var lines := SplitLines(text);
    var paths: set<string>, inHunk := {}, false;
    for i := 0 to |lines|
      invariant Scanned(ReadBy(split), lines[i..], Scan(paths, inHunk)) == Scanned(ReadBy(split), lines, Scan({}, false))
    {
      ghost var before := Scan(paths, inHunk);
      var ok;
      paths, inHunk, ok := ReadLine(split, lines[i], paths, inHunk);
      assert Step(LineEffect(split, lines[i]), before) == if ok then Some(Scan(paths, inHunk)) else None;
      if !ok {
        return None;
      }
    }
    return Some(paths);
  }

  function Paths(scan: Option<Scan>): Option<set<string>> {
    match scan
    case None => None
    case Some(s) => Some(s.paths)
  }

  /** The body of the loop over the lines; false stands for the safety error. */
  method ReadLine(split: Splitter, line: string, paths: set<string>, inHunk: bool)
    returns (nextPaths: set<string>, nextInHunk: bool, ok: bool)
    ensures Step(LineEffect(split, line), Scan(paths, inHunk)) == if ok then Some(Scan(nextPaths, nextInHunk)) else None
  {
    nextPaths, nextInHunk, ok := paths, inHunk, true;
    assert paths + {} == paths;
    if GIT <= line {
      nextInHunk := false;
      var parts := split(line);
      ok := parts.Some? && |parts.value| >= 4;
      if ok { nextPaths := paths + {parts.value[2], parts.value[3]}; }
    } else if OPEN <= line {
      nextInHunk := true;
    } else if !inHunk && (OLD <= line || NEW <= line) {
      var path := FirstToken(split, line[4..]);
      ok := path.Some?;
      if ok && path.value != NULL_PATH { nextPaths := paths + {path.value}; }
    } else if !inHunk {
      if RENAME_FROM <= line { nextPaths := paths + {line[|RENAME_FROM|..]}; }
      else if RENAME_TO <= line { nextPaths := paths + {line[|RENAME_TO|..]}; }
      else if COPY_FROM <= line { nextPaths := paths + {line[|COPY_FROM|..]}; }
      else if COPY_TO <= line { nextPaths := paths + {line[|COPY_TO|..]}; }
    }
  }

  // The paths of a printed patch

  const DIFF_WORD := "diff"
  const GIT_WORD := "--git"

  /** What the source relies on of `shlex.split`: unquoted plain words come apart at the blanks. */
  ghost predicate Lawful(split: Splitter) {
    && (forall oldPath, newPath :: Plain(oldPath) && Plain(newPath) ==> SplitsGitHeader(split, oldPath, newPath))
    && (forall word :: Plain(word) ==> SplitsWord(split, word))
  }

  ghost predicate SplitsGitHeader(split: Splitter, oldPath: string, newPath: string) {
    split(GitHeader(oldPath, newPath)) == Some([DIFF_WORD, GIT_WORD, A + oldPath, B + newPath])
  }

  ghost predicate SplitsWord(split: Splitter, word: string) {
    split(word) == Some([word])
  }

  /** A header line that names no path, opens no hunk and starts no file. */
  predicate Neutral(line: string) {
    && Unbroken(line)
    && !(GIT <= line) && !(OPEN <= line) && !(OLD <= line) && !(NEW <= line)
    && !(RENAME_FROM <= line) && !(RENAME_TO <= line) && !(COPY_FROM <= line) && !(COPY_TO <= line)
  }

  /** A file's headers as git prints them, over plain paths. */
  ghost predicate WellPrinted(file: FileDiff) {
    Plain(file.oldPath) && Plain(file.newPath) && forall i | 0 <= i < |file.notes| :: Neutral(file.notes[i])
  }

  function HeaderPaths(file: FileDiff): set<string> {
    {A + file.oldPath, B + file.newPath} + MovePaths(file)
  }

  function AllHeaderPaths(patch: seq<FileDiff>): set<string> {
    if patch == [] then {} else HeaderPaths(patch[0]) + AllHeaderPaths(patch[1..])
  }

  /** The paths a hunk names, read on its own from inside a hunk. */
  function HunkReads(read: Reader, hunk: Hunk): Option<set<string>> {
    Paths(Scanned(read, AllPieces(HunkLines(hunk)), Scan({}, true)))
  }

  function Both(a: Option<set<string>>, b: Option<set<string>>): Option<set<string>> {
    if a.None? || b.None? then None else Some(a.value + b.value)
  }

  function HunksRead(read: Reader, hunks: seq<Hunk>): Option<set<string>> {
    if hunks == [] then Some({}) else Both(HunkReads(read, hunks[0]), HunksRead(read, hunks[1..]))
  }

  /** The paths named by hunks of the patch; `None` when a hunk line is taken for a malformed header. */
  function BodyPaths(read: Reader, patch: seq<FileDiff>): Option<set<string>> {
    if patch == [] then Some({}) else Both(HunksRead(read, patch[0].hunks), BodyPaths(read, patch[1..]))
  }

  /** Lines whose scan starts by entering a hunk scan alike from any state. */
  lemma EnteringForgets(read: Reader, lines: seq<string>, paths: set<string>, inHunk: bool)
    requires lines != [] && read(lines[0]) == Enter
    ensures Paths(Scanned(read, lines, Scan(paths, inHunk))) == Both(Some(paths), Paths(Scanned(read, lines, Scan({}, true))))
  {
    assert Scanned(read, lines, Scan(paths, inHunk)) == Scanned(read, lines[1..], Scan(paths, true));
    ScanAdds(read, lines[1..], paths, Scan({}, true));
    assert paths + {} == paths;
  }

  lemma HunkScan(split: Splitter, hunk: Hunk, paths: set<string>, inHunk: bool)
    ensures Paths(Scanned(ReadBy(split), AllPieces(HunkLines(hunk)), Scan(paths, inHunk)))
         == Both(Some(paths), HunkReads(ReadBy(split), hunk))
  {
    var lines := AllPieces(HunkLines(hunk));
    OpensHunk(split, lines[0]);
    EnteringForgets(ReadBy(split), lines, paths, inHunk);
  }

  lemma OpensHunk(split: Splitter, line: string)
    requires OPEN <= line
    ensures LineEffect(split, line) == Enter
  {
    assert line[0] == '@' && GIT[0] == 'd';
  }

  lemma {:induction false} HunksScan(split: Splitter, hunks: seq<Hunk>, paths: set<string>, inHunk: bool)
    ensures Paths(Scanned(ReadBy(split), AllPieces(AllHunkLines(hunks)), Scan(paths, inHunk)))
         == Both(Some(paths), HunksRead(ReadBy(split), hunks))
  {
    if hunks == [] {
      assert paths + {} == paths;
    } else {
      var read, first, rest := ReadBy(split), HunkLines(hunks[0]), AllHunkLines(hunks[1..]);
      PiecesOfConcat(first, rest);
      ScanConcat(read, AllPieces(first), AllPieces(rest), Scan(paths, inHunk));
      HunkScan(split, hunks[0], paths, inHunk);
      var after := Scanned(read, AllPieces(first), Scan(paths, inHunk));
      if after.Some? {
        HunksScan(split, hunks[1..], after.value.paths, after.value.inHunk);
        BothAssociates(Some(paths), HunkReads(read, hunks[0]), HunksRead(read, hunks[1..]));
      }
    }
  }

  lemma BothAssociates(a: Option<set<string>>, b: Option<set<string>>, c: Option<set<string>>)
    ensures Both(Both(a, b), c) == Both(a, Both(b, c))
  {
    if a.Some? && b.Some? && c.Some? { assert a.value + b.value + c.value == a.value + (b.value + c.value); }
  }

  lemma PlainConstants()
    ensures Plain(A) && Plain(B) && Plain(NULL_PATH)
  {
    var word := NULL_PATH;
    assert forall i | 0 <= i < |word| :: PlainChar(word[i]);
  }

  lemma FirstLetters()
    ensures GIT[0] == 'd' && OPEN[0] == '@' && OLD[0] == '-' && NEW[0] == '+'
    ensures RENAME_FROM[0] == 'r' == RENAME_TO[0] && COPY_FROM[0] == 'c' == COPY_TO[0]
    ensures RENAME_FROM[7] == 'f' && RENAME_TO[7] == 't' && COPY_FROM[5] == 'f' && COPY_TO[5] == 't'
    ensures |OLD| == 4 == |NEW|
  {
  }

  lemma GitLineReads(split: Splitter, file: FileDiff)
    requires Lawful(split) && WellPrinted(file)
    ensures LineEffect(split, GitLine(file)) == Git({A + file.oldPath, B + file.newPath})
  {
    assert SplitsGitHeader(split, file.oldPath, file.newPath);
  }

  lemma OldLineReads(split: Splitter, word: string)
    requires Lawful(split) && Plain(word)
    ensures LineEffect(split, OLD + word) == Name(if word == NULL_PATH then {} else {word})
  {
    FirstLetters();
    assert (OLD + word)[0] == '-' && (OLD + word)[4..] == word;
  }

  lemma NewLineReads(split: Splitter, word: string)
    requires Lawful(split) && Plain(word)
    ensures LineEffect(split, NEW + word) == Name(if word == NULL_PATH then {} else {word})
  {
    FirstLetters();
    assert (NEW + word)[0] == '+' && (NEW + word)[4..] == word;
  }

  lemma RenameReads(split: Splitter, path: string)
    ensures LineEffect(split, RENAME_FROM + path) == Name({path}) == LineEffect(split, RENAME_TO + path)
  {
    FirstLetters();
    assert (RENAME_FROM + path)[0] == 'r' && (RENAME_FROM + path)[|RENAME_FROM|..] == path;
    assert (RENAME_TO + path)[0] == 'r' && (RENAME_TO + path)[7] == 't' && (RENAME_TO + path)[|RENAME_TO|..] == path;
  }

  lemma CopyReads(split: Splitter, path: string)
    ensures LineEffect(split, COPY_FROM + path) == Name({path}) == LineEffect(split, COPY_TO + path)
  {
    FirstLetters();
    assert (COPY_FROM + path)[0] == 'c' && (COPY_FROM + path)[|COPY_FROM|..] == path;
    assert (COPY_TO + path)[0] == 'c' && (COPY_TO + path)[5] == 't' && (COPY_TO + path)[|COPY_TO|..] == path;
  }

  lemma {:induction false} NotesScan(split: Splitter, notes: seq<string>, paths: set<string>)
    requires forall i | 0 <= i < |notes| :: Neutral(notes[i])
    ensures Scanned(ReadBy(split), notes, Scan(paths, false)) == Some(Scan(paths, false))
  {
    if notes != [] {
      assert paths + {} == paths;
      NotesScan(split, notes[1..], paths);
    }
  }

  lemma TwoNames(split: Splitter, x: string, y: string, xs: set<string>, ys: set<string>, paths: set<string>)
    requires LineEffect(split, x) == Name(xs) && LineEffect(split, y) == Name(ys)
    ensures Scanned(ReadBy(split), [x, y], Scan(paths, false)) == Some(Scan(paths + xs + ys, false))
  {
    var read := ReadBy(split);
    assert [x, y][1..] == [y] && [y][1..] == [];
    assert Scanned(read, [x, y], Scan(paths, false)) == Scanned(read, [y], Scan(paths + xs, false));
    assert Scanned(read, [y], Scan(paths + xs, false)) == Scanned(read, [], Scan(paths + xs + ys, false));
  }

  function MovePaths(file: FileDiff): set<string> {
    if file.move == Stays then {} else {file.oldPath, file.newPath}
  }

  lemma MoveScan(split: Splitter, file: FileDiff, paths: set<string>)
    ensures Scanned(ReadBy(split), MoveLines(file), Scan(paths, false)) == Some(Scan(paths + MovePaths(file), false))
  {
    var x, y := file.oldPath, file.newPath;
    assert paths + {} == paths && paths + {x} + {y} == paths + {x, y};
    RenameReads(split, x);
    RenameReads(split, y);
    CopyReads(split, x);
    CopyReads(split, y);
    TwoNames(split, RENAME_FROM + x, RENAME_TO + y, {x}, {y}, paths);
    TwoNames(split, COPY_FROM + x, COPY_TO + y, {x}, {y}, paths);
  }

  lemma PathLinesRead(split: Splitter, file: FileDiff, xs: set<string>, ys: set<string>)
    requires Lawful(split) && WellPrinted(file)
    requires xs == (if file.created then {} else {A + file.oldPath}) && ys == (if file.deleted then {} else {B + file.newPath})
    ensures LineEffect(split, OLD + if file.created then NULL_PATH else A + file.oldPath) == Name(xs)
    ensures LineEffect(split, NEW + if file.deleted then NULL_PATH else B + file.newPath) == Name(ys)
  {
    PlainConstants();
    OldLineReads(split, if file.created then NULL_PATH else A + file.oldPath);
    NewLineReads(split, if file.deleted then NULL_PATH else B + file.newPath);
    assert (A + file.oldPath)[0] == 'a' && (B + file.newPath)[0] == 'b' && NULL_PATH[0] == '/';
  }

  lemma PathsScan(split: Splitter, file: FileDiff, paths: set<string>)
    requires Lawful(split) && WellPrinted(file) && A + file.oldPath in paths && B + file.newPath in paths
    ensures Scanned(ReadBy(split), PathLines(file), Scan(paths, false)) == Some(Scan(paths, false))
  {
    if file.hunks != [] {
      var xs, ys := if file.created then {} else {A + file.oldPath}, if file.deleted then {} else {B + file.newPath};
      PathLinesRead(split, file, xs, ys);
      TwoNames(split, PathLines(file)[0], PathLines(file)[1], xs, ys, paths);
      assert paths + xs + ys == paths;
    }
  }

  /** A file's headers add exactly its header paths, and leave the scan outside hunks. */
  lemma HeaderScan(split: Splitter, file: FileDiff, paths: set<string>, inHunk: bool)
    requires Lawful(split) && WellPrinted(file)
    ensures Scanned(ReadBy(split), HeaderLines(file), Scan(paths, inHunk)) == Some(Scan(paths + HeaderPaths(file), false))
  {
    var read := ReadBy(split);
    var git, moved := paths + {A + file.oldPath, B + file.newPath}, MovePaths(file);
    GitLineReads(split, file);
    assert [GitLine(file)][1..] == [];
    assert Scanned(read, [GitLine(file)], Scan(paths, inHunk)) == Scanned(read, [], Scan(git, false));
    NotesScan(split, file.notes, git);
    MoveScan(split, file, git);
    PathsScan(split, file, git + moved);
    ScanConcat(read, [GitLine(file)], file.notes, Scan(paths, inHunk));
    ScanConcat(read, [GitLine(file)] + file.notes, MoveLines(file), Scan(paths, inHunk));
    ScanConcat(read, [GitLine(file)] + file.notes + MoveLines(file), PathLines(file), Scan(paths, inHunk));
    assert git + moved == paths + HeaderPaths(file);
  }

  lemma UnbrokenConcat(a: string, b: string)
    requires Unbroken(a) && Unbroken(b)
    ensures Unbroken(a + b)
  {
    assert forall i | 0 <= i < |a + b| :: (a + b)[i] == if i < |a| then a[i] else b[i - |a|];
  }

  lemma UnbrokenConstants()
    ensures Unbroken(GIT) && Unbroken(OPEN) && Unbroken(OLD) && Unbroken(NEW) && Unbroken(SPACE)
    ensures Unbroken(RENAME_FROM) && Unbroken(RENAME_TO) && Unbroken(COPY_FROM) && Unbroken(COPY_TO)
  {
    var git, opening, minus, plus, space := GIT, OPEN, OLD, NEW, SPACE;
    var renameFrom, renameTo, copyFrom, copyTo := RENAME_FROM, RENAME_TO, COPY_FROM, COPY_TO;
    assert forall i | 0 <= i < |git| :: !IsBreak(git[i]);
    assert forall i | 0 <= i < |opening| :: !IsBreak(opening[i]);
    assert forall i | 0 <= i < |minus| :: !IsBreak(minus[i]);
    assert forall i | 0 <= i < |plus| :: !IsBreak(plus[i]);
    assert forall i | 0 <= i < |space| :: !IsBreak(space[i]);
    assert forall i | 0 <= i < |renameFrom| :: !IsBreak(renameFrom[i]);
    assert forall i | 0 <= i < |renameTo| :: !IsBreak(renameTo[i]);
    assert forall i | 0 <= i < |copyFrom| :: !IsBreak(copyFrom[i]);
    assert forall i | 0 <= i < |copyTo| :: !IsBreak(copyTo[i]);
  }

  lemma PlainIsUnbroken(path: string)
    requires Plain(path)
    ensures Unbroken(path) && Unbroken(A + path) && Unbroken(B + path)
  {
    forall i | 0 <= i < |path| ensures !IsBreak(path[i]) { assert PlainChar(path[i]); }
    PlainConstants();
    UnbrokenConcat(A, path);
    UnbrokenConcat(B, path);
  }

  lemma GitHeaderIsUnbroken(oldPath: string, newPath: string)
    requires Plain(oldPath) && Plain(newPath)
    ensures Unbroken(GitHeader(oldPath, newPath))
  {
    UnbrokenConstants();
    PlainIsUnbroken(oldPath);
    PlainIsUnbroken(newPath);
    UnbrokenConcat(GIT, A + oldPath);
    UnbrokenConcat(GIT + (A + oldPath), SPACE);
    UnbrokenConcat(GIT + (A + oldPath) + SPACE, B + newPath);
  }

  lemma HeadersUnbroken(file: FileDiff)
    requires WellPrinted(file)
    ensures forall i | 0 <= i < |HeaderLines(file)| :: Unbroken(HeaderLines(file)[i])
  {
    GitHeaderIsUnbroken(file.oldPath, file.newPath);
    MovesUnbroken(file);
    PathLinesUnbroken(file);
    AllOfFour([GitLine(file)], file.notes, MoveLines(file), PathLines(file));
  }

  lemma AllOfFour(a: seq<string>, b: seq<string>, c: seq<string>, d: seq<string>)
    requires forall i | 0 <= i < |a| :: Unbroken(a[i])
    requires forall i | 0 <= i < |b| :: Unbroken(b[i])
    requires forall i | 0 <= i < |c| :: Unbroken(c[i])
    requires forall i | 0 <= i < |d| :: Unbroken(d[i])
    ensures forall i | 0 <= i < |a + b + c + d| :: Unbroken((a + b + c + d)[i])
  {
  }

  lemma MovesUnbroken(file: FileDiff)
    requires WellPrinted(file)
    ensures forall i | 0 <= i < |MoveLines(file)| :: Unbroken(MoveLines(file)[i])
  {
    UnbrokenConstants();
    PlainIsUnbroken(file.oldPath);
    PlainIsUnbroken(file.newPath);
    UnbrokenConcat(RENAME_FROM, file.oldPath);
    UnbrokenConcat(RENAME_TO, file.newPath);
    UnbrokenConcat(COPY_FROM, file.oldPath);
    UnbrokenConcat(COPY_TO, file.newPath);
  }

  lemma PathLinesUnbroken(file: FileDiff)
    requires WellPrinted(file)
    ensures forall i | 0 <= i < |PathLines(file)| :: Unbroken(PathLines(file)[i])
  {
    UnbrokenConstants();
    PlainConstants();
    PlainIsUnbroken(NULL_PATH);
    PlainIsUnbroken(file.oldPath);
    PlainIsUnbroken(file.newPath);
    UnbrokenConcat(OLD, NULL_PATH);
    UnbrokenConcat(NEW, NULL_PATH);
    UnbrokenConcat(OLD, A + file.oldPath);
    UnbrokenConcat(NEW, B + file.newPath);
  }

  ghost predicate AllWellPrinted(patch: seq<FileDiff>) {
    forall i | 0 <= i < |patch| :: WellPrinted(patch[i])
  }

  lemma FileScan(split: Splitter, file: FileDiff, paths: set<string>, inHunk: bool)
    requires Lawful(split) && WellPrinted(file)
    ensures Paths(Scanned(ReadBy(split), AllPieces(HeaderLines(file) + AllHunkLines(file.hunks)), Scan(paths, inHunk)))
         == Both(Some(paths + HeaderPaths(file)), HunksRead(ReadBy(split), file.hunks))
  {
    HeadersUnbroken(file);
    UnbrokenPieces(HeaderLines(file));
    PiecesOfConcat(HeaderLines(file), AllHunkLines(file.hunks));
    HeaderScan(split, file, paths, inHunk);
    ScanConcat(ReadBy(split), HeaderLines(file), AllPieces(AllHunkLines(file.hunks)), Scan(paths, inHunk));
    HunksScan(split, file.hunks, paths + HeaderPaths(file), false);
  }

  lemma {:induction false} PatchScan(split: Splitter, patch: seq<FileDiff>, paths: set<string>, inHunk: bool)
    requires Lawful(split) && AllWellPrinted(patch)
    ensures Paths(Scanned(ReadBy(split), AllPieces(PatchLines(patch)), Scan(paths, inHunk)))
         == Both(Some(paths + AllHeaderPaths(patch)), BodyPaths(ReadBy(split), patch))
  {
    if patch == [] {
      assert paths + {} + {} == paths;
    } else {
      var read, file := ReadBy(split), patch[0];
      var first := HeaderLines(file) + AllHunkLines(file.hunks);
      PiecesOfConcat(first, PatchLines(patch[1..]));
      ScanConcat(read, AllPieces(first), AllPieces(PatchLines(patch[1..])), Scan(paths, inHunk));
      FileScan(split, file, paths, inHunk);
      var after := Scanned(read, AllPieces(first), Scan(paths, inHunk));
      if after.Some? {
        PatchScan(split, patch[1..], after.value.paths, after.value.inHunk);
        JoinFiles(paths, HeaderPaths(file), HunksRead(read, file.hunks), AllHeaderPaths(patch[1..]), BodyPaths(read, patch[1..]));
      }
    }
  }

  lemma JoinFiles(paths: set<string>, header: set<string>, hunks: Option<set<string>>, headers: set<string>, bodies: Option<set<string>>)
    requires hunks.Some?
    ensures Both(Some(paths + header + hunks.value + headers), bodies) == Both(Some(paths + (header + headers)), Both(hunks, bodies))
  {
    if bodies.Some? {
      assert paths + header + hunks.value + headers + bodies.value == paths + (header + headers) + (hunks.value + bodies.value);
    }
  }

  /** `extract_patch_paths` as a function of the text. */
  function Extract(split: Splitter, text: string): Option<set<string>> {
    Paths(Scanned(ReadBy(split), SplitLines(text), Scan({}, false)))
  }

  /** Of a printed patch, the scan finds the header paths and whatever its hunks name when read on their own. */
  lemma ExtractReadsBodies(split: Splitter, patch: seq<FileDiff>)
    requires Lawful(split) && AllWellPrinted(patch)
    ensures Extract(split, Render(patch)) == Both(Some(AllHeaderPaths(patch)), BodyPaths(ReadBy(split), patch))
  {
    SplitText(PatchLines(patch));
    PatchScan(split, patch, {}, false);
    assert {} + AllHeaderPaths(patch) == AllHeaderPaths(patch);
  }

  /** What the hunks name adds nothing to the headers exactly when they name nothing further. */
  lemma NothingFurther(headers: set<string>, bodies: Option<set<string>>)
    ensures Both(Some(headers), bodies) == Some(headers) <==> Bounded(bodies, headers)
  {
    if bodies.Some? && headers + bodies.value == headers {
      forall path | path in bodies.value ensures path in headers { assert path in headers + bodies.value; }
    }
    if Bounded(bodies, headers) { assert headers + bodies.value == headers; }
  }

  // Which lines of a hunk matter

  /** No failure, and nothing but these paths. */
  predicate Bounded(found: Option<set<string>>, paths: set<string>) {
    found.Some? && found.value <= paths
  }

  /** Whether line `i` is inside a hunk: the last line before it that starts a file or opens a hunk says so. */
  predicate InsideAt(lines: seq<string>, start: bool, i: nat)
    requires i <= |lines|
  {
    if i == 0 then start
    else if GIT <= lines[i - 1] then false
    else OPEN <= lines[i - 1] || InsideAt(lines, start, i - 1)
  }

  /**
   A line that starts like a file's first header line is read, and a header line is read outside
   hunks; neither may fail or name another path. No other line matters.
   */
  predicate Harmless(split: Splitter, headers: set<string>, lines: seq<string>, start: bool, i: nat)
    requires i < |lines|
  {
    var effect := LineEffect(split, lines[i]);
    if GIT <= lines[i] then effect.Git? && effect.paths <= headers
    else OPEN <= lines[i] || InsideAt(lines, start, i) || (effect.Name? && effect.paths <= headers)
  }

  ghost predicate AllHarmless(split: Splitter, headers: set<string>, lines: seq<string>, start: bool) {
    forall i: nat | i < |lines| :: Harmless(split, headers, lines, start, i)
  }

  lemma {:induction false} InsideTail(lines: seq<string>, start: bool, i: nat)
    requires lines != [] && i < |lines|
    ensures InsideAt(lines, start, i + 1) == InsideAt(lines[1..], InsideAt(lines, start, 1), i)
  {
    if i > 0 {
      InsideTail(lines, start, i - 1);
      assert lines[1..][i - 1] == lines[i];
    }
  }

  lemma HarmlessTail(split: Splitter, headers: set<string>, lines: seq<string>, start: bool)
    requires lines != []
    ensures AllHarmless(split, headers, lines, start) <==>
              Harmless(split, headers, lines, start, 0) && AllHarmless(split, headers, lines[1..], InsideAt(lines, start, 1))
  {
    var rest, next := lines[1..], InsideAt(lines, start, 1);
    forall i: nat | i < |rest|
      ensures Harmless(split, headers, rest, next, i) <==> Harmless(split, headers, lines, start, i + 1)
    {
      InsideTail(lines, start, i);
    }
    if Harmless(split, headers, lines, start, 0) && AllHarmless(split, headers, rest, next) {
      forall i: nat | i < |lines| ensures Harmless(split, headers, lines, start, i) {
        if i > 0 { assert Harmless(split, headers, rest, next, i - 1); }
      }
    }
  }

  lemma {:induction false} ScanGrows(read: Reader, lines: seq<string>, scan: Scan)
    ensures Scanned(read, lines, scan).Some? ==> scan.paths <= Scanned(read, lines, scan).value.paths
  {
    if lines != [] {
      var next := Step(read(lines[0]), scan);
      if next.Some? { ScanGrows(read, lines[1..], next.value); }
    }
  }

  /** One line fails or names another path exactly when it is not harmless; else it leaves the scan where the next line expects it. */
  lemma HarmlessStep(split: Splitter, headers: set<string>, lines: seq<string>, scan: Scan)
    requires lines != [] && scan.paths <= headers
    ensures var next := Step(LineEffect(split, lines[0]), scan);
            && (Harmless(split, headers, lines, scan.inHunk, 0) <==> next.Some? && next.value.paths <= headers)
            && (next.Some? ==> next.value.inHunk == InsideAt(lines, scan.inHunk, 1))
  {
  }

  /** A scan stays within some paths exactly when all its lines are harmless. */
  lemma {:induction false} ScanBoundedIff(split: Splitter, headers: set<string>, lines: seq<string>, scan: Scan)
    requires scan.paths <= headers
    ensures Bounded(Paths(Scanned(ReadBy(split), lines, scan)), headers) <==> AllHarmless(split, headers, lines, scan.inHunk)
    decreases |lines|
  {
    if lines != [] {
      var next := Step(LineEffect(split, lines[0]), scan);
      HarmlessTail(split, headers, lines, scan.inHunk);
      HarmlessStep(split, headers, lines, scan);
      if next.Some? {
        ScanGrows(ReadBy(split), lines[1..], next.value);
        if next.value.paths <= headers { ScanBoundedIff(split, headers, lines[1..], next.value); }
      }
    }
  }

  /** Of the lines the splitter sees in a hunk, none fails or names another path. */
  ghost predicate HarmlessHunk(split: Splitter, headers: set<string>, hunk: Hunk) {
    AllHarmless(split, headers, AllPieces(HunkLines(hunk)), true)
  }

  ghost predicate HarmlessHunks(split: Splitter, headers: set<string>, hunks: seq<Hunk>) {
    forall k | 0 <= k < |hunks| :: HarmlessHunk(split, headers, hunks[k])
  }

  ghost predicate HarmlessBodies(split: Splitter, headers: set<string>, patch: seq<FileDiff>) {
    forall i | 0 <= i < |patch| :: HarmlessHunks(split, headers, patch[i].hunks)
  }

  lemma BothBounded(a: Option<set<string>>, b: Option<set<string>>, paths: set<string>)
    ensures Bounded(Both(a, b), paths) <==> Bounded(a, paths) && Bounded(b, paths)
  {
    if a.Some? && b.Some? && a.value + b.value <= paths {
      forall path | path in a.value || path in b.value ensures path in paths { assert path in a.value + b.value; }
    }
  }

  lemma {:induction false} HunksBoundedIff(split: Splitter, headers: set<string>, hunks: seq<Hunk>)
    ensures Bounded(HunksRead(ReadBy(split), hunks), headers) <==> HarmlessHunks(split, headers, hunks)
  {
    if hunks != [] {
      ScanBoundedIff(split, headers, AllPieces(HunkLines(hunks[0])), Scan({}, true));
      HunksBoundedIff(split, headers, hunks[1..]);
      BothBounded(HunkReads(ReadBy(split), hunks[0]), HunksRead(ReadBy(split), hunks[1..]), headers);
      HarmlessHunksTail(split, headers, hunks);
    }
  }

  lemma HarmlessHunksTail(split: Splitter, headers: set<string>, hunks: seq<Hunk>)
    requires hunks != []
    ensures HarmlessHunks(split, headers, hunks) <==>
              HarmlessHunk(split, headers, hunks[0]) && HarmlessHunks(split, headers, hunks[1..])
  {
    assert forall k | 0 <= k < |hunks[1..]| :: hunks[1..][k] == hunks[k + 1];
  }

  lemma {:induction false} BodiesBoundedIff(split: Splitter, headers: set<string>, patch: seq<FileDiff>)
    ensures Bounded(BodyPaths(ReadBy(split), patch), headers) <==> HarmlessBodies(split, headers, patch)
  {
    if patch != [] {
      HunksBoundedIff(split, headers, patch[0].hunks);
      BodiesBoundedIff(split, headers, patch[1..]);
      BothBounded(HunksRead(ReadBy(split), patch[0].hunks), BodyPaths(ReadBy(split), patch[1..]), headers);
      HarmlessBodiesTail(split, headers, patch);
    }
  }

  lemma HarmlessBodiesTail(split: Splitter, headers: set<string>, patch: seq<FileDiff>)
    requires patch != []
    ensures HarmlessBodies(split, headers, patch) <==>
              HarmlessHunks(split, headers, patch[0].hunks) && HarmlessBodies(split, headers, patch[1..])
  {
    var rest := patch[1..];
    assert forall i | 0 <= i < |rest| :: rest[i] == patch[i + 1];
    if HarmlessBodies(split, headers, patch) {
      forall i | 0 <= i < |rest| ensures HarmlessHunks(split, headers, rest[i].hunks) { assert rest[i] == patch[i + 1]; }
    }
  }

  /**
   The header paths are all it finds exactly when every hunk line is harmless: none that starts
   with `diff --git ` fails or names a further path, nor a header line after such a one and before
   the next `@@ `.
   */
  lemma ExactlyHeadersIff(split: Splitter, patch: seq<FileDiff>)
    requires Lawful(split) && AllWellPrinted(patch)
    ensures Extract(split, Render(patch)) == Some(AllHeaderPaths(patch)) <==> HarmlessBodies(split, AllHeaderPaths(patch), patch)
  {
    ExtractReadsBodies(split, patch);
    NothingFurther(AllHeaderPaths(patch), BodyPaths(ReadBy(split), patch));
    BodiesBoundedIff(split, AllHeaderPaths(patch), patch);
  }

  /** No line of the hunk, as the scanner sees them, starts like a file's first header line. */
  ghost predicate Calm(hunk: Hunk) {
    CalmLines(AllPieces(HunkLines(hunk)))
  }

  ghost predicate CalmLines(lines: seq<string>) {
    forall i | 0 <= i < |lines| :: !(GIT <= lines[i])
  }

  ghost predicate CalmPatch(patch: seq<FileDiff>) {
    forall i, k | 0 <= i < |patch| && 0 <= k < |patch[i].hunks| :: Calm(patch[i].hunks[k])
  }

  lemma {:induction false} CalmStaysInside(lines: seq<string>, i: nat)
    requires CalmLines(lines) && i <= |lines|
    ensures InsideAt(lines, true, i)
  {
    if i > 0 { CalmStaysInside(lines, i - 1); }
  }

  lemma CalmIsHarmless(split: Splitter, headers: set<string>, lines: seq<string>)
    requires CalmLines(lines)
    ensures AllHarmless(split, headers, lines, true)
  {
    forall i: nat | i < |lines| ensures Harmless(split, headers, lines, true, i) { CalmStaysInside(lines, i); }
  }

  /** Whatever else its hunks contain, a patch none of whose hunk lines starts with `diff --git ` is read exactly. */
  lemma CalmPatchIsExact(split: Splitter, patch: seq<FileDiff>)
    requires Lawful(split) && AllWellPrinted(patch) && CalmPatch(patch)
    ensures Extract(split, Render(patch)) == Some(AllHeaderPaths(patch))
  {
    var headers := AllHeaderPaths(patch);
    forall i, k | 0 <= i < |patch| && 0 <= k < |patch[i].hunks| ensures HarmlessHunk(split, headers, patch[i].hunks[k]) {
      assert Calm(patch[i].hunks[k]);
      CalmIsHarmless(split, headers, AllPieces(HunkLines(patch[i].hunks[k])));
    }
    ExactlyHeadersIff(split, patch);
  }

  /** The texts of a hunk have no line separator: only the printed newlines end its lines. */
  ghost predicate UnbrokenHunk(hunk: Hunk) {
    Unbroken(hunk.heading) && forall i | 0 <= i < |hunk.body| :: Unbroken(hunk.body[i].text)
  }

  lemma UnbrokenHunkLines(hunk: Hunk)
    requires UnbrokenHunk(hunk)
    ensures AllPieces(HunkLines(hunk)) == HunkLines(hunk)
  {
    var lines := HunkLines(hunk);
    UnbrokenConstants();
    UnbrokenConcat(OPEN, hunk.heading);
    forall i | 0 <= i < |lines| ensures Unbroken(lines[i]) {
      if i > 0 { UnbrokenConcat([Marker(hunk.body[i - 1].kind)], hunk.body[i - 1].text); }
    }
    UnbrokenPieces(lines);
  }

  lemma BodyStartsNoFile(line: BodyLine)
    ensures !(GIT <= BodyText(line))
  {
    FirstLetters();
    assert BodyText(line)[0] == Marker(line.kind);
  }

  lemma UnbrokenHunkIsCalm(hunk: Hunk)
    requires UnbrokenHunk(hunk)
    ensures Calm(hunk)
  {
    var lines := HunkLines(hunk);
    UnbrokenHunkLines(hunk);
    FirstLetters();
    assert lines[0][0] == '@';
    forall i | 0 <= i < |lines| ensures !(GIT <= lines[i]) {
      if i > 0 { BodyStartsNoFile(hunk.body[i - 1]); }
    }
  }

  const ONE_MORE := "-1 +1,2 @@"

  /** A line is added to a one-line file; the line that was there is a form feed and another file's first header line. */
  function HidesHeader(index: string, path: string, other: string): FileDiff {
    FileDiff(path, path, Stays, [index], false, false,
             [Hunk(ONE_MORE, [BodyLine(Context, ['\U{0c}'] + GitHeader(other, other)), BodyLine(Added, "x")])])
  }

  lemma OneMoreIsUnbroken()
    ensures Unbroken(ONE_MORE) && Unbroken([' ']) && Unbroken("+x")
  {
    var text, last := ONE_MORE, "+x";
    assert forall i | 0 <= i < |text| :: !IsBreak(text[i]);
    assert forall i | 0 <= i < |last| :: !IsBreak(last[i]);
  }

  lemma HiddenBody(index: string, path: string, other: string)
    ensures HunkLines(HidesHeader(index, path, other).hunks[0]) ==
            [OPEN + ONE_MORE, [' '] + ['\U{0c}'] + GitHeader(other, other), "+x"]
  {
    var hunk := HidesHeader(index, path, other).hunks[0];
    assert ['+'] + "x" == "+x";
    assert [' '] + (['\U{0c}'] + GitHeader(other, other)) == [' '] + ['\U{0c}'] + GitHeader(other, other);
    assert BodyLines(hunk.body) == [BodyText(hunk.body[0]), BodyText(hunk.body[1])];
  }

  lemma ThreePieces(first: string, second: string, third: string)
    ensures AllPieces([first, second, third]) == Pieces(first) + Pieces(second) + Pieces(third)
  {
    var two: seq<string>, one: seq<string> := [second, third], [third];
    assert [first, second, third][1..] == two && two[1..] == one && one[1..] == [];
    assert AllPieces(one) == Pieces(third) + AllPieces([]);
    LinesEnd(Pieces(third));
    assert AllPieces(two) == Pieces(second) + AllPieces(one);
    LinesAssociate(Pieces(first), Pieces(second), Pieces(third));
  }

  lemma HiddenPieces(index: string, path: string, other: string)
    requires Plain(other)
    ensures AllPieces(HunkLines(HidesHeader(index, path, other).hunks[0])) == [OPEN + ONE_MORE, [' '], GitHeader(other, other), "+x"]
  {
    var line := GitHeader(other, other);
    HiddenBody(index, path, other);
    OneMoreIsUnbroken();
    UnbrokenConstants();
    GitHeaderIsUnbroken(other, other);
    UnbrokenConcat(OPEN, ONE_MORE);
    UnbrokenPiece(OPEN + ONE_MORE);
    BrokenPieces([' '], '\U{0c}', line);
    UnbrokenPiece("+x");
    ThreePieces(OPEN + ONE_MORE, [' '] + ['\U{0c}'] + line, "+x");
    assert [OPEN + ONE_MORE] + [[' '], line] + ["+x"] == [OPEN + ONE_MORE, [' '], line, "+x"];
  }

  /** Such a patch changes one file, but the scan reports the other one too. */
  lemma FormFeedAddsPaths(split: Splitter, index: string, path: string, other: string)
    requires Lawful(split) && Neutral(index) && Plain(path) && Plain(other) && path != other
    ensures Extract(split, Render([HidesHeader(index, path, other)])) == Some({A + path, B + path, A + other, B + other})
    ensures AllHeaderPaths([HidesHeader(index, path, other)]) == {A + path, B + path}
  {
    var file, read := HidesHeader(index, path, other), ReadBy(split);
    var headers := {A + path, B + path};
    assert WellPrinted(file);
    ExtractReadsBodies(split, [file]);
    OneHunk(read, file);
    HiddenReads(split, index, path, other);
    assert [file][1..] == [];
    assert AllHeaderPaths([file]) == headers + {} + {} == headers;
    assert headers + {A + other, B + other} == {A + path, B + path, A + other, B + other};
  }

  lemma OneHunk(read: Reader, file: FileDiff)
    requires |file.hunks| == 1
    ensures BodyPaths(read, [file]) == HunkReads(read, file.hunks[0])
  {
    var found := HunkReads(read, file.hunks[0]);
    assert [file][1..] == [] && file.hunks[1..] == [];
    assert HunksRead(read, file.hunks) == Both(found, Some({}));
    assert BodyPaths(read, [file]) == Both(HunksRead(read, file.hunks), Some({}));
    if found.Some? { assert found.value + {} == found.value; }
  }

  /** A hunk's opening, a line of no effect, a file's first header line, and another line of no effect. */
  lemma ScanFour(read: Reader, lines: seq<string>, found: set<string>)
    requires |lines| == 4 && read(lines[0]) == Enter && read(lines[1]) == Name({}) && read(lines[2]) == Git(found)
    requires read(lines[3]) == Name({})
    ensures Paths(Scanned(read, lines, Scan({}, true))) == Some(found)
  {
    assert found + {} == found && {} + found == found;
    assert Scanned(read, lines[3..], Scan(found, false)) == Some(Scan(found, false));
    assert Scanned(read, lines[2..], Scan({}, true)) == Some(Scan(found, false));
    assert Scanned(read, lines[1..], Scan({}, true)) == Some(Scan(found, false));
  }

  lemma PlainLineReads(split: Splitter, line: string)
    requires line == [' '] || line == "+x"
    ensures LineEffect(split, line) == Name({})
  {
    FirstLetters();
    assert |NEW| == 4;
  }

  lemma HiddenReads(split: Splitter, index: string, path: string, other: string)
    requires Lawful(split) && Plain(other)
    ensures HunkReads(ReadBy(split), HidesHeader(index, path, other).hunks[0]) == Some({A + other, B + other})
  {
    HiddenPieces(index, path, other);
    OpensHunk(split, OPEN + ONE_MORE);
    PlainLineReads(split, [' ']);
    PlainLineReads(split, "+x");
    HeaderLineReads(split, other);
    ScanFour(ReadBy(split), [OPEN + ONE_MORE, [' '], GitHeader(other, other), "+x"], {A + other, B + other});
  }

  lemma HeaderLineReads(split: Splitter, other: string)
    requires Lawful(split) && Plain(other)
    ensures LineEffect(split, GitHeader(other, other)) == Git({A + other, B + other})
  {
    assert SplitsGitHeader(split, other, other);
  }

  // The law is consistent: splitting at blanks obeys it

  function FirstBlank(text: string): (n: nat)
    ensures n <= |text|
    ensures n < |text| ==> text[n] == ' '
    ensures forall i | 0 <= i < n :: text[i] != ' '
  {
    if text == "" || text[0] == ' ' then 0 else 1 + FirstBlank(text[1..])
  }

  function Words(text: string): seq<string>
    decreases |text|
  {
    var n := FirstBlank(text);
    if n == |text| then [text] else [text[..n]] + Words(text[n + 1..])
  }

  lemma WordThen(word: string, rest: string)
    requires ' ' !in word
    ensures Words(word + SPACE + rest) == [word] + Words(rest)
  {
    var text := word + SPACE + rest;
    assert text[|word|] == ' ' && forall i | 0 <= i < |word| :: text[i] == word[i];
    assert FirstBlank(text) == |word|;
    assert text[..|word|] == word && text[|word| + 1..] == rest;
  }

  lemma TwoWords(c: string, d: string)
    requires ' ' !in c && ' ' !in d
    ensures Words(c + SPACE + d) == [c, d]
  {
    WordThen(c, d);
    assert [c] + [d] == [c, d];
  }

  lemma ThreeWords(b: string, c: string, d: string)
    requires ' ' !in b && ' ' !in c && ' ' !in d
    ensures Words(b + SPACE + (c + SPACE + d)) == [b, c, d]
  {
    WordThen(b, c + SPACE + d);
    TwoWords(c, d);
    assert [b] + [c, d] == [b, c, d];
  }

  lemma FourTogether(a: string, b: string, c: string, d: string, s: string)
    ensures a + s + b + s + c + s + d == a + s + (b + s + (c + s + d))
  {
    var x := a + s + b + s;
  }

  lemma FourWords(a: string, b: string, c: string, d: string)
    requires ' ' !in a && ' ' !in b && ' ' !in c && ' ' !in d
    ensures Words(a + SPACE + b + SPACE + c + SPACE + d) == [a, b, c, d]
  {
    FourTogether(a, b, c, d, SPACE);
    ThreeWords(b, c, d);
    var rest := b + SPACE + (c + SPACE + d);
    WordBefore(a, rest, [b, c, d]);
    FirstOfFour(a, b, c, d);
  }

  lemma FirstOfFour(a: string, b: string, c: string, d: string)
    ensures [a] + [b, c, d] == [a, b, c, d]
  {
  }

  lemma WordBefore(word: string, rest: string, words: seq<string>)
    requires ' ' !in word && Words(rest) == words
    ensures Words(word + SPACE + rest) == [word] + words
  {
    WordThen(word, rest);
  }

  lemma GitWords()
    ensures GIT == DIFF_WORD + SPACE + GIT_WORD + SPACE && ' ' !in DIFF_WORD && ' ' !in GIT_WORD
  {
  }

  lemma HeaderWords(oldPath: string, newPath: string)
    requires Plain(oldPath) && Plain(newPath)
    ensures Words(GitHeader(oldPath, newPath)) == [DIFF_WORD, GIT_WORD, A + oldPath, B + newPath]
  {
    PlainConstants();
    GitWords();
    FourWords(DIFF_WORD, GIT_WORD, A + oldPath, B + newPath);
  }

  /** A splitter that obeys the law. */
  lemma BlanksAreLawful()
    ensures Lawful(text => Some(Words(text)))
  {
    var split: Splitter := text => Some(Words(text));
    forall oldPath, newPath | Plain(oldPath) && Plain(newPath) ensures SplitsGitHeader(split, oldPath, newPath) {
      HeaderWords(oldPath, newPath);
    }
    forall word | Plain(word) ensures SplitsWord(split, word) {
    }
  }
}
