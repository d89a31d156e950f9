/**
 The patches the backend prints itself: the text `_new_file_patch` makes of each untracked file
 (backend/app/patches/service.py:124-141, 374-402), and what git does with that text.
 */
module PrintedPatches {
  import opened Wrappers
  import opened DiffText
  import opened PatchPaths
  import Protocol
  import PatchWorkspace
  import PyText

  const NEW_MODE := "new file mode 100644"
  const NO_INDEX := "index 0000000..0000000"
  const SIDES := "-0,0 +1"
  const CLOSING := " @@"

  /** The heading `difflib.unified_diff` gives a file of `n` lines that was not there before. */
  function Heading(n: nat): string {
    SIDES + (if n == 1 then "" else "," + PyText.Decimal(n)) + CLOSING
  }

  function AddedBody(lines: seq<string>): seq<BodyLine> {
    seq(|lines|, i requires 0 <= i < |lines| => BodyLine(Added, lines[i]))
  }

  /** A file to create: its path and its lines. */
  datatype Entry = Entry(path: string, lines: seq<string>)

  function NewFile(entry: Entry): FileDiff {
    FileDiff(entry.path, entry.path, Stays, [NEW_MODE, NO_INDEX], true, false,
             if entry.lines == [] then [] else [Hunk(Heading(|entry.lines|), AddedBody(entry.lines))])
  }

  function NewFiles(entries: seq<Entry>): seq<FileDiff> {
    if entries == [] then [] else [NewFile(entries[0])] + NewFiles(entries[1..])
  }

  type Tree = PatchWorkspace.Tree

  /** The untracked files of a workspace, of those that may be there, as `str.splitlines` sees them. */
  function Untracked(names: seq<string>, w: Tree): seq<Entry> {
    if names == [] then []
    else (if names[0] in w then [Entry(names[0], SplitLines(w[names[0]]))] else []) + Untracked(names[1..], w)
  }

  /** The diff of a workspace with no other changes than these files. */
  function Diff(names: seq<string>, w: Tree): string {
    Render(NewFiles(Untracked(names, w)))
  }

  // ------------------------------------------------------------ reading it back

  /** The path in a first header line, which holds it twice. */
  function PathIn(line: string): string {
    if |line| < 16 then "" else line[13..13 + (|line| - 16) / 2]
  }

  /** How many lines at the start of the text are added ones. */
  function AddedCount(lines: seq<string>): (n: nat)
    ensures n <= |lines|
  {
    if lines == [] || !("+" <= lines[0]) then 0 else 1 + AddedCount(lines[1..])
  }

  function Unmarked(lines: seq<string>): seq<string> {
    seq(|lines|, i requires 0 <= i < |lines| => if lines[i] == "" then "" else lines[i][1..])
  }

  /** The files that lines create: three header lines each, and three more before its added lines, if it has any. */
  function ReadFiles(lines: seq<string>): seq<Entry>
    decreases |lines|
  {
    if |lines| < 3 then []
    else if |lines| < 6 || GIT <= lines[3] then [Entry(PathIn(lines[0]), [])] + ReadFiles(lines[3..])
    else
      var n := AddedCount(lines[6..]);
      [Entry(PathIn(lines[0]), Unmarked(lines[6..6 + n]))] + ReadFiles(lines[6 + n..])
  }

  /** What a text of this form creates; `None` for any other text. */
  function Meant(text: string): Option<seq<Entry>> {
    var entries := ReadFiles(SplitLines(text));
    if entries != [] && text == Render(NewFiles(entries)) then Some(entries) else None
  }

  function PathsOf(entries: seq<Entry>): set<string> {
    set i | 0 <= i < |entries| :: entries[i].path
  }

  /** The files as git writes them: each added line and a newline, for the text has no marker that says otherwise. */
  function Written(entries: seq<Entry>): Tree {
    if entries == [] then map[] else Written(entries[1..])[entries[0].path := Text(entries[0].lines)]
  }

  predicate HoldsFile(w: Tree, entry: Entry) {
    entry.path in w && w[entry.path] == Text(entry.lines)
  }

  predicate HoldsAll(w: Tree, entries: seq<Entry>) {
    forall i | 0 <= i < |entries| :: HoldsFile(w, entries[i])
  }

  /** Git creates files only where there are none, and all of them or none. */
  function Forward(text: string, w: Tree): Option<Tree> {
    match Meant(text)
    case None => None
    case Some(entries) => if PathsOf(entries) !! w.Keys then Some(w + Written(entries)) else None
  }

  /** Git removes created files only where they hold exactly what it would have written, and all of them or none. */
  function Reverse(text: string, w: Tree): Option<Tree> {
    match Meant(text)
    case None => None
    case Some(entries) => if HoldsAll(w, entries) then Some(w - PathsOf(entries)) else None
  }

  function TextPaths(text: string): set<string> {
    match Meant(text)
    case None => {}
    case Some(entries) => PathsOf(entries)
  }

  /** Git on a workspace in which only untracked files of these names can change. */
  function NewFilesOnly(names: seq<string>, cfg: Protocol.Config): PatchWorkspace.Env {
    PatchWorkspace.Env(
      w => Diff(names, w),
      w => set i | 0 <= i < |names| && names[i] in w :: names[i],
      w => true,
      (t, w) => Forward(t, w),
      (t, w) => Reverse(t, w),
      t => true, t => TextPaths(t), (t, files) => true, true, cfg)
  }

  /** Plain names, none of them twice. */
  predicate Distinct(names: seq<string>) {
    (forall i | 0 <= i < |names| :: Plain(names[i])) && forall i, j | 0 <= i < j < |names| :: names[i] != names[j]
  }

  // ---------------------------------------------------------- newline-ended text

  predicate AllUnbroken(lines: seq<string>) {
    forall i | 0 <= i < |lines| :: Unbroken(lines[i])
  }

  predicate NewlineAt(content: string, i: nat)
    requires i < |content|
  {
    IsBreak(content[i]) ==> content[i] == '\n'
  }

  predicate OnlyNewlines(content: string) {
    forall i | 0 <= i < |content| :: NewlineAt(content, i)
  }

  /** Every line ends in a newline, and no other separator occurs. */
  predicate NewlineEnded(content: string) {
    EndsInNewline(content) && OnlyNewlines(content)
  }

  predicate EndsInNewline(content: string) {
    content == "" || content[|content| - 1] == '\n'
  }

  lemma {:induction false} SplitIsUnbroken(text: string)
    ensures AllUnbroken(SplitLines(text))
    decreases |text|
  {
    if text != "" { SplitIsUnbroken(AfterFirst(text)); }
  }

  lemma NewlineAfter(content: string, n: nat, i: nat)
    requires n < i < |content|
    ensures NewlineAt(content, i) <==> NewlineAt(content[n + 1..], i - n - 1)
  {
    assert content[n + 1..][i - n - 1] == content[i];
  }

  lemma NewlineUpTo(content: string, n: nat, i: nat)
    requires n < |content| && n == LineEnd(content) && content[n] == '\n' && i <= n
    ensures NewlineAt(content, i)
  {
  }

  lemma OnlyNewlinesBelow(content: string, n: nat)
    requires n < |content| && OnlyNewlines(content)
    ensures OnlyNewlines(content[n + 1..])
  {
    var rest := content[n + 1..];
    forall i: nat | i < |rest| ensures NewlineAt(rest, i) { NewlineAfter(content, n, n + 1 + i); }
  }

  lemma OnlyNewlinesAbove(content: string, n: nat)
    requires n < |content| && n == LineEnd(content) && content[n] == '\n' && OnlyNewlines(content[n + 1..])
    ensures OnlyNewlines(content)
  {
    forall i: nat | i < |content| ensures NewlineAt(content, i) {
      if i > n { NewlineAfter(content, n, i); } else { NewlineUpTo(content, n, i); }
    }
  }

  lemma EndedTail(content: string, n: nat)
    requires n < |content| && n == LineEnd(content) && content[n] == '\n'
    ensures AfterFirst(content) == content[n + 1..]
    ensures NewlineEnded(content) <==> NewlineEnded(AfterFirst(content))
  {
    LastOfTail(content, n);
    OnlyNewlinesIff(content, n);
  }

  lemma OnlyNewlinesIff(content: string, n: nat)
    requires n < |content| && n == LineEnd(content) && content[n] == '\n'
    ensures OnlyNewlines(content) <==> OnlyNewlines(content[n + 1..])
  {
    if OnlyNewlines(content) { OnlyNewlinesBelow(content, n); }
    if OnlyNewlines(content[n + 1..]) { OnlyNewlinesAbove(content, n); }
  }

  lemma LastOfTail(content: string, n: nat)
    requires n < |content| && content[n] == '\n'
    ensures EndsInNewline(content) <==> EndsInNewline(content[n + 1..])
  {
  }

  lemma SplitAtNewline(content: string, n: nat)
    requires n < |content| && content[n] == '\n'
    ensures content == content[..n] + NEWLINE + content[n + 1..]
  {
  }

  lemma JoinedAt(first: string, back: string)
    ensures (first + NEWLINE + back)[|first|] == '\n' && (first + NEWLINE + back)[|first| + 1..] == back
  {
  }

  /** Splitting a text and writing its lines back gives the text exactly when it is newline-ended. */
  lemma {:induction false} TextOfSplitIff(content: string)
    ensures Text(SplitLines(content)) == content <==> NewlineEnded(content)
    decreases |content|
  {
    if content != "" {
      var n, back := LineEnd(content), Text(SplitLines(AfterFirst(content)));
      TextOfFirst(content);
      JoinedAt(FirstLine(content), back);
      if n < |content| && content[n] == '\n' {
        EndedTail(content, n);
        TextOfSplitIff(AfterFirst(content));
        SplitAtNewline(content, n);
      } else if n < |content| {
        assert !NewlineAt(content, n);
      }
    }
  }

  lemma TextOfFirst(content: string)
    requires content != ""
    ensures Text(SplitLines(content)) == FirstLine(content) + NEWLINE + Text(SplitLines(AfterFirst(content)))
  {
    var rest := SplitLines(AfterFirst(content));
    assert ([FirstLine(content)] + rest)[1..] == rest;
  }

  /** Splitting what was written from unbroken lines gives the lines. */
  lemma SplitOfText(lines: seq<string>)
    requires AllUnbroken(lines)
    ensures SplitLines(Text(lines)) == lines
  {
    SplitText(lines);
    UnbrokenPieces(lines);
  }

  // -------------------------------------------------------- the printed lines

  lemma {:induction false} DecimalIsUnbroken(n: nat)
    ensures Unbroken(PyText.Decimal(n))
  {
    if n >= 10 { DecimalIsUnbroken(n / 10); }
  }

  lemma NewFileConstants()
    ensures Neutral(NEW_MODE) && Neutral(NO_INDEX) && Unbroken(SIDES) && Unbroken(CLOSING)
  {
    var a, b, c, d := NEW_MODE, NO_INDEX, SIDES, CLOSING;
    assert forall i | 0 <= i < |a| :: !IsBreak(a[i]);
    assert forall i | 0 <= i < |b| :: !IsBreak(b[i]);
    assert forall i | 0 <= i < |c| :: !IsBreak(c[i]);
    assert forall i | 0 <= i < |d| :: !IsBreak(d[i]);
    assert a[0] == 'n' && b[0] == 'i';
    FirstLetters();
  }

  lemma HeadingIsUnbroken(n: nat)
    ensures Unbroken(Heading(n))
  {
    NewFileConstants();
    DecimalIsUnbroken(n);
    var count := if n == 1 then "" else "," + PyText.Decimal(n);
    UnbrokenConcat(",", PyText.Decimal(n));
    UnbrokenConcat(SIDES, count);
    UnbrokenConcat(SIDES + count, CLOSING);
  }

  predicate Clear(entry: Entry) {
    Plain(entry.path) && AllUnbroken(entry.lines)
  }

  predicate AllClear(entries: seq<Entry>) {
    forall i | 0 <= i < |entries| :: Clear(entries[i])
  }

  function LinesOf(file: FileDiff): seq<string> {
    HeaderLines(file) + AllHunkLines(file.hunks)
  }

  lemma {:induction false} UntrackedIsClear(names: seq<string>, w: Tree)
    requires Distinct(names)
    ensures AllClear(Untracked(names, w))
  {
    if names != [] {
      UntrackedIsClear(names[1..], w);
      if names[0] in w { SplitIsUnbroken(w[names[0]]); }
    }
  }

  lemma NewFileIsPrintable(entry: Entry)
    requires Clear(entry)
    ensures WellPrinted(NewFile(entry))
    ensures entry.lines != [] ==> UnbrokenHunk(NewFile(entry).hunks[0])
  {
    NewFileConstants();
    HeadingIsUnbroken(|entry.lines|);
  }

  lemma OneHunkLines(hunks: seq<Hunk>)
    requires |hunks| == 1
    ensures AllHunkLines(hunks) == HunkLines(hunks[0])
  {
    assert hunks[1..] == [];
    LinesEnd(HunkLines(hunks[0]));
  }

  /** The scanners see the printed text of a new file line by line. */
  lemma NewFileSplits(entry: Entry)
    requires Clear(entry)
    ensures AllPieces(LinesOf(NewFile(entry))) == LinesOf(NewFile(entry))
  {
    var file := NewFile(entry);
    NewFileIsPrintable(entry);
    HeadersUnbroken(file);
    UnbrokenPieces(HeaderLines(file));
    if entry.lines != [] {
      OneHunkLines(file.hunks);
      UnbrokenHunkLines(file.hunks[0]);
    }
    PiecesOfConcat(HeaderLines(file), AllHunkLines(file.hunks));
  }

  lemma {:induction false} NewFilesSplit(entries: seq<Entry>)
    requires AllClear(entries)
    ensures AllPieces(PatchLines(NewFiles(entries))) == PatchLines(NewFiles(entries))
  {
    if entries != [] {
      NewFileSplits(entries[0]);
      NewFilesSplit(entries[1..]);
      NewFilesLines(entries);
      PiecesOfConcat(LinesOf(NewFile(entries[0])), PatchLines(NewFiles(entries[1..])));
    }
  }

  lemma NewFilesLines(entries: seq<Entry>)
    requires entries != []
    ensures PatchLines(NewFiles(entries)) == LinesOf(NewFile(entries[0])) + PatchLines(NewFiles(entries[1..]))
  {
    assert NewFiles(entries)[0] == NewFile(entries[0]) && NewFiles(entries)[1..] == NewFiles(entries[1..]);
  }

  /** A file's lines: three headers, and three more before its added lines, if it has any. */
  lemma NewFileShape(entry: Entry)
    ensures var lines := LinesOf(NewFile(entry));
            && |lines| == (if entry.lines == [] then 3 else 6 + |entry.lines|)
            && lines[0] == GitHeader(entry.path, entry.path)
            && (entry.lines != [] ==> OLD <= lines[3] && lines[6..] == BodyLines(AddedBody(entry.lines)))
  {
    var file := NewFile(entry);
    if entry.lines != [] {
      OneHunkLines(file.hunks);
      assert |HeaderLines(file)| == 5;
      assert HeaderLines(file)[3] == OLD + NULL_PATH;
    }
  }

  lemma PathInHeader(path: string)
    ensures PathIn(GitHeader(path, path)) == path
  {
    var line := GitHeader(path, path);
    assert |GIT| == 11 && |line| == 16 + 2 * |path|;
    assert line == (GIT + A) + path + (SPACE + (B + path));
    assert |GIT + A| == 13;
  }

  /** After a file's lines come no more added lines. */
  lemma NextIsHeader(entries: seq<Entry>)
    ensures var lines := PatchLines(NewFiles(entries)); lines == [] || GIT <= lines[0]
  {
    if entries != [] {
      NewFilesLines(entries);
      NewFileShape(entries[0]);
      PrefixedByGit(entries[0].path);
    }
  }

  lemma PrefixedByGit(path: string)
    ensures GIT <= GitHeader(path, path)
  {
    assert GitHeader(path, path) == GIT + ((A + path) + SPACE + (B + path));
  }

  lemma {:induction false} CountAdded(lines: seq<string>, rest: seq<string>)
    requires rest == [] || GIT <= rest[0]
    ensures AddedCount(BodyLines(AddedBody(lines)) + rest) == |lines|
    ensures Unmarked(BodyLines(AddedBody(lines))) == lines
    decreases |lines|
  {
    var body := BodyLines(AddedBody(lines));
    if lines == [] {
      FirstLetters();
      assert body + rest == rest;
      assert rest != [] ==> rest[0][0] == 'd';
    } else {
      CountAdded(lines[1..], rest);
      assert body[0] == "+" + lines[0];
      assert (body + rest)[1..] == BodyLines(AddedBody(lines[1..])) + rest;
    }
  }

  lemma ReadFirst(entry: Entry, rest: seq<string>)
    requires rest == [] || GIT <= rest[0]
    ensures ReadFiles(LinesOf(NewFile(entry)) + rest) == [entry] + ReadFiles(rest)
  {
    var lines := LinesOf(NewFile(entry));
    NewFileShape(entry);
    PathInHeader(entry.path);
    if entry.lines == [] {
      ReadEmptyFile(entry.path, lines, rest);
    } else {
      CountAdded(entry.lines, rest);
      ReadFileLines(entry, lines, rest);
    }
  }

  lemma ReadEmptyFile(path: string, lines: seq<string>, rest: seq<string>)
    requires |lines| == 3 && PathIn(lines[0]) == path && (rest == [] || GIT <= rest[0])
    ensures ReadFiles(lines + rest) == [Entry(path, [])] + ReadFiles(rest)
  {
    assert (lines + rest)[3..] == rest;
  }

  lemma ReadFileLines(entry: Entry, lines: seq<string>, rest: seq<string>)
    requires |lines| == 6 + |entry.lines| && PathIn(lines[0]) == entry.path && OLD <= lines[3]
    requires AddedCount(lines[6..] + rest) == |entry.lines| && Unmarked(lines[6..]) == entry.lines
    ensures ReadFiles(lines + rest) == [entry] + ReadFiles(rest)
  {
    var all, n := lines + rest, |entry.lines|;
    FirstLetters();
    assert lines[3][0] == '-';
    assert all[6..] == lines[6..] + rest && all[6..6 + n] == lines[6..] && all[6 + n..] == rest;
  }

  lemma {:induction false} ReadBackLines(entries: seq<Entry>)
    ensures ReadFiles(PatchLines(NewFiles(entries))) == entries
  {
    if entries != [] {
      ReadBackLines(entries[1..]);
      NewFilesLines(entries);
      NextIsHeader(entries[1..]);
      ReadFirst(entries[0], PatchLines(NewFiles(entries[1..])));
    }
  }

  /** The files can be read back off the printed text. */
  lemma ReadBack(entries: seq<Entry>)
    requires AllClear(entries)
    ensures ReadFiles(SplitLines(Render(NewFiles(entries)))) == entries
    ensures Meant(Render(NewFiles(entries))) == if entries == [] then None else Some(entries)
  {
    NewFilesSplit(entries);
    SplitText(PatchLines(NewFiles(entries)));
    ReadBackLines(entries);
  }

  // --------------------------------------------------------- files and entries

  lemma {:induction false} EntryOf(names: seq<string>, w: Tree)
    ensures forall i | 0 <= i < |Untracked(names, w)| ::
              var entry := Untracked(names, w)[i];
              entry.path in names && entry.path in w && entry.lines == SplitLines(w[entry.path])
    ensures forall n | n in names && n in w :: Entry(n, SplitLines(w[n])) in Untracked(names, w)
  {
    if names != [] { EntryOf(names[1..], w); }
  }

  lemma PathsOfUntracked(names: seq<string>, w: Tree)
    ensures forall n :: n in PathsOf(Untracked(names, w)) <==> n in names && n in w
    ensures Untracked(names, w) == [] <==> forall n | n in names :: n !in w
  {
    var entries := Untracked(names, w);
    EntryOf(names, w);
    forall n | n in names && n in w ensures n in PathsOf(entries) {
      var i :| 0 <= i < |entries| && entries[i] == Entry(n, SplitLines(w[n]));
      assert entries[i].path in PathsOf(entries);
    }
    if entries != [] { assert entries[0].path in names && entries[0].path in w; }
  }

  /** The workspaces' untracked files print alike exactly when the same ones are there with the same lines. */
  lemma {:induction false} SameUntracked(names: seq<string>, v: Tree, w: Tree)
    requires forall n | n in names :: (n in v <==> n in w) && (n in v ==> SplitLines(v[n]) == SplitLines(w[n]))
    ensures Untracked(names, v) == Untracked(names, w)
  {
    if names != [] {
      assert forall n | n in names[1..] :: n in names;
      SameUntracked(names[1..], v, w);
    }
  }

  lemma {:induction false} WrittenAt(names: seq<string>, v: Tree)
    requires Distinct(names)
    ensures var written := Written(Untracked(names, v));
            forall n :: (n in written <==> n in names && n in v) && (n in written ==> written[n] == Text(SplitLines(v[n])))
  {
    if names != [] {
      assert Distinct(names[1..]);
      WrittenAt(names[1..], v);
      assert forall n | n in names[1..] :: n != names[0];
      var entries, rest := Untracked(names, v), Untracked(names[1..], v);
      if names[0] in v { assert entries[1..] == rest; } else { assert entries == rest; }
      assert forall n | n in names :: n == names[0] || n in names[1..];
    }
  }

  // ------------------------------------------------------ undoing and redoing

  /** Every untracked file that is there ends each line in a newline and has no other separator. */
  predicate AllEnded(names: seq<string>, w: Tree) {
    forall i | 0 <= i < |names| && names[i] in w :: NewlineEnded(w[names[i]])
  }

  lemma DiffIsMeant(names: seq<string>, w: Tree)
    requires Distinct(names)
    ensures Diff(names, w) == "" <==> Untracked(names, w) == []
    ensures Diff(names, w) != "" ==> Meant(Diff(names, w)) == Some(Untracked(names, w)) && !PyText.Blank(Diff(names, w))
  {
    var entries := Untracked(names, w);
    UntrackedIsClear(names, w);
    ReadBack(entries);
    if entries != [] { StartsVisibly(entries); }
  }

  lemma StartsVisibly(entries: seq<Entry>)
    requires entries != []
    ensures Render(NewFiles(entries)) != "" && !PyText.Blank(Render(NewFiles(entries)))
  {
    NewFilesLines(entries);
    NewFileShape(entries[0]);
    PrefixedByGit(entries[0].path);
    FirstLetters();
    var lines := PatchLines(NewFiles(entries));
    assert Render(NewFiles(entries))[0] == lines[0][0] == 'd';
  }

  lemma HoldsAllIff(names: seq<string>, w: Tree)
    ensures HoldsAll(w, Untracked(names, w)) <==> AllEnded(names, w)
  {
    var entries := Untracked(names, w);
    EntryOf(names, w);
    forall n | n in names && n in w ensures HoldsFile(w, Entry(n, SplitLines(w[n]))) <==> NewlineEnded(w[n]) {
      TextOfSplitIff(w[n]);
    }
    if HoldsAll(w, entries) {
      forall i | 0 <= i < |names| && names[i] in w ensures NewlineEnded(w[names[i]]) {
        var k :| 0 <= k < |entries| && entries[k] == Entry(names[i], SplitLines(w[names[i]]));
        assert HoldsFile(w, entries[k]);
      }
    }
    if AllEnded(names, w) {
      forall k | 0 <= k < |entries| ensures HoldsFile(w, entries[k]) {
        var i :| 0 <= i < |names| && names[i] == entries[k].path;
        assert NewlineEnded(w[names[i]]);
      }
    }
  }

  lemma AsGit(names: seq<string>, cfg: Protocol.Config, text: string, w: Tree)
    ensures var env := NewFilesOnly(names, cfg);
            && env.diff(w) == Diff(names, w) && PatchWorkspace.CurrentDiff(env, w) == Ok(Diff(names, w))
            && env.forward(text, w) == Forward(text, w) && env.reverse(text, w) == Reverse(text, w)
  {
  }

  function Without(names: seq<string>, w: Tree): Tree {
    w - set i | 0 <= i < |names| :: names[i]
  }

  lemma WithoutIsClean(names: seq<string>, w: Tree)
    requires Distinct(names)
    ensures Diff(names, Without(names, w)) == ""
    ensures Diff(names, w) == "" ==> Without(names, w) == w
  {
    DiffIsMeant(names, w);
    PathsOfUntracked(names, w);
    DiffIsMeant(names, Without(names, w));
    PathsOfUntracked(names, Without(names, w));
  }

  lemma ReverseOfDiff(names: seq<string>, w: Tree)
    requires Distinct(names) && Diff(names, w) != ""
    ensures Reverse(Diff(names, w), w) == if AllEnded(names, w) then Some(Without(names, w)) else None
  {
    DiffIsMeant(names, w);
    HoldsAllIff(names, w);
    PathsOfUntracked(names, w);
    assert w - PathsOf(Untracked(names, w)) == Without(names, w);
  }

  lemma NothingIsEnded(names: seq<string>, w: Tree)
    requires Distinct(names) && Diff(names, w) == ""
    ensures AllEnded(names, w)
  {
    DiffIsMeant(names, w);
    PathsOfUntracked(names, w);
  }

  /** Git undoes the printed diff exactly when every untracked file ends each line in a newline and has no other separator. */
  lemma NewFilesUndoneIff(names: seq<string>, cfg: Protocol.Config, w: Tree)
    requires Distinct(names)
    ensures PatchWorkspace.Undoable(NewFilesOnly(names, cfg), w) <==> AllEnded(names, w)
  {
    AsGit(names, cfg, Diff(names, w), w);
    if Diff(names, w) == "" { NothingIsEnded(names, w); } else { ReverseOfDiff(names, w); }
  }

  /** Undoing leaves none of the files, and nothing else is touched. */
  lemma UndoneIsClean(names: seq<string>, cfg: Protocol.Config, w: Tree)
    requires Distinct(names) && PatchWorkspace.Undoable(NewFilesOnly(names, cfg), w)
    ensures PatchWorkspace.Reset(NewFilesOnly(names, cfg), w) == Without(names, w) && Diff(names, Without(names, w)) == ""
  {
    AsGit(names, cfg, Diff(names, w), w);
    WithoutIsClean(names, w);
    if Diff(names, w) != "" { ReverseOfDiff(names, w); }
  }

  /** Git redoes the printed diff of any workspace where none of the files is there, prints it again, and undoes it there. */
  lemma NewFilesReapply(names: seq<string>, cfg: Protocol.Config, v: Tree, clean: Tree)
    requires Distinct(names) && Diff(names, v) != "" && Diff(names, clean) == ""
    ensures var env, text := NewFilesOnly(names, cfg), Diff(names, v);
            && PatchWorkspace.Reapplies(env, text, clean)
            && env.forward(text, clean) == Some(clean + Written(Untracked(names, v)))
            && env.reverse(text, clean + Written(Untracked(names, v))).Some?
  {
    var next := clean + Written(Untracked(names, v));
    AsGit(names, cfg, Diff(names, v), clean);
    AsGit(names, cfg, Diff(names, v), next);
    ForwardOfDiff(names, v, clean);
    if Diff(names, next) != "" { ReverseOfDiff(names, next); }
  }

  lemma ForwardOfDiff(names: seq<string>, v: Tree, clean: Tree)
    requires Distinct(names) && Diff(names, v) != "" && Diff(names, clean) == ""
    ensures var next := clean + Written(Untracked(names, v));
            Forward(Diff(names, v), clean) == Some(next) && Diff(names, next) == Diff(names, v) && AllEnded(names, next)
  {
    DiffIsMeant(names, v);
    DiffIsMeant(names, clean);
    PathsOfUntracked(names, v);
    PathsOfUntracked(names, clean);
    WrittenPrintsAlike(names, v, clean);
    WrittenIsEnded(names, v, clean);
  }

  lemma WrittenPrintsAlike(names: seq<string>, v: Tree, clean: Tree)
    requires Distinct(names) && forall n | n in names :: n !in clean
    ensures Untracked(names, clean + Written(Untracked(names, v))) == Untracked(names, v)
  {
    WrittenAt(names, v);
    forall n | n in names && n in v ensures SplitLines(Text(SplitLines(v[n]))) == SplitLines(v[n]) {
      SplitIsUnbroken(v[n]);
      SplitOfText(SplitLines(v[n]));
    }
    SameUntracked(names, clean + Written(Untracked(names, v)), v);
  }

  lemma WrittenIsEnded(names: seq<string>, v: Tree, clean: Tree)
    requires Distinct(names) && forall n | n in names :: n !in clean
    ensures AllEnded(names, clean + Written(Untracked(names, v)))
  {
    WrittenAt(names, v);
    forall i | 0 <= i < |names| && names[i] in v ensures NewlineEnded(Text(SplitLines(v[names[i]]))) {
      SplitIsUnbroken(v[names[i]]);
      SplitOfText(SplitLines(v[names[i]]));
      TextOfSplitIff(Text(SplitLines(v[names[i]])));
    }
  }

  /** So what a restore writes are the files that were submitted exactly when they were newline-ended: the diff is the same either way. */
  lemma RestoredFilesIff(names: seq<string>, cfg: Protocol.Config, v: Tree)
    requires Distinct(names) && Diff(names, v) != ""
    ensures NewFilesOnly(names, cfg).forward(Diff(names, v), Without(names, v)) == Some(v) <==> AllEnded(names, v)
  {
    var next := Without(names, v) + Written(Untracked(names, v));
    WithoutIsClean(names, v);
    AsGit(names, cfg, Diff(names, v), Without(names, v));
    ForwardOfDiff(names, v, Without(names, v));
    if AllEnded(names, v) {
      WrittenAt(names, v);
      forall i | 0 <= i < |names| && names[i] in v ensures next[names[i]] == v[names[i]] {
        TextOfSplitIff(v[names[i]]);
      }
      SameTree(next, v, names);
    }
  }

  lemma SameTree(a: Tree, b: Tree, names: seq<string>)
    requires forall n :: n in a <==> n in b
    requires forall n | n in b && n !in names :: a[n] == b[n]
    requires forall i | 0 <= i < |names| && names[i] in b :: a[names[i]] == b[names[i]]
    ensures a == b
  {
    forall n | n in b ensures a[n] == b[n] {
      if n in names { var i :| 0 <= i < |names| && names[i] == n; }
    }
  }

  lemma NewFilesAreRegular(names: seq<string>, cfg: Protocol.Config, w: Tree, v: Tree)
    requires Distinct(names)
    ensures PatchWorkspace.Regular(NewFilesOnly(names, cfg), w, Diff(names, v))
  {
    DiffIsMeant(names, v);
    DiffIsMeant(names, w);
    AsGit(names, cfg, "", w);
    AsGit(names, cfg, "", Without(names, w));
    if PatchWorkspace.Undoable(NewFilesOnly(names, cfg), w) { UndoneIsClean(names, cfg, w); }
  }

  /**
   The files of one workspace can be restored in another exactly when that one already prints them,
   or its untracked files are all newline-ended and the gate accepts the ones to restore.
   */
  lemma NewFilesRestoreIff(names: seq<string>, cfg: Protocol.Config, log: seq<Protocol.Event>, w: Tree, v: Tree)
    requires Distinct(names)
    ensures var env, text := NewFilesOnly(names, cfg), Diff(names, v);
            PatchWorkspace.Restore(env, log, w, text).1.Ok? <==>
              || Diff(names, w) == text
              || (AllEnded(names, w) && (text == "" || PatchWorkspace.Accepts(env, log, text)))
  {
    var env, text := NewFilesOnly(names, cfg), Diff(names, v);
    NewFilesAreRegular(names, cfg, w, v);
    NewFilesUndoneIff(names, cfg, w);
    if PatchWorkspace.Undoable(env, w) {
      UndoneIsClean(names, cfg, w);
      if text != "" { NewFilesReapply(names, cfg, v, PatchWorkspace.Reset(env, w)); }
    }
    PatchWorkspace.RestoreNeedsUndoAndGate(env, log, w, text);
  }

  /** Three such files: without a final newline, with a carriage return, and with a form feed. */
  lemma UnendedFiles()
    ensures !NewlineEnded("x") && !NewlineEnded("x\r\n") && !NewlineEnded("x\U{0c}y\n")
    ensures NewlineEnded("y\n")
  {
    assert !NewlineAt("x\r\n", 1);
    assert !NewlineAt("x\U{0c}y\n", 1);
    assert "x"[0] == 'x';
    var ended := "y\n";
    assert forall i: nat | i < |ended| :: NewlineAt(ended, i);
  }

  /** A file that is not newline-ended cannot be undone, so the restore of another candidate raises and changes nothing. */
  lemma UnendedFileBlocksRestore(names: seq<string>, cfg: Protocol.Config, log: seq<Protocol.Event>, w: Tree, v: Tree)
    requires Distinct(names) && !AllEnded(names, w) && Diff(names, w) != Diff(names, v)
    ensures var env := NewFilesOnly(names, cfg);
            && PatchWorkspace.Recorded(env, Diff(names, v))
            && PatchWorkspace.Restore(env, log, w, Diff(names, v)) == (w, Err(Protocol.PatchApplyError))
  {
    var env := NewFilesOnly(names, cfg);
    AsGit(names, cfg, "", v);
    AsGit(names, cfg, "", w);
    NewFilesUndoneIff(names, cfg, w);
    NewFilesAreRegular(names, cfg, w, v);
    PatchWorkspace.UndoRefusedRestoreFails(env, log, w, Diff(names, v));
  }

  /** The written file is the one line `x` without a newline, the kept candidate the line `y`. */
  lemma MissingNewlineBlocksRestore(path: string, cfg: Protocol.Config, log: seq<Protocol.Event>)
    requires Plain(path)
    ensures var env, w, v := NewFilesOnly([path], cfg), map[path := "x"], map[path := "y\n"];
            PatchWorkspace.Restore(env, log, w, env.diff(v)) == (w, Err(Protocol.PatchApplyError))
  {
    var w, v := map[path := "x"], map[path := "y\n"];
    UnendedFiles();
    LinesOfXAndY();
    assert [path][0] == path && [path][1..] == [];
    assert Untracked([path], w)[0].lines != Untracked([path], v)[0].lines;
    DiffIsMeant([path], w);
    DiffIsMeant([path], v);
    assert !NewlineEnded(w[[path][0]]);
    UnendedFileBlocksRestore([path], cfg, log, w, v);
  }

  lemma LinesOfXAndY()
    ensures SplitLines("x") != SplitLines("y\n")
  {
    assert FirstLine("x")[0] == 'x';
    assert LineEnd("y\n") == 1;
    assert FirstLine("y\n")[0] == 'y';
    assert SplitLines("x")[0] == FirstLine("x") && SplitLines("y\n")[0] == FirstLine("y\n");
  }

  /** Where the files stand git refuses to create them again. */
  lemma NewFilesInPlace(names: seq<string>, cfg: Protocol.Config, w: Tree)
    requires Distinct(names) && Diff(names, w) != ""
    ensures var env, text := NewFilesOnly(names, cfg), Diff(names, w);
            && PatchWorkspace.CurrentDiff(env, w) == Ok(text) && !PyText.Blank(text)
            && env.forward(text, w).None? && (env.reverse(text, w).Some? <==> AllEnded(names, w))
  {
    AsGit(names, cfg, Diff(names, w), w);
    DiffIsMeant(names, w);
    ReverseOfDiff(names, w);
    PathsOfUntracked(names, w);
    var entries := Untracked(names, w);
    assert entries[0].path in PathsOf(entries);
  }

  /**
   `ensure_patch_applied` on the workspace that printed the patch, which every assessment of a
   submission calls, in the test phase or without one: it succeeds exactly when all its new files
   are newline-ended.
   */
  lemma AssessedInPlaceIff(names: seq<string>, cfg: Protocol.Config, log: seq<Protocol.Event>, w: Tree)
    requires Distinct(names) && Diff(names, w) != ""
    requires PatchWorkspace.Accepts(NewFilesOnly(names, cfg), log, Diff(names, w))
    ensures PatchWorkspace.EnsureApplied(NewFilesOnly(names, cfg), log, w, Diff(names, w)).1.Ok? <==> AllEnded(names, w)
  {
    NewFilesInPlace(names, cfg, w);
    PatchWorkspace.ApplyInPlaceIff(NewFilesOnly(names, cfg), log, w, Diff(names, w));
  }
}
