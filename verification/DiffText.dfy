/**
 Unified diffs as text: Python's `str.splitlines`, on which every diff scanner of the backend relies,
 and a structured patch with its printed form (POSIX `diff` utility, "Diff -u or -U Output Format",
 with the headers `git diff` adds).
 */
module DiffText {

  /** The characters `str.splitlines` ends a line at; a carriage return takes a following newline with it. */
  predicate IsBreak(c: char) {
    var n := c as int;
    0x0a <= n <= 0x0d || 0x1c <= n <= 0x1e || n == 0x85 || n == 0x2028 || n == 0x2029
  }

  function LineEnd(text: string): (n: nat)
    ensures n <= |text|
    ensures n < |text| ==> IsBreak(text[n])
    ensures forall i | 0 <= i < n :: !IsBreak(text[i])
  {
    if text == "" || IsBreak(text[0]) then 0 else 1 + LineEnd(text[1..])
  }

  function BreakLength(text: string, n: nat): (k: nat)
    requires n < |text|
    ensures 1 <= k && n + k <= |text|
  {
    if text[n] == '\r' && n + 1 < |text| && text[n + 1] == '\n' then 2 else 1
  }

  function FirstLine(text: string): string {
    text[..LineEnd(text)]
  }

  /** The text after the first line and its break. */
  function AfterFirst(text: string): (rest: string)
    ensures text != "" ==> |rest| < |text|
  {
    var n := LineEnd(text);
    if n == |text| then "" else text[n + BreakLength(text, n)..]
  }

  /** `str.splitlines`. */
  function SplitLines(text: string): seq<string>
    decreases |text|
  {
    if text == "" then [] else [FirstLine(text)] + SplitLines(AfterFirst(text))
  }

  const NEWLINE := "\n"

  lemma SameStart(head: string, b: string, n: nat)
    requires n == LineEnd(head) < |head|
    ensures LineEnd(head + b) == n
  {
    var text := head + b;
    assert text[n] == head[n];
    assert forall i | 0 <= i < n :: text[i] == head[i];
  }

  /** The first line of a text that ends in a newline does not depend on what is appended. */
  lemma FirstOfEnded(a: string, b: string)
    ensures FirstLine(a + NEWLINE + b) == FirstLine(a + NEWLINE)
    ensures AfterFirst(a + NEWLINE + b) == AfterFirst(a + NEWLINE) + b
  {
    var head := a + NEWLINE;
    assert head[|a|] == '\n';
    var n := LineEnd(head);
    assert n <= |a|;
    SameStart(head, b, n);
    SameBreak(a, b, n);
    Sliced(head, b, n, n + BreakLength(head, n));
    SplitOff(head, n);
    SplitOff(head + b, n);
  }

  lemma SplitOff(text: string, n: nat)
    requires n == LineEnd(text) < |text|
    ensures FirstLine(text) == text[..n] && AfterFirst(text) == text[n + BreakLength(text, n)..]
  {
  }

  lemma SameBreak(a: string, b: string, n: nat)
    requires n <= |a|
    ensures BreakLength(a + NEWLINE + b, n) == BreakLength(a + NEWLINE, n)
  {
    var head, text := a + NEWLINE, a + NEWLINE + b;
    assert text[n] == head[n] && (n < |a| ==> text[n + 1] == head[n + 1]);
    assert head[|a|] == '\n';
  }

  lemma Sliced(head: string, b: string, n: nat, k: nat)
    requires n <= k <= |head|
    ensures (head + b)[..n] == head[..n] && (head + b)[k..] == head[k..] + b
  {
  }

  /** What follows the first line of such a text is empty or ends in the same newline. */
  lemma RestOfEnded(a: string) returns (rest: string)
    ensures AfterFirst(a + NEWLINE) == "" || (AfterFirst(a + NEWLINE) == rest + NEWLINE && |rest| < |a|)
  {
    var head := a + NEWLINE;
    assert head[|a|] == '\n';
    var n := LineEnd(head);
    assert n <= |a|;
    var k := n + BreakLength(head, n);
    rest := if k <= |a| then a[k..] else "";
    if k <= |a| { assert head[k..] == a[k..] + NEWLINE; }
  }

  /** Text after a newline is split on its own. */
  lemma {:induction false} SplitAfterNewline(a: string, b: string)
    ensures SplitLines(a + NEWLINE + b) == SplitLines(a + NEWLINE) + SplitLines(b)
    decreases |a|
  {
    var head, first := a + NEWLINE, [FirstLine(a + NEWLINE)];
    FirstOfEnded(a, b);
    var rest := RestOfEnded(a);
    if AfterFirst(head) == "" {
      assert "" + b == b;
      LinesEnd(first);
    } else {
      SplitAfterNewline(rest, b);
      LinesAssociate(first, SplitLines(rest + NEWLINE), SplitLines(b));
    }
  }

  lemma LinesAssociate(a: seq<string>, b: seq<string>, c: seq<string>)
    ensures a + b + c == a + (b + c)
  {
  }

  lemma LinesEnd(a: seq<string>)
    ensures a + [] == a == [] + a
  {
  }

  predicate Unbroken(line: string) {
    forall i | 0 <= i < |line| :: !IsBreak(line[i])
  }

  /** What the scanners see of a printed line. */
  function Pieces(line: string): seq<string> {
    SplitLines(line + NEWLINE)
  }

  /** A line up to its first break. */
  lemma SplitAt(before: string, c: char, after: string)
    requires Unbroken(before) && IsBreak(c) && c != '\r'
    ensures SplitLines(before + [c] + after) == [before] + SplitLines(after)
  {
    var text := before + [c] + after;
    var n := |before|;
    assert text[n] == c && forall i | 0 <= i < n :: text[i] == before[i];
    assert LineEnd(text) == n;
    assert text[..n] == before && text[n + 1..] == after;
  }

  lemma UnbrokenPiece(line: string)
    requires Unbroken(line)
    ensures Pieces(line) == [line]
  {
    assert NEWLINE == ['\n'];
    assert line + NEWLINE == line + ['\n'] + "";
    SplitAt(line, '\n', "");
    LinesEnd([line]);
  }

  /** A line with one break inside is seen as two. */
  lemma BrokenPieces(before: string, c: char, after: string)
    requires Unbroken(before) && Unbroken(after) && IsBreak(c) && c != '\r'
    ensures Pieces(before + [c] + after) == [before, after]
  {
    assert before + [c] + after + NEWLINE == before + [c] + (after + NEWLINE);
    SplitAt(before, c, after + NEWLINE);
    UnbrokenPiece(after);
  }

  function Text(lines: seq<string>): string {
    if lines == [] then "" else lines[0] + NEWLINE + Text(lines[1..])
  }

  function AllPieces(lines: seq<string>): seq<string> {
    if lines == [] then [] else Pieces(lines[0]) + AllPieces(lines[1..])
  }

  /** Splitting a printed text splits each printed line. */
  lemma {:induction false} SplitText(lines: seq<string>)
    ensures SplitLines(Text(lines)) == AllPieces(lines)
  {
    if lines != [] {
      SplitAfterNewline(lines[0], Text(lines[1..]));
      SplitText(lines[1..]);
    }
  }

  lemma {:induction false} PiecesOfConcat(a: seq<string>, b: seq<string>)
    ensures AllPieces(a + b) == AllPieces(a) + AllPieces(b)
  {
    if a == [] {
      assert a + b == b;
    } else {
      assert (a + b)[1..] == a[1..] + b;
      PiecesOfConcat(a[1..], b);
      LinesAssociate(Pieces(a[0]), AllPieces(a[1..]), AllPieces(b));
    }
  }

  lemma {:induction false} UnbrokenPieces(lines: seq<string>)
    requires forall i | 0 <= i < |lines| :: Unbroken(lines[i])
    ensures AllPieces(lines) == lines
  {
    if lines != [] {
      UnbrokenPiece(lines[0]);
      UnbrokenPieces(lines[1..]);
      assert [lines[0]] + lines[1..] == lines;
    }
  }

  // Structured patches

  datatype Kind = Context | Added | Removed | NoNewline

  datatype BodyLine = BodyLine(kind: Kind, text: string)

  /** A hunk: what follows `@@ ` in its header (ranges and section heading), and its lines. */
  datatype Hunk = Hunk(heading: string, body: seq<BodyLine>)

  datatype Move = Stays | Renamed | Copied

  /** The changes of one file; the notes are the header lines that name no path (modes, index, similarity). */
  datatype FileDiff = FileDiff(oldPath: string, newPath: string, move: Move, notes: seq<string>,
                               created: bool, deleted: bool, hunks: seq<Hunk>)

  function Marker(kind: Kind): char {
    match kind
    case Context => ' '
    case Added => '+'
    case Removed => '-'
    case NoNewline => '\\'
  }

  function BodyText(line: BodyLine): string {
    [Marker(line.kind)] + line.text
  }

  const GIT := "diff --git "
  const OPEN := "@@ "
  const OLD := "--- "
  const NEW := "+++ "
  const RENAME_FROM := "rename from "
  const RENAME_TO := "rename to "
  const COPY_FROM := "copy from "
  const COPY_TO := "copy to "
  const A := "a/"
  const B := "b/"
  const SPACE := " "
  const NULL_PATH := "/dev/null"

  function GitHeader(oldPath: string, newPath: string): string {
    GIT + (A + oldPath) + SPACE + (B + newPath)
  }

  function GitLine(file: FileDiff): string {
    GitHeader(file.oldPath, file.newPath)
  }

  function MoveLines(file: FileDiff): seq<string> {
    match file.move
    case Stays => []
    case Renamed => [RENAME_FROM + file.oldPath, RENAME_TO + file.newPath]
    case Copied => [COPY_FROM + file.oldPath, COPY_TO + file.newPath]
  }

  function PathLines(file: FileDiff): seq<string> {
    if file.hunks == [] then []
    else [OLD + if file.created then NULL_PATH else A + file.oldPath, NEW + if file.deleted then NULL_PATH else B + file.newPath]
  }

  function HeaderLines(file: FileDiff): seq<string> {
    [GitLine(file)] + file.notes + MoveLines(file) + PathLines(file)
  }

  function BodyLines(body: seq<BodyLine>): seq<string> {
    seq(|body|, i requires 0 <= i < |body| => BodyText(body[i]))
  }

  function HunkLines(hunk: Hunk): seq<string> {
    [OPEN + hunk.heading] + BodyLines(hunk.body)
  }

  function AllHunkLines(hunks: seq<Hunk>): seq<string> {
    if hunks == [] then [] else HunkLines(hunks[0]) + AllHunkLines(hunks[1..])
  }

  function PatchLines(patch: seq<FileDiff>): seq<string> {
    if patch == [] then [] else HeaderLines(patch[0]) + AllHunkLines(patch[0].hunks) + PatchLines(patch[1..])
  }

  /** The printed patch. */
  function Render(patch: seq<FileDiff>): string {
    Text(PatchLines(patch))
  }

  /** Letters, digits and the usual path characters: nothing a shell splitter or a line splitter acts on. */
  predicate PlainChar(c: char) {
    'a' <= c <= 'z' || 'A' <= c <= 'Z' || '0' <= c <= '9' || c == '.' || c == '_' || c == '-' || c == '/'
  }

  predicate Plain(path: string) {
    path != "" && forall i | 0 <= i < |path| :: PlainChar(path[i])
  }
}
