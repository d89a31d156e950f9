/** What `extract_patch_paths` reads of any text, line by line (backend/app/patches/service.py:607-651). */
module PathReadings {
  import opened Wrappers
  import opened PyText
  import opened DiffText
  import opened PatchPaths

  predicate PathLine(line: string) {
    OLD <= line || NEW <= line
  }

  /** Line `i` ends the extraction with the safety error. */
  predicate FailsAt(split: Splitter, lines: seq<string>, start: bool, i: nat)
    requires i < |lines|
  {
    var line := lines[i];
    if GIT <= line then split(line).None? || |split(line).value| < 4
    else PathLine(line) && !InsideAt(lines, start, i) && FirstToken(split, line[4..]).None?
  }

  /** A move line names what follows its prefix. */
  predicate Moves(line: string, path: string) {
    line == RENAME_FROM + path || line == RENAME_TO + path || line == COPY_FROM + path || line == COPY_TO + path
  }

  /** Line `i` names the path: as the third or fourth word of a first header line, or in a header line outside hunks. */
  predicate NamesAt(split: Splitter, lines: seq<string>, start: bool, i: nat, path: string)
    requires i < |lines|
  {
    var line := lines[i];
    if GIT <= line then
      split(line).Some? && |split(line).value| >= 4 && (path == split(line).value[2] || path == split(line).value[3])
    else
      && !InsideAt(lines, start, i)
      && (|| (PathLine(line) && FirstToken(split, line[4..]) == Some(path) && path != NULL_PATH)
          || Moves(line, path))
  }

  lemma PrefixIs(word: string, line: string, path: string)
    ensures line == word + path <==> word <= line && line[|word|..] == path
  {
    if word <= line && line[|word|..] == path { assert line == line[..|word|] + line[|word|..]; }
    if line == word + path { assert line[|word|..] == path; }
  }

  lemma MovePrefixesDiffer(line: string)
    ensures GIT <= line || OPEN <= line || PathLine(line) ==>
              !(RENAME_FROM <= line) && !(RENAME_TO <= line) && !(COPY_FROM <= line) && !(COPY_TO <= line)
    ensures OPEN <= line ==> !PathLine(line) && !(GIT <= line)
    ensures OLD <= line ==> !(NEW <= line) && !(GIT <= line) && !(OPEN <= line)
    ensures NEW <= line ==> !(GIT <= line) && !(OPEN <= line)
    ensures RENAME_FROM <= line ==> !(RENAME_TO <= line) && !(COPY_FROM <= line) && !(COPY_TO <= line)
    ensures RENAME_TO <= line ==> !(COPY_FROM <= line) && !(COPY_TO <= line)
    ensures COPY_FROM <= line ==> !(COPY_TO <= line)
  {
    FirstLetters();
    if RENAME_FROM <= line { assert line[0] == 'r' && line[7] == 'f'; }
    if RENAME_TO <= line { assert line[0] == 'r' && line[7] == 't'; }
    if COPY_FROM <= line { assert line[0] == 'c' && line[5] == 'f'; }
    if COPY_TO <= line { assert line[0] == 'c' && line[5] == 't'; }
    if GIT <= line { assert line[0] == 'd'; }
    if OPEN <= line { assert line[0] == '@'; }
    if OLD <= line { assert line[0] == '-'; }
    if NEW <= line { assert line[0] == '+'; }
  }

  lemma MoveEffect(split: Splitter, line: string, path: string)
    requires !(GIT <= line) && !PathLine(line)
    ensures LineEffect(split, line).Name? || LineEffect(split, line).Enter?
    ensures LineEffect(split, line).Name? ==> (path in LineEffect(split, line).paths <==> Moves(line, path))
    ensures LineEffect(split, line).Enter? ==> !Moves(line, path)
  {
    MovePrefixesDiffer(line);
    PrefixIs(RENAME_FROM, line, path);
    PrefixIs(RENAME_TO, line, path);
    PrefixIs(COPY_FROM, line, path);
    PrefixIs(COPY_TO, line, path);
  }

  lemma NoMove(line: string, path: string)
    requires GIT <= line || PathLine(line)
    ensures !Moves(line, path)
  {
    MovePrefixesDiffer(line);
    PrefixIs(RENAME_FROM, line, path);
    PrefixIs(RENAME_TO, line, path);
    PrefixIs(COPY_FROM, line, path);
    PrefixIs(COPY_TO, line, path);
  }

  /** The first line of a scan. */
  lemma LineReads(split: Splitter, lines: seq<string>, scan: Scan, path: string)
    requires lines != []
    ensures var next := Step(LineEffect(split, lines[0]), scan);
            && (next.None? <==> FailsAt(split, lines, scan.inHunk, 0))
            && (next.Some? ==>
                  && (path in next.value.paths <==> path in scan.paths || NamesAt(split, lines, scan.inHunk, 0, path))
                  && next.value.inHunk == InsideAt(lines, scan.inHunk, 1))
  {
    var line := lines[0];
    MovePrefixesDiffer(line);
    if GIT <= line || PathLine(line) { NoMove(line, path); } else { MoveEffect(split, line, path); }
  }

  /** Some line fails. */
  ghost predicate SomeFails(split: Splitter, lines: seq<string>, start: bool) {
    exists i: nat :: i < |lines| && FailsAt(split, lines, start, i)
  }

  ghost predicate SomeNames(split: Splitter, lines: seq<string>, start: bool, path: string) {
    exists i: nat :: i < |lines| && NamesAt(split, lines, start, i, path)
  }

  lemma TailReads(split: Splitter, lines: seq<string>, start: bool, path: string)
    requires lines != []
    ensures SomeFails(split, lines, start) <==>
              FailsAt(split, lines, start, 0) || SomeFails(split, lines[1..], InsideAt(lines, start, 1))
    ensures SomeNames(split, lines, start, path) <==>
              NamesAt(split, lines, start, 0, path) || SomeNames(split, lines[1..], InsideAt(lines, start, 1), path)
  {
    var rest, inside := lines[1..], InsideAt(lines, start, 1);
    forall i: nat | i < |rest|
      ensures FailsAt(split, rest, inside, i) <==> FailsAt(split, lines, start, i + 1)
      ensures NamesAt(split, rest, inside, i, path) <==> NamesAt(split, lines, start, i + 1, path)
    {
      InsideTail(lines, start, i);
      assert rest[i] == lines[i + 1];
    }
    if i: nat :| i < |lines| && FailsAt(split, lines, start, i) {
      if i > 0 { assert FailsAt(split, rest, inside, i - 1); }
    }
    if i: nat :| i < |lines| && NamesAt(split, lines, start, i, path) {
      if i > 0 { assert NamesAt(split, rest, inside, i - 1, path); }
    }
  }

  lemma {:induction false} ScanReads(split: Splitter, lines: seq<string>, scan: Scan, path: string)
    ensures var found := Scanned(ReadBy(split), lines, scan);
            && (found.None? <==> SomeFails(split, lines, scan.inHunk))
            && (found.Some? ==>
                  (path in found.value.paths <==> path in scan.paths || SomeNames(split, lines, scan.inHunk, path)))
    decreases |lines|
  {
    if lines != [] {
      var next := Step(LineEffect(split, lines[0]), scan);
      LineReads(split, lines, scan, path);
      TailReads(split, lines, scan.inHunk, path);
      if next.Some? { ScanReads(split, lines[1..], next.value, path); }
    }
  }

  /** For every text: it raises exactly if some line fails, and otherwise returns exactly the paths its lines name. */
  lemma ExtractIff(split: Splitter, text: string, path: string)
    ensures Extract(split, text).None? <==> SomeFails(split, SplitLines(text), false)
    ensures Extract(split, text).Some? ==>
              (path in Extract(split, text).value <==> SomeNames(split, SplitLines(text), false, path))
  {
    ScanReads(split, SplitLines(text), Scan({}, false), path);
  }

  lemma {:induction false} BeforeTabOf(path: string, stamp: string)
    requires '\t' !in path
    ensures BeforeTab(path + ['\t'] + stamp) == path
  {
    var text := path + ['\t'] + stamp;
    if path != "" {
      assert text[1..] == path[1..] + ['\t'] + stamp;
      BeforeTabOf(path[1..], stamp);
    }
  }

  lemma {:induction false} StripRightKeeps(text: string, tail: string)
    requires text != "" && !IsSpace(text[|text| - 1])
    ensures StripRight(text + tail) == text + StripRight(tail)
    ensures StripRight(text) == text
  {
    if tail == "" {
      assert text + tail == text;
    } else if IsSpace(tail[|tail| - 1]) {
      assert (text + tail)[..|text + tail| - 1] == text + tail[..|tail| - 1];
      StripRightKeeps(text, tail[..|tail| - 1]);
    }
  }

  lemma PlainIsVisible(path: string)
    requires Plain(path)
    ensures '\t' !in path && !IsSpace(path[0]) && !IsSpace(path[|path| - 1]) && Strip(path) == path
  {
    assert PlainChar(path[0]) && PlainChar(path[|path| - 1]);
    StripRightKeeps(path, "");
  }

  /** A path is read up to the tab, whatever follows it. */
  lemma StampIsCut(split: Splitter, path: string, stamp: string)
    requires Lawful(split) && Plain(path)
    ensures FirstToken(split, path + ['\t'] + stamp) == Some(path)
  {
    var text := path + ['\t'] + stamp;
    assert SplitsWord(split, path);
    PlainIsVisible(path);
    assert text[0] == path[0];
    StripRightKeeps(path, ['\t'] + stamp);
    assert text == path + (['\t'] + stamp);
    var tail := StripRight(['\t'] + stamp);
    assert Strip(text) == path + tail;
    StampTail(stamp);
    if '\t' in path + tail {
      assert path + tail == path + ['\t'] + tail[1..];
      BeforeTabOf(path, tail[1..]);
    } else {
      assert path + tail == path;
    }
  }

  /** Stripping leaves nothing of a tab and blanks, or something that still starts with the tab. */
  lemma {:induction false} StampTail(stamp: string)
    ensures var tail := StripRight(['\t'] + stamp); tail == "" || tail[0] == '\t'
  {
    var text := ['\t'] + stamp;
    if stamp != "" && IsSpace(stamp[|stamp| - 1]) {
      assert text[..|text| - 1] == ['\t'] + stamp[..|stamp| - 1];
      StampTail(stamp[..|stamp| - 1]);
    }
  }
}
