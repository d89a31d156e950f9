/**
 Diffs of tracked files as the backend reads them. `_run_git` decodes git's output as text
 (backend/app/patches/service.py:128-130, 562-576), so that every carriage return becomes a newline
 or joins one, and hands the result back to git.
 */
module LineEnds {
  import opened Wrappers
  import opened DiffText

  /** Universal newlines: `\r\n` and a lone `\r` are read as `\n`. */
  function Universal(text: string): string
    decreases |text|
  {
    if text == "" then ""
    else if text[0] != '\r' then [text[0]] + Universal(text[1..])
    else if |text| > 1 && text[1] == '\n' then ['\n'] + Universal(text[2..])
    else ['\n'] + Universal(text[1..])
  }

  lemma {:induction false} UniversalHasNoReturn(text: string)
    ensures '\r' !in Universal(text) && |Universal(text)| <= |text|
    decreases |text|
  {
    if text != "" {
      if text[0] == '\r' && |text| > 1 && text[1] == '\n' { UniversalHasNoReturn(text[2..]); } else { UniversalHasNoReturn(text[1..]); }
    }
  }

  lemma {:induction false} WithoutReturnsAsIs(text: string)
    requires '\r' !in text
    ensures Universal(text) == text
  {
    if text != "" {
      WithoutReturnsAsIs(text[1..]);
      assert text == [text[0]] + text[1..];
    }
  }

  /** What is read is what git printed exactly when git printed no carriage return. */
  lemma ReadAsPrintedIff(text: string)
    ensures Universal(text) == text <==> '\r' !in text
  {
    UniversalHasNoReturn(text);
    if '\r' !in text { WithoutReturnsAsIs(text); }
  }

  // ----------------------------------------------------------- lines with CRLF

  /** The text of a line as it is read: a carriage return at its end is lost. */
  function WithoutReturn(text: string): string {
    if text != "" && text[|text| - 1] == '\r' then text[..|text| - 1] else text
  }

  /** A carriage return occurs only at the end of the line. */
  predicate ReturnsAtEnd(text: string) {
    '\r' !in WithoutReturn(text)
  }

  function ReadBody(body: seq<BodyLine>): seq<BodyLine> {
    seq(|body|, i requires 0 <= i < |body| => BodyLine(body[i].kind, WithoutReturn(body[i].text)))
  }

  lemma {:induction false} UniversalConcat(a: string, rest: string)
    requires '\r' !in a
    ensures Universal(a + rest) == a + Universal(rest)
  {
    if a == "" {
      assert a + rest == rest;
    } else {
      UniversalConcat(a[1..], rest);
      UniversalFirst(a + rest);
      assert (a + rest)[0] == a[0] && (a + rest)[1..] == a[1..] + rest;
      assert a + Universal(rest) == [a[0]] + (a[1..] + Universal(rest));
    }
  }

  lemma UniversalFirst(text: string)
    requires text != "" && text[0] != '\r'
    ensures Universal(text) == [text[0]] + Universal(text[1..])
  {
  }

  lemma UniversalReturn(rest: string)
    ensures Universal(['\r'] + NEWLINE + rest) == NEWLINE + Universal(rest)
    ensures Universal(NEWLINE + rest) == NEWLINE + Universal(rest)
  {
    var text, plain := ['\r'] + NEWLINE + rest, NEWLINE + rest;
    assert text[0] == '\r' && text[1] == '\n' && text[2..] == rest && plain[1..] == rest;
  }

  lemma UniversalKept(kept: string, rest: string)
    requires '\r' !in kept
    ensures Universal(kept + NEWLINE + rest) == kept + NEWLINE + Universal(rest)
    ensures Universal(kept + ['\r'] + NEWLINE + rest) == kept + NEWLINE + Universal(rest)
  {
    UniversalReturn(rest);
    UniversalConcat(kept, NEWLINE + rest);
    UniversalConcat(kept, ['\r'] + NEWLINE + rest);
    assert kept + NEWLINE + rest == kept + (NEWLINE + rest);
    assert kept + ['\r'] + NEWLINE + rest == kept + (['\r'] + NEWLINE + rest);
    assert kept + NEWLINE + Universal(rest) == kept + (NEWLINE + Universal(rest));
  }

  lemma UniversalLine(mark: char, text: string, rest: string)
    requires mark != '\r' && ReturnsAtEnd(text)
    ensures Universal([mark] + text + NEWLINE + rest) == [mark] + WithoutReturn(text) + NEWLINE + Universal(rest)
  {
    var kept := [mark] + WithoutReturn(text);
    UniversalKept(kept, rest);
    if WithoutReturn(text) != text { assert [mark] + text == kept + ['\r']; }
  }

  /** The printed lines of a hunk are read as the lines without their carriage returns. */
  lemma {:induction false} BodyIsReadWithout(body: seq<BodyLine>)
    requires forall i | 0 <= i < |body| :: ReturnsAtEnd(body[i].text)
    ensures Universal(Text(BodyLines(body))) == Text(BodyLines(ReadBody(body)))
    decreases |body|
  {
    if body != [] {
      var rest := body[1..];
      BodyIsReadWithout(rest);
      assert BodyLines(body)[0] == BodyText(body[0]) && BodyLines(body)[1..] == BodyLines(rest);
      assert BodyLines(ReadBody(body))[0] == BodyText(ReadBody(body)[0]) && BodyLines(ReadBody(body))[1..] == BodyLines(ReadBody(rest));
      UniversalLine(Marker(body[0].kind), body[0].text, Text(BodyLines(rest)));
    }
  }

  // ------------------------------------------------------------- undoing a diff

  /** The lines of a hunk that the file has after the change, and before it. */
  function After(body: seq<BodyLine>): seq<string> {
    if body == [] then []
    else (if body[0].kind.Context? || body[0].kind.Added? then [body[0].text] else []) + After(body[1..])
  }

  function Before(body: seq<BodyLine>): seq<string> {
    if body == [] then []
    else (if body[0].kind.Context? || body[0].kind.Removed? then [body[0].text] else []) + Before(body[1..])
  }

  /** A hunk and how many lines of the file lie between it and the hunk before it. */
  datatype Change = Change(skip: nat, body: seq<BodyLine>)

  /** The hunk finds at its lines what it left there. */
  predicate Fits(lines: seq<string>, change: Change) {
    var after := After(change.body);
    change.skip + |after| <= |lines| && lines[change.skip..change.skip + |after|] == after
  }

  function Beyond(lines: seq<string>, change: Change): seq<string>
    requires Fits(lines, change)
  {
    lines[change.skip + |After(change.body)|..]
  }

  function Joined(start: seq<string>, middle: seq<string>, rest: Option<seq<string>>): Option<seq<string>> {
    match rest
    case None => None
    case Some(lines) => Some(start + middle + lines)
  }

  /** Undoing hunks at the lines they name. */
  function Undo(lines: seq<string>, changes: seq<Change>): Option<seq<string>>
    decreases |changes|
  {
    if changes == [] then Some(lines)
    else if !Fits(lines, changes[0]) then None
    else Joined(lines[..changes[0].skip], Before(changes[0].body), Undo(Beyond(lines, changes[0]), changes[1..]))
  }

  function Read(change: Change): Change {
    Change(change.skip, ReadBody(change.body))
  }

  function ReadChanges(changes: seq<Change>): seq<Change> {
    if changes == [] then [] else [Read(changes[0])] + ReadChanges(changes[1..])
  }

  predicate NoReturns(lines: seq<string>) {
    forall i | 0 <= i < |lines| :: WithoutReturn(lines[i]) == lines[i]
  }

  /** No line the hunks leave in the file ends in a carriage return. */
  predicate LeavesNoReturn(changes: seq<Change>) {
    forall k | 0 <= k < |changes| :: NoReturns(After(changes[k].body))
  }

  /** ... and no line they took out of it did. */
  predicate TakesNoReturn(changes: seq<Change>) {
    forall k | 0 <= k < |changes| :: NoReturns(Before(changes[k].body))
  }

  function Stripped(lines: seq<string>): seq<string> {
    seq(|lines|, i requires 0 <= i < |lines| => WithoutReturn(lines[i]))
  }

  lemma StrippedConcat(a: seq<string>, b: seq<string>)
    ensures Stripped(a + b) == Stripped(a) + Stripped(b)
  {
  }

  lemma StrippedOne(text: string)
    ensures Stripped([text]) == [WithoutReturn(text)] && Stripped([]) == []
  {
  }

  lemma ReadTail(body: seq<BodyLine>)
    requires body != []
    ensures ReadBody(body) != [] && ReadBody(body)[0] == BodyLine(body[0].kind, WithoutReturn(body[0].text))
    ensures ReadBody(body)[1..] == ReadBody(body[1..])
  {
  }

  lemma {:induction false} ReadSides(body: seq<BodyLine>)
    ensures After(ReadBody(body)) == Stripped(After(body)) && Before(ReadBody(body)) == Stripped(Before(body))
    decreases |body|
  {
    if body != [] {
      ReadSides(body[1..]);
      ReadTail(body);
      StrippedOne(body[0].text);
      StrippedConcat([body[0].text], After(body[1..]));
      StrippedConcat([body[0].text], Before(body[1..]));
      StrippedConcat([], After(body[1..]));
      StrippedConcat([], Before(body[1..]));
    }
  }

  /** A hunk that fits as git printed it fits as it is read exactly when no line it left ends in a carriage return. */
  lemma ReadFitsIff(lines: seq<string>, change: Change)
    requires Fits(lines, change)
    ensures Fits(lines, Read(change)) <==> NoReturns(After(change.body))
    ensures Fits(lines, Read(change)) ==> Beyond(lines, Read(change)) == Beyond(lines, change)
  {
    ReadSides(change.body);
    StrippedIff(After(change.body));
  }

  lemma StrippedIff(lines: seq<string>)
    ensures |Stripped(lines)| == |lines| && (Stripped(lines) == lines <==> NoReturns(lines))
  {
    if NoReturns(lines) { assert forall i | 0 <= i < |lines| :: Stripped(lines)[i] == lines[i]; }
    if Stripped(lines) == lines { assert forall i | 0 <= i < |lines| :: WithoutReturn(lines[i]) == Stripped(lines)[i]; }
  }

  lemma NoReturnsTail(changes: seq<Change>)
    requires changes != []
    ensures LeavesNoReturn(changes) <==> NoReturns(After(changes[0].body)) && LeavesNoReturn(changes[1..])
    ensures TakesNoReturn(changes) <==> NoReturns(Before(changes[0].body)) && TakesNoReturn(changes[1..])
  {
    assert forall k | 0 <= k < |changes[1..]| :: changes[1..][k] == changes[k + 1];
  }

  lemma SameMiddle(a: seq<string>, b: seq<string>, c: seq<string>, d: seq<string>, e: seq<string>)
    requires |b| == |d|
    ensures a + b + c == a + d + e <==> b == d && c == e
  {
    var x, y := a + b + c, a + d + e;
    if x == y {
      assert b == x[|a|..|a| + |b|] == y[|a|..|a| + |d|] == d;
      assert c == x[|a| + |b|..] == y[|a| + |d|..] == e;
    }
  }

  /**
   A diff git undoes where it printed it is undone as the backend reads it exactly when no line it
   leaves in the file ends in a carriage return; and that gives the same file exactly when no line
   it took out did either.
   */
  lemma {:induction false} ReadDiffUndoneIff(lines: seq<string>, changes: seq<Change>)
    requires Undo(lines, changes).Some?
    ensures Undo(lines, ReadChanges(changes)).Some? <==> LeavesNoReturn(changes)
    ensures Undo(lines, ReadChanges(changes)) == Undo(lines, changes) <==> LeavesNoReturn(changes) && TakesNoReturn(changes)
    decreases |changes|
  {
    if changes != [] {
      var first := changes[0];
      var rest := Beyond(lines, first);
      ReadFitsIff(lines, first);
      NoReturnsTail(changes);
      ReadDiffUndoneIff(rest, changes[1..]);
      assert ReadChanges(changes)[0] == Read(first) && ReadChanges(changes)[1..] == ReadChanges(changes[1..]);
      ReadSides(first.body);
      StrippedIff(Before(first.body));
      if LeavesNoReturn(changes) {
        JoinedIff(lines[..first.skip], Before(first.body), Stripped(Before(first.body)),
                  Undo(rest, changes[1..]), Undo(rest, ReadChanges(changes[1..])));
      }
    }
  }

  lemma JoinedIff(start: seq<string>, b: seq<string>, d: seq<string>, c: Option<seq<string>>, e: Option<seq<string>>)
    requires |b| == |d| && c.Some? && e.Some?
    ensures Joined(start, d, e) == Joined(start, b, c) <==> d == b && e == c
  {
    SameMiddle(start, b, c.value, d, e.value);
  }

  /** A line is added to a file with CRLF line ends: git undoes its own diff, and refuses it as it is read. */
  lemma EditedCrlfFileIsNotUndone()
    ensures var lines, diff := ["a\r", "b\r"], [Change(0, [BodyLine(Context, "a\r"), BodyLine(Added, "b\r")])];
            Undo(lines, diff) == Some(["a\r"]) && Undo(lines, ReadChanges(diff)).None?
  {
    var body := [BodyLine(Context, "a\r"), BodyLine(Added, "b\r")];
    var lines, diff := ["a\r", "b\r"], [Change(0, body)];
    var tail: seq<BodyLine> := [BodyLine(Added, "b\r")];
    assert body[1..] == tail && tail[1..] == [];
    assert After(tail) == ["b\r"] && Before(tail) == [];
    assert After(body) == lines && Before(body) == ["a\r"];
    assert lines[0..2] == lines && lines[2..] == [] && diff[1..] == [];
    assert Fits(lines, diff[0]) && Beyond(lines, diff[0]) == [];
    assert lines[..0] + ["a\r"] + [] == ["a\r"];
    assert WithoutReturn("a\r") == "a";
    assert !NoReturns(After(diff[0].body)) by { assert After(body)[0] == "a\r"; }
    ReadDiffUndoneIff(lines, diff);
  }
}
