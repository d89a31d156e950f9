/**
 The message history the agent loop builds for a model provider (backend/app/agents/loop.py).

 Assistant and tool messages carry JSON in the source; here they carry the decoded record,
 so JSON is taken to round-trip.
 */
module History {
  import opened Wrappers

  /** One argument of a tool call, by the Python type the argument check looks at. */
  datatype Arg = TextArg(s: string) | IntArg(n: int) | BoolArg(b: bool) | OtherArg

  datatype Args = NoArgs | Object(fields: map<string, Arg>) | NotAnObject

  /** A tool call as the provider returned it: nothing about it has been checked. */
  datatype RawCall =
    | Structured(id: Option<string>, name: Option<string>, args: Args)
    | Unstructured

  datatype Message =
    | System(text: string)
    | Developer(text: string)
    | User(text: string)
    | Assistant(content: string, calls: seq<RawCall>)
    | Tool(callId: Option<string>, toolName: string, success: bool)

  function RawId(c: RawCall): Option<string> {
    if c.Structured? then c.id else None
  }

  function RawName(c: RawCall): string {
    if c.Structured? && c.name.Some? then c.name.value else "malformed_tool_call"
  }

  /**
   Where a history stands: `Start` before the first user message, `Open` when the provider may be
   called, `Owing` while calls of the last assistant message are unanswered, `Silent` after an
   assistant message without calls.
   */
  datatype Phase = Start | Open | Owing(calls: seq<RawCall>) | Silent | Broken

  function After(p: Phase, m: Message): Phase {
    match p
    case Start =>
      if m.System? || m.Developer? then Start else if m.User? then Open else Broken
    case Open =>
      if m.Assistant? then (if m.calls == [] then Silent else Owing(m.calls))
      else if m.Tool? then Broken else Open
    case Owing(calls) =>
      if calls != [] && m.Tool? && m.callId == RawId(calls[0]) then
        (if |calls| == 1 then Open else Owing(calls[1..]))
      else Broken
    case Silent => if m.User? then Open else Broken
    case Broken => Broken
  }

  function PhaseOf(h: seq<Message>): Phase {
    if h == [] then Start else After(PhaseOf(h[..|h| - 1]), h[|h| - 1])
  }

  lemma PhaseSnoc(h: seq<Message>, m: Message)
    ensures PhaseOf(h + [m]) == After(PhaseOf(h), m)
  {
    assert (h + [m])[..|h|] == h;
  }

  /** The messages after assistant message `i` answer its first `n` calls in order. */
  ghost predicate Replied(h: seq<Message>, i: nat, n: nat)
    requires i < |h| && h[i].Assistant?
  {
    && n <= |h[i].calls| && i + n < |h|
    && forall j | i < j <= i + n :: h[j].Tool? && h[j].callId == RawId(h[i].calls[j - i - 1])
  }

  ghost predicate AnsweredAt(h: seq<Message>, i: nat)
    requires i < |h| && h[i].Assistant?
  {
    Replied(h, i, |h[i].calls|)
  }

  /** Message `j` stands where an answer to assistant message `i` belongs. */
  ghost predicate Answers(h: seq<Message>, i: nat, j: nat) {
    i < j < |h| && h[i].Assistant? && j <= i + |h[i].calls|
  }

  /** Every call is answered once, in order, before the next assistant message; nothing else is. */
  ghost predicate Answered(h: seq<Message>) {
    && (forall i: nat | i < |h| && h[i].Assistant? :: AnsweredAt(h, i))
    && (forall j: nat | j < |h| && h[j].Tool? :: exists i: nat :: Answers(h, i, j))
  }

  /** `Answered`, except that the calls `owed` of assistant message `open` are still unanswered. */
  ghost predicate AnsweredBut(h: seq<Message>, open: nat, owed: seq<RawCall>) {
    && open < |h| && h[open].Assistant?
    && owed != [] && |owed| <= |h[open].calls|
    && |h| == open + 1 + |h[open].calls| - |owed|
    && owed == h[open].calls[|h[open].calls| - |owed|..]
    && Replied(h, open, |h[open].calls| - |owed|)
    && (forall i: nat | i < |h| && h[i].Assistant? && i != open :: AnsweredAt(h, i))
    && (forall j: nat | j < |h| && h[j].Tool? :: exists i: nat :: Answers(h, i, j))
  }

  /** What was answered, and what was an answer, stays so when a message is appended. */
  lemma Extends(h: seq<Message>, m: Message)
    ensures forall i: nat | i < |h| && h[i].Assistant? && AnsweredAt(h, i) :: AnsweredAt(h + [m], i)
    ensures forall i: nat, j: nat | j < |h| && Answers(h, i, j) :: Answers(h + [m], i, j)
  {
  }

  lemma AnsweredSnoc(h: seq<Message>, m: Message)
    requires Answered(h) && !m.Tool?
    requires m.Assistant? ==> m.calls == []
    ensures Answered(h + [m])
  {
    Extends(h, m);
    forall j: nat | j < |h| && h[j].Tool?
      ensures exists i: nat :: Answers(h + [m], i, j)
    {
      var i: nat :| Answers(h, i, j);
      assert Answers(h + [m], i, j);
    }
  }

  lemma BatchOpened(h: seq<Message>, m: Message)
    requires Answered(h) && m.Assistant? && m.calls != []
    ensures AnsweredBut(h + [m], |h|, m.calls)
  {
    Extends(h, m);
    forall j: nat | j < |h| && h[j].Tool?
      ensures exists i: nat :: Answers(h + [m], i, j)
    {
      var i: nat :| Answers(h, i, j);
      assert Answers(h + [m], i, j);
    }
  }

  /** Every answer in a batch under way still answers something once one more is appended. */
  lemma AnswersKept(h: seq<Message>, open: nat, owed: seq<RawCall>, m: Message, j: nat)
    requires AnsweredBut(h, open, owed) && m.Tool?
    requires j < |h + [m]| && (h + [m])[j].Tool?
    ensures exists i: nat :: Answers(h + [m], i, j)
  {
    if j < |h| {
      var i: nat :| Answers(h, i, j);
      Extends(h, m);
      assert Answers(h + [m], i, j);
    } else {
      assert Answers(h + [m], open, j);
    }
  }

  lemma BatchAnswered(h: seq<Message>, open: nat, owed: seq<RawCall>, m: Message)
    requires AnsweredBut(h, open, owed)
    requires m.Tool? && m.callId == RawId(owed[0])
    ensures |owed| == 1 ==> Answered(h + [m])
    ensures |owed| > 1 ==> AnsweredBut(h + [m], open, owed[1..])
  {
    Extends(h, m);
    forall j: nat | j < |h + [m]| && (h + [m])[j].Tool?
      ensures exists i: nat :: Answers(h + [m], i, j)
    {
      AnswersKept(h, open, owed, m, j);
    }
  }

  /** What the phase of a history says about its messages. */
  lemma {:induction false} PhaseSound(h: seq<Message>)
    ensures PhaseOf(h).Start? ==> Answered(h)
    ensures PhaseOf(h).Open? ==> Answered(h)
    ensures PhaseOf(h).Silent? ==> Answered(h)
    ensures PhaseOf(h).Owing? ==> exists open: nat :: AnsweredBut(h, open, PhaseOf(h).calls)
  {
    if h != [] {
      var g, m := h[..|h| - 1], h[|h| - 1];
      assert h == g + [m];
      PhaseSound(g);
      match PhaseOf(g)
      case Start => if !m.Assistant? && !m.Tool? { AnsweredSnoc(g, m); }
      case Silent => if m.User? { AnsweredSnoc(g, m); }
      case Open =>
        if m.Assistant? && m.calls != [] {
          BatchOpened(g, m);
        } else if !m.Tool? {
          AnsweredSnoc(g, m);
        }
      case Owing(calls) =>
        var open: nat :| AnsweredBut(g, open, calls);
        if m.Tool? && m.callId == RawId(calls[0]) {
          BatchAnswered(g, open, calls, m);
        }
      case Broken =>
    }
  }

  /** A history the provider may be called with answers every tool call exactly once, in order. */
  lemma OpenHistoryIsAnswered(h: seq<Message>)
    requires PhaseOf(h) == Open
    ensures Answered(h)
  {
    PhaseSound(h);
  }

  /** The answers the loop appends for calls it never ran (`_skip_remaining_calls`). */
  function Skipped(calls: seq<RawCall>): seq<Message> {
    if calls == [] then [] else [Tool(RawId(calls[0]), RawName(calls[0]), false)] + Skipped(calls[1..])
  }

  /** One answer for each call, that it failed. */
  lemma {:induction false} SkippedAt(calls: seq<RawCall>, k: nat)
    requires k < |calls|
    ensures |Skipped(calls)| == |calls|
    ensures Skipped(calls)[k] == Tool(RawId(calls[k]), RawName(calls[k]), false)
    decreases |calls|
  {
    if k > 0 {
      SkippedAt(calls[1..], k - 1);
    } else if |calls| > 1 {
      SkippedAt(calls[1..], 0);
    }
  }

  lemma {:induction false} SkippedAnswersRest(h: seq<Message>, calls: seq<RawCall>)
    requires PhaseOf(h) == if calls == [] then Open else Owing(calls)
    ensures PhaseOf(h + Skipped(calls)) == Open
    decreases |calls|
  {
    if calls == [] {
      assert h + Skipped(calls) == h;
    } else {
      var m, rest := Tool(RawId(calls[0]), RawName(calls[0]), false), calls[1..];
      PhaseSnoc(h, m);
      SkippedAnswersRest(h + [m], rest);
      SkippedSplit(h, calls);
    }
  }

  lemma SkippedSplit(h: seq<Message>, calls: seq<RawCall>)
    requires calls != []
    ensures h + Skipped(calls) ==
            h + [Tool(RawId(calls[0]), RawName(calls[0]), false)] + Skipped(calls[1..])
  {
  }

  /** `_skip_remaining_calls`: completes the history of a batch cut short by a submission. */
  method SkipRemainingCalls(messages: seq<Message>, calls: seq<RawCall>) returns (completed: seq<Message>)
    ensures completed == messages + Skipped(calls)
    ensures PhaseOf(messages) == (if calls == [] then Open else Owing(calls)) ==> PhaseOf(completed) == Open
  {
    completed := messages;
    for i := 0 to |calls|
      invariant completed + Skipped(calls[i..]) == messages + Skipped(calls)
    {
      completed := completed + [Tool(RawId(calls[i]), RawName(calls[i]), false)];
      assert calls[i..][1..] == calls[i + 1..];
    }
    if PhaseOf(messages) == (if calls == [] then Open else Owing(calls)) {
      SkippedAnswersRest(messages, calls);
    }
  }
}
