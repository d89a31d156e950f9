/**
 What the agent loop says to the model (backend/app/agents/loop.py): the prompts, and after each
 reply the answers to its calls, or the prompt to go on.
 */
module Conversation {
  import opened Wrappers
  import opened History
  import Protocol
  import ProviderTranslation
  import ToolCalls

  /** One entry of the trace the loop returns. */
  datatype Step = Step(name: string, success: bool)

  datatype Reply = ProviderError | Response(content: string, calls: seq<RawCall>)

  /** One model call: the history handed over, the trace and the attempts so far, and the reply. */
  datatype Exchange = Exchange(history: seq<Message>, trace: seq<Step>, attempts: nat, reply: Reply)

  const CONTINUE :=
    "Continue by calling one of the registered tools. Submit the patch only when the solution is ready."

  /** The number of failed steps. */
  function Failures(steps: seq<Step>): nat {
    |FailedAt(steps)|
  }

  function FailedAt(steps: seq<Step>): set<int> {
    set k | 0 <= k < |steps| && !steps[k].success
  }

  lemma FailuresSnoc(steps: seq<Step>, s: Step)
    ensures Failures(steps + [s]) == Failures(steps) + if s.success then 0 else 1
  {
    assert FailedAt(steps + [s]) == FailedAt(steps) + if s.success then {} else {|steps|};
  }

  /** `build_initial_messages`: the three prompts of a run. */
  function InitialMessages(system: string, developer: string, issue: string): seq<Message> {
    [System(system), Developer(developer), User(issue)]
  }

  lemma InitialMessagesAreOpen(system: string, developer: string, issue: string)
    ensures PhaseOf(InitialMessages(system, developer, issue)) == Open
  {
    PhaseSnoc([], System(system));
    PhaseSnoc([System(system)], Developer(developer));
    PhaseSnoc([System(system), Developer(developer)], User(issue));
    assert [System(system), Developer(developer)] + [User(issue)] == InitialMessages(system, developer, issue);
    assert [System(system)] + [Developer(developer)] == [System(system), Developer(developer)];
    assert [] + [System(system)] == [System(system)];
  }

  /**
   A history the provider may be called with: all calls answered, and each adapter takes it exactly
   if every call in it can be translated.
   */
  ghost predicate Sendable(h: seq<Message>) {
    && PhaseOf(h) == Open && Answered(h)
    && (ProviderTranslation.AnthropicTurns(h).Ok? <==> ProviderTranslation.AllTranslatable(h))
    && (ProviderTranslation.OpenAiItems(h).Ok? <==> ProviderTranslation.AllTranslatable(h))
    && (ProviderTranslation.LocalItems(h).Ok? <==> ProviderTranslation.AllTranslatable(h))
  }

  lemma OpenIsSendable(h: seq<Message>)
    requires PhaseOf(h) == Open
    ensures Sendable(h)
  {
    OpenHistoryIsAnswered(h);
    ProviderTranslation.AnthropicHistoryIsWellFormed(h);
    ProviderTranslation.OpenAiHistoryIsWellFormed(h);
    ProviderTranslation.LocalAgreesWithOpenAi(h);
  }

  // ------------------------------------------------------------------- one turn

  /** The answer to a call that was handled. */
  function Answer(call: RawCall, success: bool): Message {
    Tool(RawId(call), RawName(call), success)
  }

  function AnswersTo(calls: seq<RawCall>, taken: seq<Step>): seq<Message>
    requires |taken| <= |calls|
  {
    seq(|taken|, k requires 0 <= k < |taken| => Answer(calls[k], taken[k].success))
  }

  /** These steps are those of the first of these calls. */
  predicate StepsOf(calls: seq<RawCall>, taken: seq<Step>) {
    |taken| <= |calls| && forall k | 0 <= k < |taken| :: taken[k].name == RawName(calls[k])
  }

  predicate CallsSubmit(call: RawCall, registry: ToolCalls.Registry) {
    ToolCalls.Parse(call, registry) == Ok(Protocol.SubmitPatch)
  }

  /** The calls left are answered without being run, and one user message follows. */
  predicate ClosedWith(answered: seq<Message>, rest: seq<RawCall>, history: seq<Message>) {
    var closed := answered + Skipped(rest);
    |history| == |closed| + 1 && history[..|closed|] == closed && history[|closed|].User?
  }

  lemma ClosedByFeedback(answered: seq<Message>, rest: seq<RawCall>, feedback: string)
    ensures ClosedWith(answered, rest, answered + Skipped(rest) + [User(feedback)])
    ensures answered <= answered + Skipped(rest) + [User(feedback)]
  {
  }

  /** The history after the reply, with these steps of its calls answered. */
  function Said(x: Exchange, taken: seq<Step>): seq<Message>
    requires x.reply.Response? && |taken| <= |x.reply.calls|
  {
    x.history + [Assistant(x.reply.content, x.reply.calls)] + AnswersTo(x.reply.calls, taken)
  }

  /** Every call handled so far has its step and its answer, and nothing else follows the reply. */
  predicate Handled(x: Exchange, taken: seq<Step>, messages: seq<Message>) {
    x.reply.Response? && StepsOf(x.reply.calls, taken) && messages == Said(x, taken)
  }

  lemma NothingHandled(x: Exchange)
    requires x.reply.Response?
    ensures Handled(x, [], x.history + [Assistant(x.reply.content, x.reply.calls)])
  {
    assert Said(x, []) == x.history + [Assistant(x.reply.content, x.reply.calls)];
  }

  lemma HandledMore(x: Exchange, taken: seq<Step>, messages: seq<Message>, success: bool)
    requires Handled(x, taken, messages) && |taken| < |x.reply.calls|
    ensures var call := x.reply.calls[|taken|];
            Handled(x, taken + [Step(RawName(call), success)], messages + [Answer(call, success)])
  {
    var call := x.reply.calls[|taken|];
    var more := taken + [Step(RawName(call), success)];
    assert AnswersTo(x.reply.calls, more) == AnswersTo(x.reply.calls, taken) + [Answer(call, success)];
    assert Said(x, more) == messages + [Answer(call, success)];
  }

  /**
   What the loop has made of a reply when it asks again, `taken` being the steps of the turn. Without
   calls the model is told to go on; otherwise every call was handled, or the last one handled was a
   submission that began an attempt, the calls after it are answered as failed, and its feedback
   follows.
   */
  predicate Leads(
    x: Exchange, taken: seq<Step>, history: seq<Message>, attempts: nat, registry: ToolCalls.Registry)
  {
    && x.reply.Response? && StepsOf(x.reply.calls, taken)
    && var calls := x.reply.calls;
       if attempts == x.attempts then
         |taken| == |calls| && history == Said(x, taken) + if calls == [] then [User(CONTINUE)] else []
       else
         && attempts == x.attempts + 1 && taken != [] && CallsSubmit(calls[|taken| - 1], registry)
         && ClosedWith(Said(x, taken), calls[|taken|..], history)
  }

  ghost predicate Continues(
    x: Exchange, history: seq<Message>, trace: seq<Step>, attempts: nat, registry: ToolCalls.Registry)
  {
    exists taken :: trace == x.trace + taken && Leads(x, taken, history, attempts, registry)
  }

  /** The run ended in the batch of this reply: the calls handled have their steps and their answers. */
  ghost predicate EndedIn(x: Exchange, trace: seq<Step>, messages: seq<Message>) {
    exists taken :: trace == x.trace + taken && Stands(x, taken, messages)
  }

  predicate Stands(x: Exchange, taken: seq<Step>, messages: seq<Message>) {
    x.reply.Response? && StepsOf(x.reply.calls, taken) && Said(x, taken) <= messages
  }

  lemma Nudged(x: Exchange, registry: ToolCalls.Registry)
    requires x.reply.Response? && x.reply.calls == []
    ensures Continues(x, x.history + [Assistant(x.reply.content, [])] + [User(CONTINUE)], x.trace, x.attempts, registry)
  {
    NothingHandled(x);
    assert x.trace == x.trace + [];
    assert Leads(x, [], x.history + [Assistant(x.reply.content, [])] + [User(CONTINUE)], x.attempts, registry);
  }

  lemma AllHandled(x: Exchange, taken: seq<Step>, messages: seq<Message>, registry: ToolCalls.Registry)
    requires Handled(x, taken, messages) && |taken| == |x.reply.calls| > 0
    ensures Continues(x, messages, x.trace + taken, x.attempts, registry)
  {
    assert messages == messages + [];
    assert Leads(x, taken, messages, x.attempts, registry);
  }

  lemma SubmissionCloses(
    x: Exchange, taken: seq<Step>, messages: seq<Message>, history: seq<Message>, registry: ToolCalls.Registry)
    requires Handled(x, taken, messages) && taken != [] && CallsSubmit(x.reply.calls[|taken| - 1], registry)
    requires ClosedWith(messages, x.reply.calls[|taken|..], history)
    ensures Continues(x, history, x.trace + taken, x.attempts + 1, registry)
  {
    assert Leads(x, taken, history, x.attempts + 1, registry);
  }

  // -------------------------------------------------- complete histories stay complete

  function Remaining(calls: seq<RawCall>): Phase {
    if calls == [] then Open else Owing(calls)
  }

  lemma {:induction false} AnswersAdvance(h: seq<Message>, calls: seq<RawCall>, taken: seq<Step>)
    requires |taken| <= |calls| && PhaseOf(h) == Remaining(calls)
    ensures PhaseOf(h + AnswersTo(calls, taken)) == Remaining(calls[|taken|..])
  {
    var n := |taken| - 1;
    if n < 0 {
      assert h + AnswersTo(calls, taken) == h && calls[|taken|..] == calls;
    } else {
      AnswersAdvance(h, calls, taken[..n]);
      var answered, m := h + AnswersTo(calls, taken[..n]), Answer(calls[n], taken[n].success);
      assert h + AnswersTo(calls, taken) == answered + [m];
      AnswerAdvances(answered, calls[n..], taken[n].success);
      assert calls[n..][0] == calls[n] && calls[n..][1..] == calls[n + 1..];
    }
  }

  lemma AnswerAdvances(h: seq<Message>, calls: seq<RawCall>, success: bool)
    requires calls != [] && PhaseOf(h) == Owing(calls)
    ensures PhaseOf(h + [Answer(calls[0], success)]) == Remaining(calls[1..])
  {
    PhaseSnoc(h, Answer(calls[0], success));
  }

  lemma ReplyOwes(h: seq<Message>, content: string, calls: seq<RawCall>)
    requires PhaseOf(h) == Open && calls != []
    ensures PhaseOf(h + [Assistant(content, calls)]) == Remaining(calls)
  {
    PhaseSnoc(h, Assistant(content, calls));
  }

  lemma NudgeOpens(h: seq<Message>, content: string)
    requires PhaseOf(h) == Open
    ensures PhaseOf(h + [Assistant(content, [])] + [User(CONTINUE)]) == Open
  {
    PhaseSnoc(h, Assistant(content, []));
    PhaseSnoc(h + [Assistant(content, [])], User(CONTINUE));
  }

  lemma ClosedOpens(answered: seq<Message>, rest: seq<RawCall>, history: seq<Message>)
    requires PhaseOf(answered) == Remaining(rest) && ClosedWith(answered, rest, history)
    ensures PhaseOf(history) == Open
  {
    SkippedAnswersRest(answered, rest);
    var closed := answered + Skipped(rest);
    PhaseSnoc(closed, history[|closed|]);
    assert history == closed + [history[|closed|]];
  }

  /** What the loop makes of a complete history and a reply is a complete history. */
  lemma ContinuesOpen(x: Exchange, history: seq<Message>, trace: seq<Step>, attempts: nat, registry: ToolCalls.Registry)
    requires PhaseOf(x.history) == Open && Continues(x, history, trace, attempts, registry)
    ensures PhaseOf(history) == Open
  {
    var taken :| trace == x.trace + taken && Leads(x, taken, history, attempts, registry);
    var calls := x.reply.calls;
    if calls == [] {
      NudgeOpens(x.history, x.reply.content);
      assert Said(x, taken) == x.history + [Assistant(x.reply.content, [])];
    } else {
      ReplyOwes(x.history, x.reply.content, calls);
      AnswersAdvance(x.history + [Assistant(x.reply.content, calls)], calls, taken);
      if attempts == x.attempts {
        assert calls[|taken|..] == [] && history == Said(x, taken);
      } else {
        ClosedOpens(Said(x, taken), calls[|taken|..], history);
      }
    }
  }

  // ------------------------------------------------------------------- whole runs

  /** The prompts are handed over first, before anything is done. */
  predicate Starts(prompts: seq<Message>, history: seq<Message>, trace: seq<Step>, attempts: nat) {
    history == prompts && trace == [] && attempts == 0
  }

  /** What follows these exchanges: the prompts, or what the loop made of the last one. */
  ghost predicate Follows(
    prompts: seq<Message>, exchanges: seq<Exchange>, history: seq<Message>, trace: seq<Step>, attempts: nat,
    registry: ToolCalls.Registry)
  {
    if exchanges == [] then Starts(prompts, history, trace, attempts)
    else Continues(exchanges[|exchanges| - 1], history, trace, attempts, registry)
  }

  /** Model calls in order: each history may be handed over, and follows the exchanges before it. */
  ghost predicate Converses(prompts: seq<Message>, exchanges: seq<Exchange>, registry: ToolCalls.Registry) {
    forall i | 0 <= i < |exchanges| :: Linked(prompts, exchanges, i, registry)
  }

  ghost predicate Linked(prompts: seq<Message>, exchanges: seq<Exchange>, i: int, registry: ToolCalls.Registry)
    requires 0 <= i < |exchanges|
  {
    var x := exchanges[i];
    Sendable(x.history) && Follows(prompts, exchanges[..i], x.history, x.trace, x.attempts, registry)
  }

  /** What follows these exchanges is complete. */
  lemma FollowsOpen(
    prompts: seq<Message>, exchanges: seq<Exchange>, history: seq<Message>, trace: seq<Step>, attempts: nat,
    registry: ToolCalls.Registry)
    requires PhaseOf(prompts) == Open && Converses(prompts, exchanges, registry)
    requires Follows(prompts, exchanges, history, trace, attempts, registry)
    ensures PhaseOf(history) == Open
  {
    if exchanges != [] {
      var n := |exchanges| - 1;
      assert Linked(prompts, exchanges, n, registry);
      ContinuesOpen(exchanges[n], history, trace, attempts, registry);
    }
  }

  lemma ConversesSnoc(prompts: seq<Message>, exchanges: seq<Exchange>, x: Exchange, registry: ToolCalls.Registry)
    requires PhaseOf(prompts) == Open && Converses(prompts, exchanges, registry)
    requires Follows(prompts, exchanges, x.history, x.trace, x.attempts, registry)
    ensures Converses(prompts, exchanges + [x], registry)
  {
    FollowsOpen(prompts, exchanges, x.history, x.trace, x.attempts, registry);
    OpenIsSendable(x.history);
    var more := exchanges + [x];
    forall i | 0 <= i < |more| ensures Linked(prompts, more, i, registry) {
      if i < |exchanges| {
        assert Linked(prompts, exchanges, i, registry);
        assert more[..i] == exchanges[..i];
      } else {
        assert more[..i] == exchanges;
      }
    }
  }

  /** Every reply but the last has its place in the next history, whole, and a reply without calls only asks the model to go on. */
  lemma RepliesAreKept(prompts: seq<Message>, exchanges: seq<Exchange>, registry: ToolCalls.Registry, i: nat)
    requires Converses(prompts, exchanges, registry) && i + 1 < |exchanges|
    ensures var reply, next := exchanges[i].reply, exchanges[i + 1].history;
            && reply.Response?
            && exchanges[i].history + [Assistant(reply.content, reply.calls)] <= next
            && (reply.calls == [] ==>
                  next == exchanges[i].history + [Assistant(reply.content, [])] + [User(CONTINUE)])
  {
    assert Linked(prompts, exchanges, i + 1, registry);
    var earlier, y := exchanges[..i + 1], exchanges[i + 1];
    assert earlier[|earlier| - 1] == exchanges[i];
    ReplyIsKept(exchanges[i], y.history, y.trace, y.attempts, registry);
  }

  lemma PromptsComeFirst(prompts: seq<Message>, exchanges: seq<Exchange>, registry: ToolCalls.Registry)
    requires Converses(prompts, exchanges, registry) && exchanges != []
    ensures exchanges[0].history == prompts && exchanges[0].trace == [] && exchanges[0].attempts == 0
  {
    assert Linked(prompts, exchanges, 0, registry);
  }

  lemma ReplyIsKept(x: Exchange, history: seq<Message>, trace: seq<Step>, attempts: nat, registry: ToolCalls.Registry)
    requires Continues(x, history, trace, attempts, registry)
    ensures x.reply.Response? && x.history + [Assistant(x.reply.content, x.reply.calls)] <= history
    ensures x.reply.calls == [] ==> history == x.history + [Assistant(x.reply.content, [])] + [User(CONTINUE)]
  {
    var taken :| trace == x.trace + taken && Leads(x, taken, history, attempts, registry);
    assert x.history + [Assistant(x.reply.content, x.reply.calls)] <= Said(x, taken);
    if attempts != x.attempts {
      var closed := Said(x, taken) + Skipped(x.reply.calls[|taken|..]);
      assert Said(x, taken) <= closed && closed <= history;
    }
    if x.reply.calls == [] { assert Said(x, taken) == x.history + [Assistant(x.reply.content, [])]; }
  }
}
