/**
 The agent loop (backend/app/agents/loop.py): it asks the model for tool calls, runs them through
 the gates and services, and stops within its budgets. The model's replies, the tools' outcomes
 and the test verdicts are arbitrary, so what `Run` ensures holds of every run.
 */
module AgentLoop {
  import opened Wrappers
  import opened History
  import opened Protocol
  import opened AgentServices
  import opened ProtocolSafety
  import ProtocolTheorems
  import PatchWorkspace
  import KeptCandidates
  import opened Conversation
  import ToolCalls

  /** How `run` ends: with a result, or with an exception for the orchestrator. */
  datatype LoopEnd = Returned(stop: StopReason, submitted: Option<PatchId>) | Raised

  /** How the loop goes on after a call of a batch. */
  datatype Progress = GoesOn | NextTurn | Ends(end: LoopEnd)

  /** How one submission ended for the loop. */
  datatype Signal = GateClosed | Decided(stop: bool, submitted: Option<PatchId>, feedback: string) | Escaped

  /** How the submit tool itself fails: it returns something that is not a patch, or raises before it gets to the patch. */
  datatype Fault = NoFault | NoPatch | ToolRaised(kind: ErrorKind)

  /** A tool that was run: the arguments its service was given, or how it went. */
  datatype Trial =
    | WorkspaceTrial(tool: ToolName, ok: bool, files: set<Path>)
    | PlanTrial(plan: Option<PlanInput>)
    | RankTrial(arguments: Option<seq<Option<Path>>>)
    | HypothesisTrial(status: Option<Status>)
    | SubmitTrial(fault: Fault)

  /** A submission that began its attempt: the tool, what it returned, and the verdict on a stored patch. */
  datatype Try = Try(fault: Fault, outcome: Option<Result<Patch, ErrorKind>>, verdict: Verdict)
  {
    function Submission(): Protocol.Submission {
      SubmissionOf(outcome, verdict)
    }
  }

  /** The rows and the event table hold the submission, which the gates let through. */
  ghost predicate StoredWith(cfg: Config, before: RunState, sub: Submission, rows: seq<Patch>, log: seq<Event>) {
    && sub.Submitted? && FreshId(before.patches, sub.id) && ScopeAccepts(cfg, before.log, sub.files)
    && rows == Stored(before.patches, sub) && log == StoredLog(cfg, before, sub)
  }

  function WithVerdict(patch: Patch, v: Verdict): Submission {
    Submitted(patch.id, patch.text, patch.files, v)
  }

  /** The submission with this result of the tool, and this verdict if it stored a patch. */
  function SubmissionOf(outcome: Option<Result<Patch, ErrorKind>>, v: Verdict): Submission {
    match outcome
    case None => InvalidResult
    case Some(Err(kind)) => SubmitFailed(kind)
    case Some(Ok(patch)) => WithVerdict(patch, v)
  }

  /** Right after the submit tool stored the patch: whatever the verdict will be. */
  ghost predicate JustStored(cfg: Config, before: RunState, patch: Patch, rows: seq<Patch>, log: seq<Event>) {
    forall v: Verdict {:trigger StoredWith(cfg, before, WithVerdict(patch, v), rows, log)} ::
      StoredWith(cfg, before, WithVerdict(patch, v), rows, log)
  }

  lemma StoredBeforeVerdict(cfg: Config, before: RunState, patch: Patch, rows: seq<Patch>, log: seq<Event>)
    requires StoredWith(cfg, before, WithVerdict(patch, Errored), rows, log)
    ensures JustStored(cfg, before, patch, rows, log)
  {
    forall v: Verdict ensures StoredWith(cfg, before, WithVerdict(patch, v), rows, log) {
    }
  }

  lemma StoredIsKnown(cfg: Config, before: RunState, patch: Patch, rows: seq<Patch>, log: seq<Event>)
    requires JustStored(cfg, before, patch, rows, log)
    ensures !FreshId(rows, patch.id)
  {
    assert StoredWith(cfg, before, WithVerdict(patch, Errored), rows, log);
    StoredIdsKnown(before.patches, WithVerdict(patch, Errored));
  }

  /** What an assessment leaves in the services, against the state before the submission. */
  ghost predicate Outcomes(
    cfg: Config, before: RunState, patch: Option<PatchId>, decision: SubmissionDecision, v: Verdict,
    candidates: CandidateState, repair: Repair, log: seq<Event>, done: seq<Event>)
  {
    var began := Began(before.repair, CurrentRevisions(before));
    && repair == Assessed(cfg, began, patch, v) && done == CompletedLog(cfg, log, began, patch, v)
    && candidates == (if Reconsiders(cfg, began, v) then before.candidates.(editing := false) else before.candidates)
    && decision.stop == Stops(cfg, began, v) && (v.Judged? ==> decision.invalidPatch == !v.valid)
  }

  /** ... which is the state the protocol says the submission leads to. */
  lemma AttemptResult(
    cfg: Config, before: RunState, patch: Patch, rows: seq<Patch>, log: seq<Event>, decision: SubmissionDecision, v: Verdict,
    candidates: CandidateState, repair: Repair, done: seq<Event>)
    requires JustStored(cfg, before, patch, rows, log) && !before.stopped && MaySubmitPatch(cfg, before) && More(cfg, before.repair)
    requires Outcomes(cfg, before, Some(patch.id), decision, v, candidates, repair, log, done)
    ensures var sub := WithVerdict(patch, v);
            && Enabled(cfg, before, AttemptCall(sub))
            && Next(cfg, before, AttemptCall(sub)) ==
                 RunState(before.plan, candidates, before.hypotheses, repair, rows, done, decision.stop)
            && TextOf(rows, patch.id) == Some(patch.text)
  {
    assert StoredWith(cfg, before, WithVerdict(patch, v), rows, log);
  }

  /** The run goes on by this action, if there is one. */
  ghost predicate Moved(cfg: Config, before: Execution, after: Execution, action: Option<Action>) {
    after == if action.Some? then Extended(cfg, before, action.value) else before
  }

  /** The action of a tool that was run, from the state `s` to `next`, and when its call succeeds. */
  predicate RanAs(cfg: Config, s: RunState, next: RunState, tool: ToolName, trial: Trial, action: Option<Action>, success: bool) {
    match trial
    case PlanTrial(plan) =>
      tool == SubmitPlan && action == Some(PlanCall(plan)) && success == next.plan.accepted
    case RankTrial(arguments) =>
      && tool == SubmitCandidateFiles && success == Ranks(cfg, s.candidates, arguments)
      && action == if success then Some(RankCall(Paths(arguments.value))) else None
    case HypothesisTrial(status) =>
      && tool == SubmitHypothesis && success == status.Some?
      && action == if success then Some(HypothesisCall(status.value)) else None
    case WorkspaceTrial(observed, ok, files) =>
      && tool == observed && tool !in {SubmitPlan, SubmitCandidateFiles, SubmitHypothesis, SubmitPatch}
      && success == ok && action == if success then Some(Observe(tool, files)) else None
    case SubmitTrial(_) => false
  }

  /** A call other than a submission: its tool is run exactly if it parses and the gates are open, and nothing else happens. */
  predicate Called(
    cfg: Config, s: RunState, next: RunState, parsed: Result<ToolName, ToolCalls.CallError>, trials: seq<Trial>,
    action: Option<Action>, success: bool)
  {
    if parsed.Ok? && (parsed.value == WriteFile ==> MayWrite(cfg, s)) then
      |trials| == 1 && RanAs(cfg, s, next, parsed.value, trials[0], action, success)
    else
      trials == [] && action == None && !success
  }

  /**
   What the submit tool returned: by its fault, or by what the workspace holds and the gate says of
   it. `None` is a result that is not a patch.
   */
  predicate Made(
    env: PatchWorkspace.Env, log: seq<Event>, w: PatchWorkspace.Tree, fault: Fault, outcome: Option<Result<Patch, ErrorKind>>)
  {
    match fault
    case NoPatch => outcome == None
    case ToolRaised(kind) => outcome == Some(Err(kind))
    case NoFault =>
      if PatchWorkspace.CurrentDiff(env, w).Ok? && env.running
         && PatchWorkspace.GateAccepts(env, log, env.diff(w), env.changed(w))
      then outcome.Some? && outcome.value.Ok?
           && outcome.value.value.text == env.diff(w) && outcome.value.value.files == env.changed(w)
      else outcome == Some(Err(PatchSafetyError))
  }

  /** A submission that counts as a tool error: the tool raised, or the stored patch was judged invalid. */
  predicate Costs(sub: Submission) {
    sub.SubmitFailed? || (sub.Submitted? && sub.verdict.Judged? && !sub.verdict.valid)
  }

  /** The run took one more action, this submission. */
  ghost predicate Tried(cfg: Config, before: Execution, after: Execution, sub: Submission) {
    after == Extended(cfg, before, AttemptCall(sub))
  }

  function LastSubmission(run: Execution): Option<Submission> {
    var n := |run.actions|;
    if n > 0 && run.actions[n - 1].AttemptCall? then Some(run.actions[n - 1].submission) else None
  }

  function Attempts(run: Execution): nat {
    Current(run).repair.attempt
  }

  lemma AttemptsAfter(cfg: Config, run: Execution, a: Action)
    ensures Attempts(Extended(cfg, run, a)) == Attempts(run) + if a.AttemptCall? then 1 else 0
  {
  }

  lemma AfterTry(cfg: Config, run: Execution, sub: Submission)
    ensures var tried := Extended(cfg, run, AttemptCall(sub));
            LastSubmission(tried) == Some(sub) && Attempts(tried) == Attempts(run) + 1
  {
  }

  /**
   How a run ends when the provider did not fail. `last` is the run's last action if that was a
   submission, `stopped` says whether its assessment stops the run.
   */
  function EndOf(cfg: Config, last: Option<Submission>, stopped: bool, steps: seq<Step>, toolErrors: nat): LoopEnd {
    var submitted := if last.Some? && steps != [] && steps[|steps| - 1].success then PatchOf(last.value) else None;
    if last.Some? && VerdictOf(last.value).Errored? then Raised
    else if toolErrors >= cfg.maxToolErrors then Returned(MaxToolErrorsReached, submitted)
    else if stopped then Returned(PatchSubmitted, submitted)
    else Returned(MaxStepsReached, None)
  }

  lemma EndAfterTry(cfg: Config, sub: Submission, stopped: bool, trace: seq<Step>, name: string, toolErrors: nat)
    ensures EndOf(cfg, Some(sub), stopped, trace + [Step(name, !sub.SubmitFailed?)], toolErrors) ==
            if VerdictOf(sub).Errored? then Raised
            else if toolErrors >= cfg.maxToolErrors then Returned(MaxToolErrorsReached, PatchOf(sub))
            else if stopped then Returned(PatchSubmitted, PatchOf(sub))
            else Returned(MaxStepsReached, None)
  {
  }

  /** A run ends on its step limit only when a budget is used up. */
  predicate UsesBudget(cfg: Config, end: LoopEnd, steps: seq<Step>, modelCalls: nat) {
    end == Returned(MaxStepsReached, None) ==> modelCalls == cfg.maxSteps || |steps| == cfg.maxSteps
  }

  /** The run ended with this exchange: as a provider error exactly if the provider failed. */
  ghost predicate EndedWith(
    cfg: Config, x: Exchange, run: Execution, stopped: bool, messages: seq<Message>, steps: seq<Step>, toolErrors: nat,
    modelCalls: nat, end: LoopEnd, registry: ToolCalls.Registry)
  {
    if x.reply.ProviderError? then
      && end == Returned(ProviderFailed, None) && !stopped && toolErrors < cfg.maxToolErrors
      && messages == x.history && steps == x.trace
    else
      && end == EndOf(cfg, LastSubmission(run), stopped, steps, toolErrors) && UsesBudget(cfg, end, steps, modelCalls)
      && (EndedIn(x, steps, messages) || Continues(x, messages, steps, Attempts(run), registry))
  }

  /** What each way of ending says, and when a patch is handed over. */
  lemma EndMeans(
    cfg: Config, x: Exchange, run: Execution, stopped: bool, messages: seq<Message>, steps: seq<Step>, toolErrors: nat,
    modelCalls: nat, end: LoopEnd, registry: ToolCalls.Registry)
    requires Executes(cfg, run) && stopped == Current(run).stopped && toolErrors <= cfg.maxToolErrors
    requires EndedWith(cfg, x, run, stopped, messages, steps, toolErrors, modelCalls, end, registry)
    ensures var last := LastSubmission(run);
            var raised := last == Some(InvalidResult) || last == Some(SubmitFailed(OtherError))
                          || (last.Some? && last.value.Submitted? && last.value.verdict.Errored?);
            && (end.Raised? <==> raised)
            && (end.Returned? && end.stop == ProviderFailed <==> x.reply.ProviderError?)
            && (end.Returned? && end.stop == MaxToolErrorsReached <==> toolErrors == cfg.maxToolErrors && !raised)
            && (end.Returned? && end.stop == PatchSubmitted <==> stopped && toolErrors < cfg.maxToolErrors && !raised)
            && (end.Returned? && end.stop == MaxStepsReached <==> x.reply.Response? && !stopped && toolErrors < cfg.maxToolErrors)
            && (end.Returned? && end.stop == MaxStepsReached ==> modelCalls == cfg.maxSteps || |steps| == cfg.maxSteps)
            && (end.Returned? && end.submitted.Some? <==>
                  && !raised && (stopped || toolErrors == cfg.maxToolErrors)
                  && last.Some? && last.value.Submitted? && steps != [] && steps[|steps| - 1].success)
            && (end.Returned? && end.submitted.Some? ==> end.submitted == Some(last.value.id))
  {
    CrashStops(cfg, run);
  }

  lemma OutOfSteps(
    cfg: Config, x: Exchange, run: Execution, messages: seq<Message>, steps: seq<Step>, toolErrors: nat, modelCalls: nat,
    registry: ToolCalls.Registry)
    requires Executes(cfg, run) && !Current(run).stopped && toolErrors < cfg.maxToolErrors
    requires modelCalls == cfg.maxSteps || |steps| == cfg.maxSteps
    requires Continues(x, messages, steps, Attempts(run), registry)
    ensures EndedWith(cfg, x, run, false, messages, steps, toolErrors, modelCalls, Returned(MaxStepsReached, None), registry)
  {
    CrashStops(cfg, run);
  }

  /** What a call of a batch does to the history and the attempts; `began` says that it was a submission the gates let through. */
  predicate OneDone(
    before: nat, after: nat, earlier: seq<Message>, messages: seq<Message>, call: RawCall, rest: seq<RawCall>, success: bool,
    began: bool, progress: Progress)
  {
    var answered := earlier + [Answer(call, success)];
    if began then
      && after == before + 1 && progress != GoesOn && answered <= messages
      && (progress.NextTurn? ==> ClosedWith(answered, rest, messages))
    else
      after == before && progress != NextTurn && messages == answered
  }

  /** A submission that began its attempt is done. */
  lemma BegunIsDone(
    attempts: nat, earlier: seq<Message>, messages: seq<Message>, call: RawCall, rest: seq<RawCall>, success: bool,
    feedback: string, progress: Progress)
    requires progress != GoesOn
    requires var answered := earlier + [Answer(call, success)];
             messages == answered + Skipped(rest) + [User(feedback)] || (messages == answered && progress.Ends?)
    ensures OneDone(attempts, attempts + 1, earlier, messages, call, rest, success, true, progress)
  {
    ClosedByFeedback(earlier + [Answer(call, success)], rest, feedback);
  }

  /** The turn after one more call, for each way the loop goes on. */
  lemma NextHandled(
    x: Exchange, taken: seq<Step>, attempts: nat, earlier: seq<Message>, messages: seq<Message>, success: bool, began: bool,
    progress: Progress, registry: ToolCalls.Registry)
    requires Handled(x, taken, earlier) && |taken| < |x.reply.calls|
    requires var i := |taken|;
             && OneDone(x.attempts, attempts, earlier, messages, x.reply.calls[i], x.reply.calls[i + 1..], success, began, progress)
             && (began ==> CallsSubmit(x.reply.calls[i], registry))
    ensures var more := taken + [Step(RawName(x.reply.calls[|taken|]), success)];
            && (progress.GoesOn? ==> Handled(x, more, messages) && attempts == x.attempts)
            && (progress.NextTurn? ==> Continues(x, messages, x.trace + more, attempts, registry))
            && (progress.Ends? ==> EndedIn(x, x.trace + more, messages))
  {
    var call := x.reply.calls[|taken|];
    var more, answered := taken + [Step(RawName(call), success)], earlier + [Answer(call, success)];
    HandledMore(x, taken, earlier, success);
    if progress.NextTurn? {
      SubmissionCloses(x, more, answered, messages, registry);
    } else if progress.Ends? {
      assert Stands(x, more, messages);
    }
  }

  /** An exception from an assessment ends a run. */
  lemma CrashStops(cfg: Config, run: Execution)
    requires Executes(cfg, run)
    ensures LastSubmission(run).Some? && VerdictOf(LastSubmission(run).value).Errored? ==> Current(run).stopped
  {
    if LastSubmission(run).Some? { assert StepAt(cfg, run, |run.actions| - 1); }
  }

  /** How a restore ends, for a workspace that can be read and a text git treats regularly there. */
  ghost predicate RestoreDecided(
    env: PatchWorkspace.Env, log: seq<Event>, w: PatchWorkspace.Tree, text: PatchWorkspace.Text, restored: Result<(), ErrorKind>)
  {
    env.running && PatchWorkspace.CurrentDiff(env, w).Ok? && PatchWorkspace.Regular(env, w, text) ==>
      && (restored.Ok? <==> PatchWorkspace.Restorable(env, log, w, text))
      && ((PatchWorkspace.Undoable(env, w) && text != "" ==> PatchWorkspace.Reapplies(env, text, PatchWorkspace.Reset(env, w))) ==>
            (restored.Ok? <==>
               || env.diff(w) == text
               || (PatchWorkspace.Undoable(env, w) && (text == "" || PatchWorkspace.Accepts(env, log, text)))))
  }

  lemma RecordedRestoreDecided(env: PatchWorkspace.Env, log: seq<Event>, w: PatchWorkspace.Tree, text: PatchWorkspace.Text)
    requires PatchWorkspace.Recorded(env, text)
    ensures RestoreDecided(env, log, w, text, PatchWorkspace.Restore(env, log, w, text).1)
  {
    var printed: PatchWorkspace.Tree :| PatchWorkspace.CurrentDiff(env, printed) == Ok(text);
    if env.running && PatchWorkspace.CurrentDiff(env, w).Ok? && PatchWorkspace.Regular(env, w, text) {
      PatchWorkspace.RestoreRefinesResetThenApply(env, log, w, text);
      if PatchWorkspace.Undoable(env, w) && text != "" ==> PatchWorkspace.Reapplies(env, text, PatchWorkspace.Reset(env, w)) {
        PatchWorkspace.RestoreNeedsUndoAndGate(env, log, w, text);
      }
    }
  }

  /** A run that stopped with a valid patch left it in the workspace. */
  ghost predicate Held(run: Execution, stopped: bool, env: PatchWorkspace.Env, w: PatchWorkspace.Tree) {
    stopped && run.actions != [] ==> HeldBy(run.actions[|run.actions| - 1], env, w)
  }

  ghost predicate HeldBy(a: Action, env: PatchWorkspace.Env, w: PatchWorkspace.Tree) {
    a.AttemptCall? && a.submission.Submitted? && a.submission.verdict.Judged? && a.submission.verdict.valid ==>
      PatchWorkspace.CurrentDiff(env, w) == Ok(a.submission.text)
  }

  /** A choice the run stopped on is still in the workspace. */
  lemma ChoiceIsHeld(cfg: Config, run: Execution, env: PatchWorkspace.Env, w: PatchWorkspace.Tree, patch: Option<PatchId>)
    requires Executes(cfg, run) && Held(run, Current(run).stopped, env, w) && KeptCandidates.EndsWith(cfg, run.actions, patch)
    ensures patch.Some? && PatchWorkspace.CurrentDiff(env, w).Ok?
    ensures TextOf(Current(run).patches, patch.value) == Some(env.diff(w))
  {
    ExecutionIsRun(cfg, run);
    var n := |run.actions| - 1;
    assert StepAt(cfg, run, n);
    var a, before := run.actions[n], run.states[n];
    assert Current(run).patches == Stored(before.patches, a.submission);
  }

  /** How restoring this candidate ends. */
  ghost predicate Decides(env: PatchWorkspace.Env, w: PatchWorkspace.Tree, s: RunState, patch: PatchId) {
    && TextOf(s.patches, patch).Some?
    && var text := TextOf(s.patches, patch).value;
       RestoreDecided(env, s.log, w, text, PatchWorkspace.Restore(env, s.log, w, text).1)
  }

  lemma ChoiceIsRecorded(env: PatchWorkspace.Env, w: PatchWorkspace.Tree, s: RunState, patch: PatchId)
    requires EachRecorded(env, s.patches) && !FreshId(s.patches, patch)
    ensures Decides(env, w, s, patch)
  {
    TextIsStored(s.patches, patch);
    RecordedRestoreDecided(env, s.log, w, TextOf(s.patches, patch).value);
  }

  /** What is known of the choice before it is flagged and restored. */
  lemma ChoiceIsKnown(cfg: Config, run: Execution, env: PatchWorkspace.Env, w: PatchWorkspace.Tree, stop: StopReason)
    requires Executes(cfg, run) && Held(run, Current(run).stopped, env, w) && EachRecorded(env, Current(run).patches)
    ensures var s := Current(run);
            var choice := Selected(s.repair, stop);
            && StateAfter(cfg, run.actions) == s
            && ProtocolTheorems.RightChoice(s.log, stop, choice)
            && (choice.patch.Some? ==> !FreshId(s.patches, choice.patch.value))
            && (choice.valid ==> choice.patch.Some? && Decides(env, w, s, choice.patch.value))
            && (choice.accepted && cfg.stopOnFirstPassingPatch ==>
                  PatchWorkspace.CurrentDiff(env, w).Ok? && TextOf(s.patches, choice.patch.value) == Some(env.diff(w)))
    ensures forall id | id in Current(run).repair.outcomes :: !FreshId(Current(run).patches, id)
  {
    ExecutionIsRun(cfg, run);
    Reachable(cfg, run.actions);
    ProtocolTheorems.ChoiceIsRight(Current(run), stop);
    var choice := Selected(Current(run).repair, stop);
    if choice.valid { ChoiceIsRecorded(env, w, Current(run), choice.patch.value); }
    if choice.accepted && cfg.stopOnFirstPassingPatch {
      KeptCandidates.AcceptedEndsTheRun(cfg, run.actions, stop);
      ChoiceIsHeld(cfg, run, env, w, choice.patch);
    }
  }

  /**
   How `finish` ends for a valid choice among these rows, from workspace `w` to `next`: a normal
   return leaves its text as the diff; when it returns normally is decided; and a run that stops on
   the first passing patch always gets back what it accepts, with nothing changed.
   */
  ghost predicate FinishedWith(
    cfg: Config, env: PatchWorkspace.Env, log: seq<Event>, rows: seq<Patch>, w: PatchWorkspace.Tree, choice: Selection,
    next: PatchWorkspace.Tree, restored: Result<(), ErrorKind>)
  {
    && (choice.valid ==>
          && choice.patch.Some? && TextOf(rows, choice.patch.value).Some?
          && RestoreDecided(env, log, w, TextOf(rows, choice.patch.value).value, restored)
          && (restored.Ok? ==> TextOf(rows, choice.patch.value) == Some(env.diff(next))))
    && (choice.accepted && cfg.stopOnFirstPassingPatch && env.running ==> restored.Ok? && next == w)
  }

  lemma HeldIsRestored(env: PatchWorkspace.Env, log: seq<Event>, w: PatchWorkspace.Tree)
    requires env.running && PatchWorkspace.CurrentDiff(env, w).Ok?
    ensures PatchWorkspace.Restore(env, log, w, env.diff(w)) == (w, Ok(()))
  {
  }

  lemma FinishIsKnown(
    cfg: Config, env: PatchWorkspace.Env, s: RunState, w: PatchWorkspace.Tree, choice: Selection,
    next: PatchWorkspace.Tree, restored: Result<(), ErrorKind>)
    requires choice.accepted ==> choice.valid
    requires choice.valid ==> choice.patch.Some? && Decides(env, w, s, choice.patch.value)
    requires choice.valid ==>
      (next, restored) == PatchWorkspace.Restore(env, s.log, w, TextOf(s.patches, choice.patch.value).value)
    requires choice.accepted && cfg.stopOnFirstPassingPatch ==>
      PatchWorkspace.CurrentDiff(env, w).Ok? && TextOf(s.patches, choice.patch.value) == Some(env.diff(w))
    ensures FinishedWith(cfg, env, s.log, Flagged(s.patches, choice.patch), w, choice, next, restored)
  {
    if choice.valid {
      FlagsKeepTexts(s.patches, choice.patch, choice.patch.value);
      PatchWorkspace.RestoreIsExact(env, s.log, w, TextOf(s.patches, choice.patch.value).value);
    }
    if choice.accepted && cfg.stopOnFirstPassingPatch && env.running { HeldIsRestored(env, s.log, w); }
  }

  class Loop {
    const cfg: Config
    const registry: ToolCalls.Registry
    const store: RunStore
    const planning: PlanningService
    const candidates: CandidateFilesService
    const hypotheses: HypothesisService
    const patches: PatchService
    const repairs: RepairService

    // The variables of `run`.
    var messages: seq<Message>
    var steps: seq<Step>
    var modelCalls: nat
    var toolErrors: nat

    // What the run did, for its specification.
    ghost var run: Execution
    ghost var stopped: bool
    ghost var trials: seq<Trial>
    ghost var exchanges: seq<Exchange>

    constructor (cfg: Config, env: PatchWorkspace.Env, workspace: PatchWorkspace.Tree)
      requires cfg.Valid() && env.cfg == cfg
      ensures this.cfg == cfg && patches.env == env && registry == ToolCalls.Registered(cfg.enableTestTool)
      ensures fresh(store) && fresh(planning) && fresh(candidates) && fresh(patches) && fresh(repairs)
      ensures Valid() && run == NOT_STARTED && !stopped && exchanges == []
    {
      this.cfg, registry := cfg, ToolCalls.Registered(cfg.enableTestTool);
      var s := new RunStore();
      store := s;
      planning := new PlanningService(cfg, s);
      candidates := new CandidateFilesService(cfg, s);
      hypotheses := new HypothesisService(cfg, s);
      var p := new PatchService(env, s, workspace);
      patches := p;
      repairs := new RepairService(cfg, s, p);
      messages, steps, modelCalls, toolErrors := [], [], 0, 0;
      run, stopped, trials, exchanges := NOT_STARTED, false, [], [];
    }

    ghost predicate Wired() {
      && cfg.Valid()
      && planning.cfg == cfg && candidates.cfg == cfg && hypotheses.cfg == cfg && repairs.cfg == cfg
      && patches.env.cfg == cfg
      && planning.store == store && candidates.store == store && hypotheses.store == store
      && patches.store == store && repairs.store == store && repairs.patches == patches
    }

    ghost function Snapshot(): RunState
      requires Wired()
      reads this`stopped, store, planning, candidates, repairs
    {
      RunState(planning.State(), candidates.State(), store.hypotheses, repairs.State(), store.patches, store.log, stopped)
    }

    /** The objects hold the state of a run of the protocol. */
    ghost predicate InRun()
      reads this`run, this`stopped, store, planning, candidates, repairs, patches
    {
      && Wired()
      && Executes(cfg, run)
      && Snapshot() == Current(run)
      && patches.AllRecorded()
      && Held(run, stopped, patches.env, patches.workspace)
    }

    /** ... and the errors counted are the failed steps and the stored patches judged invalid. */
    ghost predicate Valid()
      reads this`run, this`stopped, this`toolErrors, this`steps, store, planning, candidates, repairs, patches
    {
      InRun() && toolErrors == Failures(steps) + InvalidStored(store.log)
    }

    method ReasoningRevisions() returns (r: Revisions)
      requires Wired()
      ensures r == CurrentRevisions(Snapshot())
    {
      var hypothesis := hypotheses.ActiveRunHypothesis();
      r := Revisions(hypothesis, if planning.accepted then planning.revision else 0, candidates.revision);
    }

    /** The model provider: any reply to any history. */
    method GenerateResponse() returns (reply: Reply)
      modifies this`exchanges
      ensures exchanges == old(exchanges) + [Exchange(messages, steps, Attempts(run), reply)]
    {
      reply := *;
      exchanges := exchanges + [Exchange(messages, steps, Attempts(run), reply)];
    }

    /** Records the action that led from `before` to the state the objects are in now. */
    ghost method Took(before: RunState, a: Action)
      requires Wired() && Executes(cfg, run) && before == Current(run) && Enabled(cfg, before, a)
      requires Snapshot().(stopped := Next(cfg, before, a).stopped) == Next(cfg, before, a)
      requires patches.AllRecorded()
      modifies this`run, this`stopped
      ensures Executes(cfg, run) && Snapshot() == Current(run)
      ensures run == Extended(cfg, old(run), a) && Attempts(run) == Attempts(old(run)) + if a.AttemptCall? then 1 else 0
      ensures stopped == Next(cfg, before, a).stopped
      ensures InvalidStored(store.log) == InvalidStored(before.log) +
                if a.AttemptCall? && a.submission.Submitted? && a.submission.verdict.Judged? && !a.submission.verdict.valid
                then 1 else 0
    {
      InvalidStoredNext(cfg, before, a);
      ExecutesSnoc(cfg, run, a);
      AttemptsAfter(cfg, run, a);
      stopped := Next(cfg, before, a).stopped;
      run := Extended(cfg, run, a);
    }

    /** The bookkeeping of a tool call that is over: its step, its error, its answer. */
    method Record(call: RawCall, success: bool)
      modifies this`messages, this`steps, this`toolErrors
      ensures steps == old(steps) + [Step(RawName(call), success)]
      ensures Failures(steps) == Failures(old(steps)) + if success then 0 else 1
      ensures toolErrors == old(toolErrors) + if success then 0 else 1
      ensures messages == old(messages) + [Answer(call, success)]
    {
      FailuresSnoc(steps, Step(RawName(call), success));
      toolErrors := toolErrors + if success then 0 else 1;
      steps := steps + [Step(RawName(call), success)];
      messages := messages + [Tool(RawId(call), RawName(call), success)];
    }

    /** The workspace tools other than submissions: they fail, or succeed with some files. */
    method RunWorkspaceTool(tool: ToolName) returns (ok: bool, files: set<Path>)
      modifies this`trials, patches`workspace
      ensures trials == old(trials) + [WorkspaceTrial(tool, ok, files)]
    {
      patches.workspace := *;
      ok := *;
      files := *;
      trials := trials + [WorkspaceTrial(tool, ok, files)];
    }

    // The arguments of the submission tools other than `submit_patch`, once they are validated.

    method PlanArguments() returns (plan: Option<PlanInput>)
      modifies this`trials
      ensures trials == old(trials) + [PlanTrial(plan)]
    {
      plan := *;
      trials := trials + [PlanTrial(plan)];
    }

    method RankingArguments() returns (arguments: Option<seq<Option<Path>>>)
      modifies this`trials
      ensures trials == old(trials) + [RankTrial(arguments)]
    {
      arguments := *;
      trials := trials + [RankTrial(arguments)];
    }

    method HypothesisArguments() returns (status: Option<Status>)
      modifies this`trials
      ensures trials == old(trials) + [HypothesisTrial(status)]
    {
      status := *;
      trials := trials + [HypothesisTrial(status)];
    }

    method GatesOpen(tool: ToolName) returns (ok: bool)
      requires Wired() && tool != SubmitPatch
      ensures ok <==> (tool == WriteFile ==> MayWrite(cfg, Snapshot()))
    {
      if tool == WriteFile {
        var revisions := ReasoningRevisions();
        ok := repairs.CheckAction(tool, revisions);
        if !ok {
          return;
        }
      }
      ok := planning.CheckEdit(tool);
      if !ok {
        return;
      }
      ok := candidates.CheckEdit(tool);
    }

    /** Runs one call other than `submit_patch`; a call that does not parse fails like any other. */
    method HandleCall(call: RawCall) returns (ok: bool, ghost action: Option<Action>)
      requires Valid() && !stopped
      requires !CallsSubmit(call, registry)
      modifies this`messages, this`steps, this`toolErrors, this`run, this`stopped, this`trials
      modifies planning, candidates, store, patches`workspace
      ensures Valid() && !stopped && old(trials) <= trials
      ensures Moved(cfg, old(run), run, action) && Attempts(run) == Attempts(old(run))
      ensures Called(cfg, Current(old(run)), Current(run), ToolCalls.Parse(call, registry),
                     trials[|old(trials)|..], action, ok)
      ensures steps == old(steps) + [Step(RawName(call), ok)]
      ensures toolErrors == old(toolErrors) + if ok then 0 else 1
      ensures messages == old(messages) + [Answer(call, ok)]
    {
      var parsed := ToolCalls.Parse(call, registry);
      ok, action := parsed.Ok?, None;
      if ok {
        ok, action := RunTool(parsed.value);
      }
      Record(call, ok);
      assert steps == old(steps) + [Step(RawName(call), ok)];
    }

    /** The gates, then the tool. */
    method RunTool(tool: ToolName) returns (ok: bool, ghost action: Option<Action>)
      requires Valid() && !stopped && tool != SubmitPatch
      modifies this`run, this`stopped, this`trials, planning, candidates, store, patches`workspace
      ensures Valid() && !stopped && old(trials) <= trials
      ensures Moved(cfg, old(run), run, action) && Attempts(run) == Attempts(old(run))
      ensures Called(cfg, Current(old(run)), Current(run), Ok(tool), trials[|old(trials)|..], action, ok)
    {
      action := None;
      ok := GatesOpen(tool);
      if ok {
        ghost var trial;
        ok, trial, action := Execute(tool);
        assert trials[|old(trials)|..] == [trial];
      }
    }

    /** The tool itself, and what the services learn from its success. */
    method Execute(tool: ToolName) returns (ok: bool, ghost trial: Trial, ghost action: Option<Action>)
      requires Valid() && !stopped && tool != SubmitPatch
      requires tool == WriteFile ==> MayWrite(cfg, Snapshot())
      modifies this`run, this`stopped, this`trials, planning, candidates, store, patches`workspace
      ensures Valid() && !stopped && trials == old(trials) + [trial]
      ensures Moved(cfg, old(run), run, action) && Attempts(run) == Attempts(old(run))
      ensures RanAs(cfg, Current(old(run)), Current(run), tool, trial, action, ok)
    {
      if tool == SubmitPlan {
        ok, trial, action := ExecutePlan();
      } else if tool == SubmitCandidateFiles {
        ok, trial, action := ExecuteRanking();
      } else if tool == SubmitHypothesis {
        ok, trial, action := ExecuteHypothesis();
      } else {
        ok, trial, action := ExecuteWorkspaceTool(tool);
      }
    }

    method ExecutePlan() returns (ok: bool, ghost trial: Trial, ghost action: Option<Action>)
      requires Valid() && !stopped
      modifies this`run, this`stopped, this`trials, planning, store`log
      ensures Valid() && !stopped && trials == old(trials) + [trial]
      ensures Moved(cfg, old(run), run, action) && Attempts(run) == Attempts(old(run))
      ensures RanAs(cfg, Current(old(run)), Current(run), SubmitPlan, trial, action, ok)
    {
      ghost var before := Snapshot();
      var plan := PlanArguments();
      trial := PlanTrial(plan);
      action := Some(PlanCall(plan));
      ok := ReviewPlan(before, plan);
    }

    /** The review of a plan; a rejected one is a step of the run too. */
    method ReviewPlan(ghost before: RunState, plan: Option<PlanInput>) returns (ok: bool)
      requires Valid() && !stopped && before == Snapshot()
      modifies this`run, this`stopped, planning, store`log
      ensures Valid() && !stopped
      ensures run == Extended(cfg, old(run), PlanCall(plan)) && Attempts(run) == Attempts(old(run))
      ensures ok == Current(run).plan.accepted
    {
      ok := planning.Submit(plan);
      Took(before, PlanCall(plan));
    }

    method ExecuteRanking() returns (ok: bool, ghost trial: Trial, ghost action: Option<Action>)
      requires Valid() && !stopped
      modifies this`run, this`stopped, this`trials, candidates, store`log
      ensures Valid() && !stopped && trials == old(trials) + [trial]
      ensures Moved(cfg, old(run), run, action) && Attempts(run) == Attempts(old(run))
      ensures RanAs(cfg, Current(old(run)), Current(run), SubmitCandidateFiles, trial, action, ok)
    {
      ghost var before := Snapshot();
      var arguments := RankingArguments();
      trial := RankTrial(arguments);
      ghost var ranked;
      ok, ranked := candidates.Submit(arguments);
      action := if ok then Some(RankCall(ranked)) else None;
      if ok {
        Took(before, RankCall(ranked));
      }
    }

    method ExecuteHypothesis() returns (ok: bool, ghost trial: Trial, ghost action: Option<Action>)
      requires Valid() && !stopped
      modifies this`run, this`stopped, this`trials, store`hypotheses
      ensures Valid() && !stopped && trials == old(trials) + [trial]
      ensures Moved(cfg, old(run), run, action) && Attempts(run) == Attempts(old(run))
      ensures RanAs(cfg, Current(old(run)), Current(run), SubmitHypothesis, trial, action, ok)
    {
      ghost var before := Snapshot();
      var status := HypothesisArguments();
      trial := HypothesisTrial(status);
      ok := hypotheses.Submit(status);
      action := if ok then Some(HypothesisCall(status.value)) else None;
      if ok {
        Took(before, HypothesisCall(status.value));
      }
    }

    method ExecuteWorkspaceTool(tool: ToolName) returns (ok: bool, ghost trial: Trial, ghost action: Option<Action>)
      requires Valid() && !stopped
      requires tool !in {SubmitPlan, SubmitCandidateFiles, SubmitHypothesis, SubmitPatch}
      requires tool == WriteFile ==> MayWrite(cfg, Snapshot())
      modifies this`run, this`stopped, this`trials, planning, candidates, store`log, patches`workspace
      ensures Valid() && !stopped && trials == old(trials) + [trial]
      ensures Moved(cfg, old(run), run, action) && Attempts(run) == Attempts(old(run))
      ensures RanAs(cfg, Current(old(run)), Current(run), tool, trial, action, ok)
    {
      var files;
      ok, files := UseWorkspaceTool(tool);
      trial, action := WorkspaceTrial(tool, ok, files), if ok then Some(Observe(tool, files)) else None;
    }

    method UseWorkspaceTool(tool: ToolName) returns (ok: bool, files: set<Path>)
      requires Valid() && !stopped && Enabled(cfg, Current(run), Observe(tool, {}))
      modifies this`run, this`stopped, this`trials, planning, candidates, store`log, patches`workspace
      ensures Valid() && !stopped && trials == old(trials) + [WorkspaceTrial(tool, ok, files)]
      ensures run == (if ok then Extended(cfg, old(run), Observe(tool, files)) else old(run))
      ensures Attempts(run) == Attempts(old(run))
    {
      ok, files := RunWorkspaceTool(tool);
      if ok {
        Succeed(tool, files);
      }
    }

    /** The event a workspace tool logs when it succeeds, and what the services learn from it. */
    method Succeed(tool: ToolName, files: set<Path>)
      requires Valid() && !stopped && Enabled(cfg, Current(run), Observe(tool, files))
      modifies this`run, this`stopped, planning, candidates, store`log
      ensures Valid() && !stopped && Attempts(run) == Attempts(old(run))
      ensures run == Extended(cfg, old(run), Observe(tool, files))
    {
      ghost var before := Snapshot();
      store.Log(ToolSucceeded(tool, files));
      planning.Observe(tool, files);
      candidates.Observe(tool, files);
      Took(before, Observe(tool, files));
    }

    // ------------------------------------------------------------- submissions

    /** Between `begin_attempt` and the result of the tool; `before` is the state of the last action. */
    ghost predicate Attempting(before: RunState)
      reads this`run, this`stopped, store, planning, candidates, repairs
    {
      && Wired()
      && Executes(cfg, run) && before == Current(run) && !before.stopped && !stopped
      && MaySubmitPatch(cfg, before) && More(cfg, before.repair)
      && planning.State() == before.plan && candidates.State() == before.candidates
      && store.hypotheses == before.hypotheses
      && repairs.State() == Began(before.repair, CurrentRevisions(before))
      && patches.AllRecorded()
    }

    /** The submit tool: it may raise, or return something that is not a patch. */
    method RunSubmitTool(ghost before: RunState) returns (r: Option<Result<Patch, ErrorKind>>, ghost fault: Fault)
      requires Attempting(before) && store.patches == before.patches && store.log == StartedLog(before)
      modifies this`trials, store`patches, store`log
      ensures Attempting(before) && Left(before, r) && trials == old(trials) + [SubmitTrial(fault)]
      ensures Made(patches.env, StartedLog(before), patches.workspace, fault, r)
    {
      var broken: bool, fails: bool, kind: ErrorKind := *, *, *;
      fault := if broken then NoPatch else if fails then ToolRaised(kind) else NoFault;
      trials := trials + [SubmitTrial(fault)];
      if broken {
        return None, fault;
      }
      if fails {
        return Some(Err(kind)), fault;
      }
      var submitted := SubmitDiff(before);
      return Some(submitted), fault;
    }

    /** `submit_patch` of the workspace tools. */
    method SubmitDiff(ghost before: RunState) returns (submitted: Result<Patch, ErrorKind>)
      requires Attempting(before) && store.patches == before.patches && store.log == StartedLog(before)
      modifies store`patches, store`log
      ensures Attempting(before) && Left(before, Some(submitted))
      ensures Made(patches.env, StartedLog(before), patches.workspace, NoFault, Some(submitted))
    {
      submitted := patches.SubmitPatch();
      if submitted.Ok? {
        StoredBeforeVerdict(cfg, before, submitted.value, store.patches, store.log);
      }
    }

    /** What the submit tool left of the rows. */
    ghost predicate Left(before: RunState, outcome: Option<Result<Patch, ErrorKind>>)
      reads store
    {
      if outcome.Some? && outcome.value.Ok? then JustStored(cfg, before, outcome.value.value, store.patches, store.log)
      else store.patches == before.patches && store.log == StartedLog(before)
    }

    /** Answers the calls after a submission without running them, then hands over the feedback. */
    method Close(rest: seq<RawCall>) returns (feedback: string)
      modifies this`messages
      ensures messages == old(messages) + Skipped(rest) + [User(feedback)]
    {
      var completed := SkipRemainingCalls(messages, rest);
      feedback := *;
      messages := completed + [User(feedback)];
    }

    method AssessFailure(ghost before: RunState, kind: ErrorKind)
      returns (decision: SubmissionDecision, verdict: Verdict)
      requires Attempting(before) && store.patches == before.patches && store.log == StartedLog(before)
      modifies this`run, this`stopped, store`log, repairs, patches`workspace
      ensures InRun() && stopped == decision.stop && verdict == VerdictOf(SubmitFailed(kind))
      ensures Tried(cfg, old(run), run, SubmitFailed(kind))
      ensures InvalidStored(store.log) == InvalidStored(before.log)
    {
      decision, verdict := repairs.Assess(None, Some(kind));
      assert !decision.reconsiderReasoning;  // a failed submission has no failed tests, so the ranking stays as it is
      Took(before, AttemptCall(SubmitFailed(kind)));
    }

    /** The services during the assessment of a stored patch. */
    method AssessStored(ghost before: RunState, patch: Patch, ghost rows: seq<Patch>, ghost log: seq<Event>)
      returns (decision: SubmissionDecision, verdict: Verdict)
      requires Attempting(before) && store.patches == rows && store.log == log && !FreshId(rows, patch.id)
      modifies planning, candidates, store`log, repairs, patches`workspace
      ensures patches.AllRecorded()
      ensures verdict.Judged? && verdict.valid ==>
                PatchWorkspace.CurrentDiff(patches.env, patches.workspace).Ok?
                && TextOf(rows, patch.id) == Some(patches.Diff())
      ensures planning.State() == before.plan
      ensures Outcomes(cfg, before, Some(patch.id), decision, verdict, candidates.State(), repairs.State(), log, store.log)
    {
      planning.Observe(SubmitPatch, patch.files);
      candidates.Observe(SubmitPatch, patch.files);
      decision, verdict := repairs.Assess(Some(patch.id), None);
      if decision.reconsiderReasoning {
        candidates.BeginRepair();
      }
    }

    method AssessPatch(ghost before: RunState, patch: Patch, ghost rows: seq<Patch>, ghost log: seq<Event>)
      returns (decision: SubmissionDecision, verdict: Verdict)
      requires Attempting(before)
      requires store.patches == rows && store.log == log && JustStored(cfg, before, patch, rows, log)
      modifies this`run, this`stopped, planning, candidates, store`log, repairs, patches`workspace
      ensures InRun() && stopped == decision.stop
      ensures Tried(cfg, old(run), run, WithVerdict(patch, verdict))
      ensures verdict.Judged? ==> decision.invalidPatch == !verdict.valid
      ensures InvalidStored(store.log) ==
              InvalidStored(before.log) + if verdict.Judged? && !verdict.valid then 1 else 0
    {
      StoredIsKnown(cfg, before, patch, rows, log);
      decision, verdict := AssessStored(before, patch, rows, log);
      AttemptResult(cfg, before, patch, rows, log, decision, verdict, candidates.State(), repairs.State(), store.log);
      Took(before, AttemptCall(WithVerdict(patch, verdict)));
    }

    /** The gates of `submit_patch`, then the start of the attempt. */
    method OpenAttempt() returns (open: bool)
      requires InRun() && !stopped
      modifies store`repairAttemptsUsed, store`log, repairs
      ensures open <==> MaySubmitPatch(cfg, old(Snapshot()))
      ensures !open ==> InRun() && store.log == old(store.log)
      ensures open ==>
                && Attempting(old(Snapshot()))
                && store.patches == old(store.patches) && store.log == StartedLog(old(Snapshot()))
    {
      ghost var before := Snapshot();
      ExecutionIsRun(cfg, run);
      Reachable(cfg, run.actions);
      var revisions := ReasoningRevisions();
      open := repairs.CheckAction(SubmitPatch, revisions);
      if !open {
        return;
      }
      open := planning.CheckEdit(SubmitPatch);
      if !open {
        return;
      }
      open := hypotheses.RequireForPatch();
      if !open {
        return;
      }
      revisions := ReasoningRevisions();
      var began := repairs.BeginAttempt(revisions);
      assert began;  // the budget check of `begin_attempt` never fires here
    }

    /** Runs one `submit_patch` call: gates, attempt, tool, assessment. */
    method HandleSubmission(call: RawCall, rest: seq<RawCall>) returns (signal: Signal, ghost tried: Try)
      requires Valid() && !stopped
      modifies this`messages, this`steps, this`toolErrors, this`run, this`stopped, this`trials
      modifies planning, candidates, store, repairs, patches`workspace
      ensures Valid()
      ensures signal.GateClosed? <==> !MaySubmitPatch(cfg, Current(old(run)))
      ensures signal.GateClosed? ==>
                && run == old(run) && trials == old(trials) && !stopped
                && steps == old(steps) + [Step(RawName(call), false)] && toolErrors == old(toolErrors) + 1
                && messages == old(messages) + [Answer(call, false)]
      ensures !signal.GateClosed? ==>
                var sub := tried.Submission();
                && Tried(cfg, old(run), run, sub)
                && trials == old(trials) + [SubmitTrial(tried.fault)]
                && Made(patches.env, StartedLog(Current(old(run))), old(patches.workspace), tried.fault, tried.outcome)
                && steps == old(steps) + [Step(RawName(call), !sub.SubmitFailed?)]
                && toolErrors == old(toolErrors) + (if Costs(sub) then 1 else 0)
                && SignalIs(signal, sub, old(messages) + [Answer(call, !sub.SubmitFailed?)], rest)
    {
      ghost var before := Snapshot();
      tried := Try(NoFault, None, Errored);
      var open := OpenAttempt();
      if !open {
        Record(call, false);
        signal := GateClosed;
        return;
      }
      signal, tried := Submit(before, call, rest);
    }

    /**
     What the loop makes of an assessed submission: an exception ends the run where it was raised;
     otherwise the batch is closed and the feedback follows.
     */
    ghost predicate SignalIs(signal: Signal, sub: Submission, answered: seq<Message>, rest: seq<RawCall>)
      reads this`messages, this`stopped
    {
      if VerdictOf(sub).Errored? then signal == Escaped && stopped && messages == answered
      else
        && signal.Decided? && signal.stop == stopped && signal.submitted == PatchOf(sub)
        && messages == answered + Skipped(rest) + [User(signal.feedback)]
    }

    method Submit(ghost before: RunState, call: RawCall, rest: seq<RawCall>) returns (signal: Signal, ghost tried: Try)
      requires Attempting(before) && store.patches == before.patches && store.log == StartedLog(before)
      requires toolErrors == Failures(steps) + InvalidStored(before.log)
      modifies this`messages, this`steps, this`toolErrors, this`run, this`stopped, this`trials
      modifies planning, candidates, store`patches, store`log, repairs, patches`workspace
      ensures Valid() && Tried(cfg, old(run), run, tried.Submission())
      ensures trials == old(trials) + [SubmitTrial(tried.fault)]
      ensures Made(patches.env, StartedLog(before), old(patches.workspace), tried.fault, tried.outcome)
      ensures steps == old(steps) + [Step(RawName(call), !tried.Submission().SubmitFailed?)]
      ensures toolErrors == old(toolErrors) + if Costs(tried.Submission()) then 1 else 0
      ensures SignalIs(signal, tried.Submission(), old(messages) + [Answer(call, !tried.Submission().SubmitFailed?)], rest)
    {
      var outcome, success;
      ghost var fault, judged;
      outcome, success, fault := SubmitAndRecord(before, call);
      signal, judged := Judge(before, rest, outcome);
      tried := Try(fault, outcome, judged);
      assert success == !tried.Submission().SubmitFailed?;
    }

    /** The submit tool, and its step. */
    method SubmitAndRecord(ghost before: RunState, call: RawCall)
      returns (outcome: Option<Result<Patch, ErrorKind>>, success: bool, ghost fault: Fault)
      requires Attempting(before) && store.patches == before.patches && store.log == StartedLog(before)
      requires toolErrors == Failures(steps) + InvalidStored(before.log)
      modifies this`messages, this`steps, this`toolErrors, this`trials, store`patches, store`log
      ensures Attempting(before) && Left(before, outcome) && trials == old(trials) + [SubmitTrial(fault)]
      ensures Made(patches.env, StartedLog(before), patches.workspace, fault, outcome)
      ensures success <==> outcome.None? || outcome.value.Ok?
      ensures steps == old(steps) + [Step(RawName(call), success)] && messages == old(messages) + [Answer(call, success)]
      ensures toolErrors == old(toolErrors) + if success then 0 else 1
      ensures toolErrors == Failures(steps) + InvalidStored(before.log)
    {
      outcome, fault := RunSubmitTool(before);
      success := outcome.None? || outcome.value.Ok?;
      Record(call, success);
    }

    /** What an assessment makes of the submission. */
    method Judge(ghost before: RunState, rest: seq<RawCall>, outcome: Option<Result<Patch, ErrorKind>>)
      returns (signal: Signal, ghost judged: Verdict)
      requires Attempting(before) && Left(before, outcome)
      requires toolErrors == Failures(steps) + InvalidStored(before.log)
      modifies this`messages, this`toolErrors, this`run, this`stopped
      modifies planning, candidates, store`log, repairs, patches`workspace
      ensures var sub := SubmissionOf(outcome, judged);
              && Valid() && Tried(cfg, old(run), run, sub)
              && toolErrors == old(toolErrors) + (if sub.Submitted? && Costs(sub) then 1 else 0)
              && SignalIs(signal, sub, old(messages), rest)
    {
      judged := Errored;
      if outcome.None? {
        Abandon(before);
        signal := Escaped;
      } else if outcome.value.Err? {
        signal := JudgeFailure(before, rest, outcome.value.error);
      } else {
        signal, judged := JudgeStored(before, rest, outcome.value.value, store.patches, store.log);
      }
    }

    /** A submission that returned no patch ends the run with an exception, unassessed. */
    ghost method Abandon(before: RunState)
      requires Attempting(before) && store.patches == before.patches && store.log == StartedLog(before)
      requires toolErrors == Failures(steps) + InvalidStored(before.log)
      modifies this`run, this`stopped
      ensures Valid() && stopped && Tried(cfg, old(run), run, InvalidResult)
    {
      Took(before, AttemptCall(InvalidResult));
    }

    /** After an assessment: an exception ends the run; otherwise the batch is closed and an invalid patch counted. */
    method Conclude(rest: seq<RawCall>, decision: SubmissionDecision, verdict: Verdict, ghost sub: Submission, submitted: Option<PatchId>)
      returns (signal: Signal)
      requires InRun() && stopped == decision.stop && (verdict.Errored? ==> stopped)
      requires verdict == VerdictOf(sub) && submitted == PatchOf(sub)
      requires submitted.Some? && verdict.Judged? ==> decision.invalidPatch == !verdict.valid
      requires Failures(steps) + InvalidStored(store.log) == toolErrors + if submitted.Some? && Costs(sub) then 1 else 0
      modifies this`messages, this`toolErrors
      ensures Valid() && toolErrors == old(toolErrors) + if submitted.Some? && Costs(sub) then 1 else 0
      ensures SignalIs(signal, sub, old(messages), rest)
    {
      if verdict.Errored? {
        return Escaped;
      }
      var feedback := Close(rest);
      if submitted.Some? && decision.invalidPatch {
        toolErrors := toolErrors + 1;
      }
      return Decided(decision.stop, submitted, feedback);
    }

    /** The assessment of a submission that raised. */
    method JudgeFailure(ghost before: RunState, rest: seq<RawCall>, kind: ErrorKind) returns (signal: Signal)
      requires Attempting(before) && store.patches == before.patches && store.log == StartedLog(before)
      requires toolErrors == Failures(steps) + InvalidStored(before.log)
      modifies this`messages, this`toolErrors, this`run, this`stopped
      modifies store`log, repairs, patches`workspace
      ensures Valid() && Tried(cfg, old(run), run, SubmitFailed(kind)) && toolErrors == old(toolErrors)
      ensures SignalIs(signal, SubmitFailed(kind), old(messages), rest)
    {
      var decision, verdict := AssessFailure(before, kind);
      assert toolErrors == Failures(steps) + InvalidStored(store.log);
      signal := Conclude(rest, decision, verdict, SubmitFailed(kind), None);
    }

    /** The assessment of a stored patch, and what follows from it. */
    method JudgeStored(ghost before: RunState, rest: seq<RawCall>, patch: Patch, ghost rows: seq<Patch>, ghost log: seq<Event>)
      returns (signal: Signal, ghost judged: Verdict)
      requires Attempting(before)
      requires store.patches == rows && store.log == log && JustStored(cfg, before, patch, rows, log)
      requires toolErrors == Failures(steps) + InvalidStored(before.log)
      modifies this`messages, this`toolErrors, this`run, this`stopped
      modifies planning, candidates, store`log, repairs, patches`workspace
      ensures Valid() && Tried(cfg, old(run), run, WithVerdict(patch, judged))
      ensures toolErrors == old(toolErrors) + if Costs(WithVerdict(patch, judged)) then 1 else 0
      ensures SignalIs(signal, WithVerdict(patch, judged), old(messages), rest)
    {
      var decision, verdict := AssessPatch(before, patch, rows, log);
      judged := verdict;
      signal := Conclude(rest, decision, verdict, WithVerdict(patch, verdict), Some(patch.id));
    }

    // --------------------------------------------------------------------- run

    ghost predicate WithinBudget()
      reads this
    {
      modelCalls <= cfg.maxSteps && |steps| <= cfg.maxSteps && toolErrors <= cfg.maxToolErrors
    }

    ghost predicate EndsAs(end: LoopEnd)
      reads this
    {
      end == EndOf(cfg, LastSubmission(run), stopped, steps, toolErrors) && UsesBudget(cfg, end, steps, modelCalls)
    }

    /** One call of a batch, `rest` being the calls after it; `began` says that it began an attempt. */
    method HandleOne(call: RawCall, rest: seq<RawCall>) returns (progress: Progress, ghost success: bool, ghost began: bool)
      requires Valid() && !stopped && WithinBudget() && toolErrors < cfg.maxToolErrors && |steps| < cfg.maxSteps
      modifies this`messages, this`steps, this`toolErrors, this`run, this`stopped, this`trials
      modifies planning, candidates, store, repairs, patches`workspace
      ensures Valid() && WithinBudget() && steps == old(steps) + [Step(RawName(call), success)]
      ensures OneDone(Attempts(old(run)), Attempts(run), old(messages), messages, call, rest, success, began, progress)
      ensures !progress.Ends? ==> !stopped && toolErrors < cfg.maxToolErrors
      ensures progress.Ends? ==> EndsAs(progress.end)
      ensures began <==> CallsSubmit(call, registry) && MaySubmitPatch(cfg, Current(old(run)))
    {
      if CallsSubmit(call, registry) {
        began := MaySubmitPatch(cfg, Current(run));
        progress, success := AfterSubmission(call, rest);
      } else {
        began := false;
        progress, success := AfterCall(call, rest);
      }
    }

    /** A call other than a submission, and how the loop goes on. */
    method AfterCall(call: RawCall, ghost rest: seq<RawCall>) returns (progress: Progress, ghost success: bool)
      requires Valid() && !stopped && WithinBudget() && toolErrors < cfg.maxToolErrors && |steps| < cfg.maxSteps
      requires !CallsSubmit(call, registry)
      modifies this`messages, this`steps, this`toolErrors, this`run, this`stopped, this`trials
      modifies planning, candidates, store, repairs, patches`workspace
      ensures Valid() && WithinBudget() && steps == old(steps) + [Step(RawName(call), success)]
      ensures OneDone(Attempts(old(run)), Attempts(run), old(messages), messages, call, rest, success, false, progress)
      ensures !progress.Ends? ==> !stopped && toolErrors < cfg.maxToolErrors
      ensures progress.Ends? ==> EndsAs(progress.end)
    {
      var ok;
      ghost var action;
      ok, action := HandleCall(call);
      success := ok;
      CrashStops(cfg, run);
      progress := if toolErrors >= cfg.maxToolErrors then Ends(Returned(MaxToolErrorsReached, None)) else GoesOn;
    }

    /** A submission, and how the loop goes on. */
    method AfterSubmission(call: RawCall, rest: seq<RawCall>) returns (progress: Progress, ghost success: bool)
      requires Valid() && !stopped && WithinBudget() && toolErrors < cfg.maxToolErrors && |steps| < cfg.maxSteps
      requires CallsSubmit(call, registry)
      modifies this`messages, this`steps, this`toolErrors, this`run, this`stopped, this`trials
      modifies planning, candidates, store, repairs, patches`workspace
      ensures Valid() && WithinBudget() && steps == old(steps) + [Step(RawName(call), success)]
      ensures OneDone(Attempts(old(run)), Attempts(run), old(messages), messages, call, rest, success,
                      MaySubmitPatch(cfg, Current(old(run))), progress)
      ensures !progress.Ends? ==> !stopped && toolErrors < cfg.maxToolErrors
      ensures progress.Ends? ==> EndsAs(progress.end)
    {
      var signal;
      ghost var tried;
      signal, tried := HandleSubmission(call, rest);
      success := !signal.GateClosed? && !tried.Submission().SubmitFailed?;
      if signal.GateClosed? {
        CrashStops(cfg, run);
        progress := if toolErrors >= cfg.maxToolErrors then Ends(Returned(MaxToolErrorsReached, None)) else GoesOn;
        return;
      }
      AfterTry(cfg, old(run), tried.Submission());
      EndAfterTry(cfg, tried.Submission(), stopped, old(steps), RawName(call), toolErrors);
      match signal
      case Escaped =>
        progress := Ends(Raised);
        BegunIsDone(Attempts(old(run)), old(messages), messages, call, rest, success, "", progress);
      case Decided(stop, submitted, feedback) =>
        progress :=
          if toolErrors >= cfg.maxToolErrors then Ends(Returned(MaxToolErrorsReached, submitted))
          else if stop then Ends(Returned(PatchSubmitted, submitted))
          else NextTurn;
        BegunIsDone(Attempts(old(run)), old(messages), messages, call, rest, success, feedback, progress);
    }

    /** The calls of one reply, in order; `None` when the loop goes on to the next model call. */
    method HandleBatch(calls: seq<RawCall>, ghost x: Exchange) returns (end: Option<LoopEnd>)
      requires Valid() && !stopped && calls != []
      requires WithinBudget() && toolErrors < cfg.maxToolErrors
      requires x.reply.Response? && x.reply.calls == calls && x.trace == steps && x.attempts == Attempts(run)
      requires messages == x.history + [Assistant(x.reply.content, calls)]
      modifies this`messages, this`steps, this`toolErrors, this`run, this`stopped, this`trials
      modifies planning, candidates, store, repairs, patches`workspace
      ensures Valid() && WithinBudget()
      ensures end.None? ==> !stopped && toolErrors < cfg.maxToolErrors
      ensures end.None? ==> Continues(x, messages, steps, Attempts(run), registry)
      ensures end.Some? ==> EndsAs(end.value) && EndedIn(x, steps, messages)
    {
      var i := 0;
      ghost var taken: seq<Step> := [];
      NothingHandled(x);
      while i < |calls|
        invariant 0 <= i <= |calls|
        invariant Valid() && !stopped && WithinBudget() && toolErrors < cfg.maxToolErrors
        invariant steps == x.trace + taken && |taken| == i && Handled(x, taken, messages) && Attempts(run) == x.attempts
      {
        if |steps| >= cfg.maxSteps {
          CrashStops(cfg, run);
          assert Stands(x, taken, messages);
          return Some(Returned(MaxStepsReached, None));
        }
        var progress;
        progress, taken := HandleNext(calls[i], calls[i + 1..], x, taken);
        match progress
        case Ends(ended) => return Some(ended);
        case NextTurn => return None;
        case GoesOn => i := i + 1;
      }
      AllHandled(x, taken, messages, registry);
      return None;
    }

    /** The next call of a batch, after those handled so far. */
    method HandleNext(call: RawCall, rest: seq<RawCall>, ghost x: Exchange, ghost taken: seq<Step>)
      returns (progress: Progress, ghost more: seq<Step>)
      requires Valid() && !stopped && WithinBudget() && toolErrors < cfg.maxToolErrors && |steps| < cfg.maxSteps
      requires steps == x.trace + taken && Handled(x, taken, messages) && Attempts(run) == x.attempts
      requires |taken| < |x.reply.calls| && call == x.reply.calls[|taken|] && rest == x.reply.calls[|taken| + 1..]
      modifies this`messages, this`steps, this`toolErrors, this`run, this`stopped, this`trials
      modifies planning, candidates, store, repairs, patches`workspace
      ensures Valid() && WithinBudget() && steps == x.trace + more && |more| == |taken| + 1
      ensures !progress.Ends? ==> !stopped && toolErrors < cfg.maxToolErrors
      ensures progress.GoesOn? ==> Handled(x, more, messages) && Attempts(run) == x.attempts
      ensures progress.NextTurn? ==> Continues(x, messages, steps, Attempts(run), registry)
      ensures progress.Ends? ==> EndsAs(progress.end) && EndedIn(x, steps, messages)
    {
      ghost var earlier, success, began := messages, false, false;
      progress, success, began := HandleOne(call, rest);
      more := taken + [Step(RawName(call), success)];
      assert steps == x.trace + more;
      NextHandled(x, taken, Attempts(run), earlier, messages, success, began, progress, registry);
    }

    /** The reply joins the history; without calls the model is asked to go on. */
    method Append(content: string, calls: seq<RawCall>)
      modifies this`messages
      ensures messages == old(messages) + [Assistant(content, calls)] + if calls == [] then [User(CONTINUE)] else []
    {
      messages := messages + [Assistant(content, calls)];
      if calls == [] {
        messages := messages + [User(CONTINUE)];
      }
    }

    /** One model call and the calls of its reply; `None` when the loop goes on. */
    method Turn(ghost prompts: seq<Message>) returns (end: Option<LoopEnd>)
      requires Valid() && !stopped && WithinBudget() && Conversed(prompts) && Ready(prompts)
      requires PhaseOf(prompts) == Open && toolErrors < cfg.maxToolErrors && modelCalls < cfg.maxSteps
      modifies this, planning, candidates, store, repairs, patches`workspace
      ensures Valid() && WithinBudget() && modelCalls == old(modelCalls) + 1 && Conversed(prompts)
      ensures end.None? ==> !stopped && toolErrors < cfg.maxToolErrors && Ready(prompts)
      ensures end.Some? ==> Over(end.value)
    {
      modelCalls := modelCalls + 1;
      var reply := GenerateResponse();
      ghost var x := exchanges[|exchanges| - 1];
      ConversesSnoc(prompts, old(exchanges), x, registry);
      end := TakeReply(reply, x);
      assert exchanges == old(exchanges) + [x];
      assert end.Some? ==> Ended(x, end.value);
    }

    /** What the loop does with a reply. */
    method TakeReply(reply: Reply, ghost x: Exchange) returns (end: Option<LoopEnd>)
      requires Valid() && !stopped && WithinBudget()
      requires toolErrors < cfg.maxToolErrors
      requires x == Exchange(messages, steps, Attempts(run), reply)
      modifies this`messages, this`steps, this`toolErrors, this`run, this`stopped, this`trials
      modifies planning, candidates, store, repairs, patches`workspace
      ensures Valid() && WithinBudget()
      ensures end.None? ==> !stopped && toolErrors < cfg.maxToolErrors
      ensures end.None? ==> Continues(x, messages, steps, Attempts(run), registry)
      ensures end.Some? ==> Ended(x, end.value)
    {
      if reply.ProviderError? {
        return Some(Returned(ProviderFailed, None));
      }
      Append(reply.content, reply.calls);
      if reply.calls == [] {
        Nudged(x, registry);
        return None;
      }
      end := HandleBatch(reply.calls, x);
    }

    /** The run ended with its last exchange. */
    ghost predicate Over(end: LoopEnd)
      reads this
    {
      exists x :: exchanges != [] && x == exchanges[|exchanges| - 1] && Ended(x, end)
    }

    ghost predicate Ended(x: Exchange, end: LoopEnd)
      reads this
    {
      EndedWith(cfg, x, run, stopped, messages, steps, toolErrors, modelCalls, end, registry)
    }

    /** The model calls so far. */
    ghost predicate Conversed(prompts: seq<Message>)
      reads this
    {
      |exchanges| == modelCalls && Converses(prompts, exchanges, registry)
    }

    /** The loop variables are what the loop made of the last exchange. */
    ghost predicate Ready(prompts: seq<Message>)
      reads this
    {
      Follows(prompts, exchanges, messages, steps, Attempts(run), registry)
    }

    /** The loop variables at the start of `run`. */
    method Start(system: string, developer: string, issue: string)
      requires InRun() && run == NOT_STARTED && !stopped && exchanges == []
      modifies this`messages, this`steps, this`modelCalls, this`toolErrors
      ensures Valid() && WithinBudget()
      ensures Conversed(InitialMessages(system, developer, issue)) && Ready(InitialMessages(system, developer, issue))
      ensures messages == InitialMessages(system, developer, issue) && PhaseOf(messages) == Open
      ensures toolErrors == 0 && modelCalls == 0 && steps == []
    {
      InitialMessagesAreOpen(system, developer, issue);
      messages := InitialMessages(system, developer, issue);
      steps, modelCalls, toolErrors := [], 0, 0;
      assert store.log == FRESH.log;
    }

    /** `_step_limit_result`, once the loop is left. */
    method StepLimitResult(ghost prompts: seq<Message>) returns (end: LoopEnd)
      requires Valid() && !stopped && toolErrors < cfg.maxToolErrors && Ready(prompts) && exchanges != []
      requires modelCalls == cfg.maxSteps || |steps| == cfg.maxSteps
      ensures Over(end)
    {
      ghost var x := exchanges[|exchanges| - 1];
      OutOfSteps(cfg, x, run, messages, steps, toolErrors, modelCalls, registry);
      end := Returned(MaxStepsReached, None);
      assert Ended(x, end);
    }

    /**
     Terminates for any provider, within its budgets. Every history handed to the provider answers
     all its tool calls and is what the exchange before it leads to; the errors counted are the
     failed steps and the stored patches judged invalid; the reply, the errors and the assessments
     decide how the run ends; and the services went through a legal run of the protocol, so all its
     theorems apply.
     */
    method Run(system: string, developer: string, issue: string) returns (end: LoopEnd)
      requires InRun() && run == NOT_STARTED && !stopped && exchanges == []
      modifies this, planning, candidates, store, repairs, patches`workspace
      ensures Valid() && WithinBudget() && Conversed(InitialMessages(system, developer, issue))
      ensures Over(end)
    {
      Start(system, developer, issue);
      ghost var prompts := messages;
      while modelCalls < cfg.maxSteps && |steps| < cfg.maxSteps
        invariant Valid() && !stopped && WithinBudget() && Conversed(prompts) && Ready(prompts)
        invariant toolErrors < cfg.maxToolErrors
        invariant modelCalls == 0 ==> steps == []
        decreases cfg.maxSteps - modelCalls
      {
        var turnEnd := Turn(prompts);
        if turnEnd.Some? {
          return turnEnd.value;
        }
      }
      end := StepLimitResult(prompts);
    }

    /**
     `finish` at the end of a run: the choice, and whether the restore gives it back. A run that
     stops on the first passing patch always gets back what it accepts; for the others see
     `KeptCandidates.PassingCandidateRefused`.
     */
    method FinishRun(stop: StopReason) returns (choice: Selection, restored: Result<(), ErrorKind>)
      requires InRun()
      modifies store`patches, store`finalPatchPassedTests, patches`workspace
      ensures choice == Selected(StateAfter(cfg, run.actions).repair, stop)
      ensures ProtocolTheorems.RightChoice(store.log, stop, choice)
      ensures FinalPatchId(store.patches) == choice.patch && store.finalPatchPassedTests == choice.passed
      ensures store.patches == Flagged(StateAfter(cfg, run.actions).patches, choice.patch)
      ensures FinishedWith(cfg, patches.env, store.log, store.patches, old(patches.workspace), choice, patches.workspace, restored)
    {
      ChoiceIsKnown(cfg, run, patches.env, patches.workspace, stop);
      ghost var rows := store.patches;
      ghost var left, s := patches.workspace, Current(run);
      choice, restored := repairs.Finish(stop);
      ProtocolTheorems.FinalPatchIsTheChoice(rows, choice.patch);
      FinishIsKnown(cfg, patches.env, s, left, choice, patches.workspace, restored);
    }

    /** The run and the selection after it, as the orchestrator calls them; `left` is the workspace between the two. */
    method RunAndFinish(system: string, developer: string, issue: string)
      returns (end: LoopEnd, choice: Selection, restored: Result<(), ErrorKind>, ghost left: PatchWorkspace.Tree)
      requires InRun() && run == NOT_STARTED && !stopped && exchanges == []
      modifies this, planning, candidates, store, repairs, patches`workspace
      ensures var stop := if end.Raised? then UnrecoverableError else end.stop;
              && Legal(cfg, run.actions)
              && choice == Selected(StateAfter(cfg, run.actions).repair, stop)
              && ProtocolTheorems.RightChoice(store.log, stop, choice)
      ensures FinalPatchId(store.patches) == choice.patch && store.finalPatchPassedTests == choice.passed
      ensures store.patches == Flagged(StateAfter(cfg, run.actions).patches, choice.patch)
      ensures FinishedWith(cfg, patches.env, store.log, store.patches, left, choice, patches.workspace, restored)
    {
      end := Run(system, developer, issue);
      ExecutionIsRun(cfg, run);
      left := patches.workspace;
      choice, restored := FinishRun(if end.Raised? then UnrecoverableError else end.stop);
    }
  }

}
