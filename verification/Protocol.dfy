/**
 The agent run protocol as a transition system on values: what planning, candidate files,
 hypotheses, repairs and the patch store do to a run, one tool call at a time
 (backend/app/agents/{planning,candidate_files,hypotheses,repairs,loop}.py).

 The classes in AgentServices and AgentLoop are proved to take exactly these steps.
 */
module Protocol {
  import opened Wrappers
  import EditScope

  type Path = string
  type PatchId = nat

  datatype Config = Config(
    maxSteps: nat,
    maxToolErrors: nat,
    enableTestTool: bool,
    maxRepairAttempts: nat,
    runTestsAfterPatch: bool,
    stopOnFirstPassingPatch: bool,
    requireHypothesisUpdate: bool,
    requirePlanUpdate: bool,
    requireCandidateUpdate: bool,
    requirePlanBeforeEdit: bool,
    maxPlanRevisions: nat,
    planMinEvidenceFiles: nat,
    requireHypothesisBeforePatch: bool,
    requireCandidatesBeforeEdit: bool,
    maxCandidateFiles: nat,
    guardrailOverride: bool,
    policy: EditScope.Policy,
    kind: Path -> EditScope.Kind)
  {
    /** The bounds AgentLoop and AgentRunConfig put on a configuration. */
    predicate Valid() {
      maxSteps >= 1 && maxToolErrors >= 1
    }
  }

  datatype ToolName =
    | RetrieveRelevantFiles | ListFiles | SearchCode | ReadFile | WriteFile | GetDiff | RunTests
    | SubmitCandidateFiles | SubmitPlan | SubmitHypothesis | SubmitPatch

  // ----------------------------------------------------------------- planning

  datatype PlanState = PlanState(evidence: set<Path>, revision: nat, accepted: bool)

  /** A plan that passed schema, path and size checks; both file lists without duplicates. */
  datatype PlanInput = PlanInput(inspected: set<Path>, likely: set<Path>)

  predicate PlanAccepted(cfg: Config, p: PlanState, plan: Option<PlanInput>) {
    && p.revision + 1 <= 1 + cfg.maxPlanRevisions
    && plan.Some?
    && plan.value.inspected <= p.evidence
    && |plan.value.inspected| >= cfg.planMinEvidenceFiles
  }

  /** Every submission takes a revision and revokes the plan before it, accepted or not. */
  function PlanNext(cfg: Config, p: PlanState, plan: Option<PlanInput>): PlanState {
    PlanState(p.evidence, p.revision + 1, PlanAccepted(cfg, p, plan))
  }

  function PlanObserve(p: PlanState, tool: ToolName, files: set<Path>): PlanState {
    if tool in {ReadFile, SearchCode, RetrieveRelevantFiles} then p.(evidence := p.evidence + files) else p
  }

  // ---------------------------------------------------------- candidate files

  datatype CandidateState = CandidateState(
    read: set<Path>, retrieved: set<Path>, submitted: bool, revision: nat, editing: bool)

  function CandidateObserve(c: CandidateState, tool: ToolName, files: set<Path>): CandidateState {
    match tool
    case ReadFile => c.(read := c.read + files)
    case RetrieveRelevantFiles => c.(retrieved := c.retrieved + files)
    case WriteFile => c.(editing := true)
    case _ => c
  }

  /** The rankings `submit_candidate_files` takes: open, bounded, without repeats, all with evidence. */
  predicate RankingAccepted(cfg: Config, c: CandidateState, ranked: seq<Path>) {
    && !c.editing
    && 1 <= |ranked| <= cfg.maxCandidateFiles
    && (forall i, j | 0 <= i < j < |ranked| :: ranked[i] != ranked[j])
    && (forall i | 0 <= i < |ranked| :: ranked[i] in c.read + c.retrieved)
  }

  // --------------------------------------------------------------- hypotheses

  datatype Status = Active | Revised | Rejected | Confirmed

  datatype Hypothesis = Hypothesis(status: Status, revision: nat, supersededBy: Option<nat>)

  predicate Live(s: Status) {
    s == Active || s == Confirmed
  }

  /** A live submission marks older live entries as revised; any other one leaves them alone. */
  function Superseded(hs: seq<Hypothesis>, newer: nat): seq<Hypothesis> {
    seq(|hs|, i requires 0 <= i < |hs| =>
      if Live(hs[i].status) then hs[i].(status := Revised, supersededBy := Some(newer)) else hs[i])
  }

  function HypothesisNext(hs: seq<Hypothesis>, status: Status): seq<Hypothesis> {
    var revision := |hs| + 1;
    (if Live(status) then Superseded(hs, revision) else hs) + [Hypothesis(status, revision, None)]
  }

  /** Revision of the newest live entry, 0 if there is none (`active_run_hypothesis`). */
  function ActiveRevision(hs: seq<Hypothesis>): nat {
    if hs == [] then 0
    else if Live(hs[|hs| - 1].status) then hs[|hs| - 1].revision
    else ActiveRevision(hs[..|hs| - 1])
  }

  // ------------------------------------------------------------------ repairs

  /** `ReasoningRevisions`; 0 stands for a missing revision, as every use in the source treats it. */
  datatype Revisions = Revisions(hypothesis: nat, plan: nat, candidates: nat)

  datatype Outcome = Outcome(valid: bool, passed: Option<bool>)

  /** How an attempt was assessed; `Errored` is an assessment that re-raised. */
  datatype Verdict = Judged(valid: bool, passed: Option<bool>) | Errored

  datatype Repair = Repair(
    attempt: nat,
    used: nat,
    last: Option<PatchId>,
    passing: Option<PatchId>,
    outcomes: map<PatchId, Outcome>,
    required: Option<Revisions>,
    revisions: Revisions)

  /** `check_action`: what a failed attempt demands before the next edit or submission. */
  predicate ActionAllowed(cfg: Config, required: Option<Revisions>, tool: ToolName, now: Revisions) {
    required.Some? ==>
      && (tool in {WriteFile, SubmitPatch} && cfg.requirePlanUpdate ==> now.plan > required.value.plan)
      && (tool == WriteFile && cfg.requireCandidateUpdate ==> now.candidates > required.value.candidates)
      && (tool == SubmitPatch && cfg.requireHypothesisUpdate ==> now.hypothesis > required.value.hypothesis)
  }

  predicate More(cfg: Config, r: Repair) {
    r.attempt < 1 + cfg.maxRepairAttempts
  }

  predicate Stops(cfg: Config, r: Repair, v: Verdict) {
    v.Errored?
    || !More(cfg, r)
    || (v.valid && v.passed.None?)
    || (v.valid && v.passed == Some(true) && cfg.stopOnFirstPassingPatch)
  }

  predicate Reconsiders(cfg: Config, r: Repair, v: Verdict) {
    v.Judged? && v.passed == Some(false) && !Stops(cfg, r, v)
  }

  predicate Settles(v: Verdict) {
    v.Judged? && v.valid && v.passed != Some(false)
  }

  function Began(r: Repair, now: Revisions): Repair {
    r.(attempt := r.attempt + 1, used := r.attempt, revisions := now)
  }

  /** The repair service after `assess`; `patch` is the stored patch of the submission, if any. */
  function Assessed(cfg: Config, r: Repair, patch: Option<PatchId>, v: Verdict): Repair {
    var last := if patch.Some? then patch else r.last;
    if v.Errored? then r.(last := last)
    else r.(
           last := last,
           outcomes := if patch.Some?
                       then r.outcomes[patch.value := Outcome(v.valid, if v.valid then v.passed else Some(false))]
                       else r.outcomes,
           passing := if v.valid && v.passed == Some(true) then patch else r.passing,
           required := if Reconsiders(cfg, r, v) then Some(r.revisions)
                       else if Settles(v) then None else r.required)
  }

  // ------------------------------------------------------- event log and run

  datatype Event =
    | ToolSucceeded(tool: ToolName, files: set<Path>)
    | CandidatesRanked(revision: nat, ranked: seq<Path>)
    | PlanReviewed(revision: nat, accepted: bool, likely: set<Path>)
    | PatchStored(id: PatchId, version: nat, sources: set<Path>)
    | AttemptStarted(number: nat, revisions: Revisions)
    | AttemptCompleted(number: nat, revisions: Revisions, patch: Option<PatchId>, verdict: Verdict)
    | RepairLimitReached

  datatype Patch = Patch(id: PatchId, version: nat, text: string, files: set<Path>, selected: bool)

  datatype RunState = RunState(
    plan: PlanState,
    candidates: CandidateState,
    hypotheses: seq<Hypothesis>,
    repair: Repair,
    patches: seq<Patch>,
    log: seq<Event>,
    stopped: bool)

  /** A run as the orchestrator hands it to the loop: nothing submitted, no patch, no attempt. */
  const FRESH := RunState(
    PlanState({}, 0, false),
    CandidateState({}, {}, false, 0, false),
    [],
    Repair(0, 0, None, None, map[], None, Revisions(0, 0, 0)),
    [],
    [],
    false)

  function CurrentRevisions(s: RunState): Revisions {
    Revisions(ActiveRevision(s.hypotheses), if s.plan.accepted then s.plan.revision else 0, s.candidates.revision)
  }

  function Members(ps: seq<Path>): set<Path> {
    set p | p in ps
  }

  /** The newest ranking in the event table (`_latest_candidate_files`). */
  function LatestRanking(log: seq<Event>): set<Path> {
    if log == [] then {}
    else if log[|log| - 1].CandidatesRanked? then Members(log[|log| - 1].ranked)
    else LatestRanking(log[..|log| - 1])
  }

  /** The newest accepted plan's files (`_latest_accepted_plan_files`). */
  function LatestPlanned(log: seq<Event>): set<Path> {
    if log == [] then {}
    else if log[|log| - 1].PlanReviewed? && log[|log| - 1].accepted then log[|log| - 1].likely
    else LatestPlanned(log[..|log| - 1])
  }

  function Sources(cfg: Config, files: set<Path>): set<Path> {
    set f | f in files && EditScope.IsSource(cfg.kind(f))
  }

  predicate ScopeAccepts(cfg: Config, log: seq<Event>, files: set<Path>) {
    cfg.guardrailOverride
    || EditScope.Violations(files, cfg.kind, LatestRanking(log), LatestPlanned(log), cfg.policy) == []
  }

  function MaxVersion(patches: seq<Patch>): nat {
    if patches == [] then 0
    else
      var rest := MaxVersion(patches[..|patches| - 1]);
      if patches[|patches| - 1].version > rest then patches[|patches| - 1].version else rest
  }

  predicate FreshId(patches: seq<Patch>, id: PatchId) {
    forall i | 0 <= i < |patches| :: patches[i].id != id
  }

  datatype ErrorKind = PatchApplyError | PatchSafetyError | OtherError

  /** What `submit_patch` did once the attempt had begun. */
  datatype Submission =
    | SubmitFailed(kind: ErrorKind)
    | InvalidResult
    | Submitted(id: PatchId, text: string, files: set<Path>, verdict: Verdict)

  /** One tool call that changed the run. */
  datatype Action =
    | Observe(tool: ToolName, files: set<Path>)
    | PlanCall(plan: Option<PlanInput>)
    | RankCall(ranked: seq<Path>)
    | HypothesisCall(status: Status)
    | AttemptCall(submission: Submission)

  predicate MayWrite(cfg: Config, s: RunState) {
    && ActionAllowed(cfg, s.repair.required, WriteFile, CurrentRevisions(s))
    && (cfg.requirePlanBeforeEdit ==> s.plan.accepted)
    && (cfg.requireCandidatesBeforeEdit ==> s.candidates.submitted)
  }

  predicate MaySubmitPatch(cfg: Config, s: RunState) {
    && ActionAllowed(cfg, s.repair.required, SubmitPatch, CurrentRevisions(s))
    && (cfg.requirePlanBeforeEdit ==> s.plan.accepted)
    && (cfg.requireHypothesisBeforePatch ==> ActiveRevision(s.hypotheses) > 0)
  }

  /** The gates that let an action happen; everything in an action is otherwise adversarial. */
  predicate Enabled(cfg: Config, s: RunState, a: Action) {
    && !s.stopped
    && match a
       case Observe(tool, _) =>
         && tool !in {SubmitCandidateFiles, SubmitPlan, SubmitHypothesis, SubmitPatch}
         && (tool == WriteFile ==> MayWrite(cfg, s))
       case PlanCall(_) => true
       case RankCall(ranked) => RankingAccepted(cfg, s.candidates, ranked)
       case HypothesisCall(_) => true
       case AttemptCall(submission) =>
         && MaySubmitPatch(cfg, s)
         && More(cfg, s.repair)
         && (submission.Submitted? ==>
               FreshId(s.patches, submission.id) && ScopeAccepts(cfg, s.log, submission.files))
  }

  function VerdictOf(sub: Submission): Verdict {
    match sub
    case SubmitFailed(kind) => if kind == OtherError then Errored else Judged(false, None)
    case InvalidResult => Errored
    case Submitted(_, _, _, v) => v
  }

  function PatchOf(sub: Submission): Option<PatchId> {
    if sub.Submitted? then Some(sub.id) else None
  }

  // The event table during a submission: after the start, after the tool, after the assessment.

  function StartedLog(s: RunState): seq<Event> {
    var began := Began(s.repair, CurrentRevisions(s));
    s.log + [AttemptStarted(began.attempt, began.revisions)]
  }

  function StoredLog(cfg: Config, s: RunState, sub: Submission): seq<Event> {
    if sub.Submitted? then
      StartedLog(s) + [PatchStored(sub.id, MaxVersion(s.patches) + 1, Sources(cfg, sub.files))]
      + [ToolSucceeded(SubmitPatch, sub.files)]
    else StartedLog(s)
  }

  predicate ReachesLimit(cfg: Config, r: Repair, v: Verdict) {
    v.Judged? && !More(cfg, r) && (!v.valid || v.passed == Some(false))
  }

  function CompletedLog(cfg: Config, log: seq<Event>, r: Repair, patch: Option<PatchId>, v: Verdict): seq<Event> {
    var completed := log + [AttemptCompleted(r.attempt, r.revisions, patch, v)];
    if ReachesLimit(cfg, r, v) then completed + [RepairLimitReached] else completed
  }

  /** `store_generated_patch`: a new row with the next version number. */
  function Stored(patches: seq<Patch>, sub: Submission): seq<Patch> {
    if sub.Submitted? then patches + [Patch(sub.id, MaxVersion(patches) + 1, sub.text, sub.files, false)] else patches
  }

  /** A whole submission: begin the attempt, run the tool, store and assess the patch. */
  function AttemptNext(cfg: Config, s: RunState, sub: Submission): RunState {
    var began := Began(s.repair, CurrentRevisions(s));
    if sub.InvalidResult? then s.(repair := began, log := StartedLog(s), stopped := true)
    else
      var v := VerdictOf(sub);
      s.(repair := Assessed(cfg, began, PatchOf(sub), v),
         patches := Stored(s.patches, sub),
         log := CompletedLog(cfg, StoredLog(cfg, s, sub), began, PatchOf(sub), v),
         candidates := if Reconsiders(cfg, began, v) then s.candidates.(editing := false) else s.candidates,
         stopped := Stops(cfg, began, v))
  }

  function Next(cfg: Config, s: RunState, a: Action): RunState {
    match a
    case Observe(tool, files) =>
      s.(plan := PlanObserve(s.plan, tool, files),
         candidates := CandidateObserve(s.candidates, tool, files),
         log := s.log + [ToolSucceeded(tool, files)])
    case PlanCall(plan) =>
      var next := PlanNext(cfg, s.plan, plan);
      s.(plan := next,
         log := s.log + [PlanReviewed(next.revision, next.accepted, if next.accepted then plan.value.likely else {})])
    case RankCall(ranked) =>
      s.(candidates := s.candidates.(submitted := true, revision := s.candidates.revision + 1),
         log := s.log + [CandidatesRanked(s.candidates.revision + 1, ranked)])
    case HypothesisCall(status) => s.(hypotheses := HypothesisNext(s.hypotheses, status))
    case AttemptCall(sub) => AttemptNext(cfg, s, sub)
  }

  // ------------------------------------------------------------------- finish

  datatype StopReason = PatchSubmitted | MaxStepsReached | MaxToolErrorsReached | ProviderFailed | UnrecoverableError

  predicate Fatal(stop: StopReason) {
    stop !in {PatchSubmitted, MaxStepsReached, MaxToolErrorsReached}
  }

  datatype Selection = Selection(patch: Option<PatchId>, valid: bool, passed: Option<bool>, accepted: bool)

  /** The choice `finish` makes, before it flags the patch and restores the workspace. */
  function Selected(r: Repair, stop: StopReason): Selection {
    var patch := if r.passing.Some? then r.passing else r.last;
    var outcome := if patch.Some? && patch.value in r.outcomes then r.outcomes[patch.value] else Outcome(false, None);
    Selection(patch, outcome.valid, outcome.passed,
              patch.Some? && outcome.valid && outcome.passed != Some(false) && !Fatal(stop))
  }

  function Flagged(patches: seq<Patch>, choice: Option<PatchId>): seq<Patch> {
    seq(|patches|, i requires 0 <= i < |patches| => patches[i].(selected := choice == Some(patches[i].id)))
  }

  predicate Outranks(p: Patch, q: Patch) {
    (p.selected && !q.selected) || (p.selected == q.selected && p.version > q.version)
  }

  /** `AgentRun.generated_patch`: the first maximum by (is_selected, version). */
  function GeneratedPatch(patches: seq<Patch>): Option<Patch> {
    if patches == [] then None
    else
      var best, p := GeneratedPatch(patches[..|patches| - 1]), patches[|patches| - 1];
      if best.None? || Outranks(p, best.value) then Some(p) else best
  }

  /** `AgentRun.final_patch_id`. */
  function FinalPatchId(patches: seq<Patch>): Option<PatchId> {
    var best := GeneratedPatch(patches);
    if best.Some? && best.value.selected then Some(best.value.id) else None
  }

  // --------------------------------------------------------------------- runs

  /** Runs: each action was enabled in the state the actions before it led to. */
  ghost predicate Legal(cfg: Config, trace: seq<Action>) {
    trace == [] || (
      && Legal(cfg, trace[..|trace| - 1])
      && Enabled(cfg, StateAfter(cfg, trace[..|trace| - 1]), trace[|trace| - 1]))
  }

  function StateAfter(cfg: Config, trace: seq<Action>): RunState {
    if trace == [] then FRESH else Next(cfg, StateAfter(cfg, trace[..|trace| - 1]), trace[|trace| - 1])
  }

  /** A run written out: its actions, and the states before, between and after them. */
  datatype Execution = Execution(states: seq<RunState>, actions: seq<Action>)

  const NOT_STARTED := Execution([FRESH], [])

  function Current(run: Execution): RunState {
    if run.states == [] then FRESH else run.states[|run.states| - 1]
  }

  ghost predicate Executes(cfg: Config, run: Execution) {
    && |run.states| == |run.actions| + 1 && run.states[0] == FRESH
    && forall i | 0 <= i < |run.actions| :: StepAt(cfg, run, i)
  }

  ghost predicate StepAt(cfg: Config, run: Execution, i: int)
    requires 0 <= i < |run.actions| < |run.states|
  {
    Enabled(cfg, run.states[i], run.actions[i]) && run.states[i + 1] == Next(cfg, run.states[i], run.actions[i])
  }

  function Extended(cfg: Config, run: Execution, a: Action): Execution {
    Execution(run.states + [Next(cfg, Current(run), a)], run.actions + [a])
  }

  lemma ExecutesSnoc(cfg: Config, run: Execution, a: Action)
    requires Executes(cfg, run) && Enabled(cfg, Current(run), a)
    ensures Executes(cfg, Extended(cfg, run, a)) && Current(Extended(cfg, run, a)) == Next(cfg, Current(run), a)
  {
    var more := Extended(cfg, run, a);
    forall i | 0 <= i < |more.actions| ensures StepAt(cfg, more, i) {
      if i < |run.actions| { assert StepAt(cfg, run, i); }
    }
  }

  lemma {:induction false} ExecutionIsLegal(cfg: Config, run: Execution, n: nat)
    requires Executes(cfg, run) && n <= |run.actions|
    ensures Legal(cfg, run.actions[..n]) && StateAfter(cfg, run.actions[..n]) == run.states[n]
  {
    if n > 0 {
      ExecutionIsLegal(cfg, run, n - 1);
      assert StepAt(cfg, run, n - 1);
      assert run.actions[..n][..n - 1] == run.actions[..n - 1];
    }
  }

  /** An execution is a legal run, and ends in the state the run leads to. */
  lemma ExecutionIsRun(cfg: Config, run: Execution)
    requires Executes(cfg, run)
    ensures Legal(cfg, run.actions) && StateAfter(cfg, run.actions) == Current(run)
  {
    ExecutionIsLegal(cfg, run, |run.actions|);
    assert run.actions[..|run.actions|] == run.actions;
  }
}
