/**
 What becomes of the chosen candidate when the run ends: `finish` restores it
 (backend/app/agents/repairs.py:329-381), and that asks the gate again, with the newest ranking.
 */
module KeptCandidates {
  import opened Wrappers
  import opened Protocol
  import opened ProtocolSafety
  import EditScope
  import PatchWorkspace

  // ------------------------------------------------------ stopping on the first pass

  /** The run stopped on the attempt that submitted this patch, which was judged valid. */
  ghost predicate EndsWith(cfg: Config, trace: seq<Action>, patch: Option<PatchId>) {
    && trace != [] && StateAfter(cfg, trace).stopped
    && var a := trace[|trace| - 1];
       && a.AttemptCall? && a.submission.Submitted? && patch == Some(a.submission.id)
       && a.submission.verdict.Judged? && a.submission.verdict.valid
  }

  /** Nothing passed, and the newest patch was not judged valid and untested. */
  predicate Undecided(r: Repair) {
    r.passing.None? && (r.last.Some? && r.last.value in r.outcomes ==> !Good(r.outcomes[r.last.value]))
  }

  predicate Good(outcome: Outcome) {
    outcome.valid && outcome.passed != Some(false)
  }

  lemma AttemptDecides(cfg: Config, s: RunState, sub: Submission)
    requires cfg.stopOnFirstPassingPatch && Undecided(s.repair) && SelectionInv(s)
    requires Enabled(cfg, s, AttemptCall(sub))
    ensures var next := AttemptNext(cfg, s, sub);
            Undecided(next.repair) ||
              (next.stopped && sub.Submitted? && sub.verdict.Judged? && sub.verdict.valid && next.repair.last == Some(sub.id)
               && (next.repair.passing.Some? ==> next.repair.passing == Some(sub.id)))
  {
    var next, v := AttemptNext(cfg, s, sub).repair, VerdictOf(sub);
    if sub.Submitted? && v.Errored? {
      assert next.last == Some(sub.id) && next.outcomes == s.repair.outcomes && sub.id !in next.outcomes;
    } else if sub.Submitted? {
      assert next.outcomes[sub.id] == OutcomeOf(v);
      match v.passed
      case None =>
      case Some(passed) => assert v.valid && passed ==> next.passing == Some(sub.id);
    } else {
      assert next.last == s.repair.last && next.outcomes == s.repair.outcomes && next.passing.None?;
    }
  }

  lemma {:induction false} RunningIsUndecided(cfg: Config, trace: seq<Action>)
    requires Legal(cfg, trace) && cfg.stopOnFirstPassingPatch
    ensures Undecided(StateAfter(cfg, trace).repair) || EndsWith(cfg, trace, StateAfter(cfg, trace).repair.last)
    ensures !StateAfter(cfg, trace).stopped ==> Undecided(StateAfter(cfg, trace).repair)
    ensures var r := StateAfter(cfg, trace).repair; r.passing.Some? ==> r.passing == r.last
  {
    if trace != [] {
      var prefix, a := trace[..|trace| - 1], trace[|trace| - 1];
      var s := StateAfter(cfg, prefix);
      RunningIsUndecided(cfg, prefix);
      Reachable(cfg, prefix);
      if a.AttemptCall? { AttemptDecides(cfg, s, a.submission); } else { OtherAction(cfg, s, a); }
    }
  }

  /** A run that stops on the first passing patch ends with the attempt that submitted what it accepts. */
  lemma AcceptedEndsTheRun(cfg: Config, trace: seq<Action>, stop: StopReason)
    requires Legal(cfg, trace) && cfg.stopOnFirstPassingPatch
    requires Selected(StateAfter(cfg, trace).repair, stop).accepted
    ensures EndsWith(cfg, trace, Selected(StateAfter(cfg, trace).repair, stop).patch)
  {
    RunningIsUndecided(cfg, trace);
  }

  // --------------------------------------------------------- going on after a pass

  /** Tool calls, one after the other. */
  ghost predicate Follows(cfg: Config, before: seq<Action>, a: Action, after: seq<Action>) {
    after == before + [a] && Legal(cfg, after) && StateAfter(cfg, after) == Next(cfg, StateAfter(cfg, before), a)
  }

  lemma GoesOn(cfg: Config, trace: seq<Action>, a: Action)
    requires Legal(cfg, trace) && Enabled(cfg, StateAfter(cfg, trace), a)
    ensures Follows(cfg, trace, a, trace + [a])
  {
    assert (trace + [a])[..|trace|] == trace;
  }

  lemma RankingSnoc(log: seq<Event>, e: Event)
    ensures LatestRanking(log + [e]) == if e.CandidatesRanked? then Members(e.ranked) else LatestRanking(log)
    ensures LatestPlanned(log + [e]) == if e.PlanReviewed? && e.accepted then e.likely else LatestPlanned(log)
  {
    LogSlice(log, e);
  }

  /** Starting an attempt and storing its patch ranks nothing and plans nothing. */
  lemma StoringRanksNothing(cfg: Config, s: RunState, sub: Submission)
    ensures PatchWorkspace.SameEvidence(s.log, StartedLog(s)) && PatchWorkspace.SameEvidence(s.log, StoredLog(cfg, s, sub))
  {
    RankingSnoc(s.log, Started(s));
    if sub.Submitted? {
      var stored := PatchStored(sub.id, MaxVersion(s.patches) + 1, Sources(cfg, sub.files));
      RankingSnoc(StartedLog(s), stored);
      RankingSnoc(StartedLog(s) + [stored], ToolSucceeded(SubmitPatch, sub.files));
    }
  }

  /** Nor does the whole submission. */
  lemma AttemptRanksNothing(cfg: Config, s: RunState, sub: Submission)
    ensures PatchWorkspace.SameEvidence(s.log, AttemptNext(cfg, s, sub).log)
  {
    AttemptLog(cfg, s, sub);
    StoringRanksNothing(cfg, s, sub);
    var l := StoredLog(cfg, s, sub);
    RankingSnoc(l, Completion(s, sub));
    RankingSnoc(l + [Completion(s, sub)], RepairLimitReached);
  }

  /** Two source files, and a configuration that lets a run go on after a passing patch, whatever its other gates ask. */
  predicate GoingOn(cfg: Config, a: Path, b: Path) {
    && a != b && EditScope.IsSource(cfg.kind(a)) && EditScope.IsSource(cfg.kind(b))
    && cfg.policy.requireCandidates && !cfg.guardrailOverride && !cfg.stopOnFirstPassingPatch
    && cfg.maxRepairAttempts >= 2 && cfg.maxCandidateFiles >= 1 && cfg.planMinEvidenceFiles <= 2
  }

  /** The agent read two files, planned with both and ranked the first; so many attempts are over and nothing is demanded. */
  ghost predicate Working(s: RunState, a: Path, b: Path, attempts: nat) {
    && !s.stopped && s.plan.accepted && ActiveRevision(s.hypotheses) > 0 && s.candidates.submitted
    && b in s.candidates.read
    && LatestRanking(s.log) == {a} && LatestPlanned(s.log) == {a, b}
    && s.repair.required.None? && s.repair.attempt == attempts && |s.patches| == attempts
  }

  lemma RankedAlone(cfg: Config, log: seq<Event>, a: Path, b: Path)
    requires GoingOn(cfg, a, b) && LatestPlanned(log) == {a, b}
    ensures LatestRanking(log) == {a} ==> ScopeAccepts(cfg, log, {a})
    ensures LatestRanking(log) == {b} ==> !ScopeAccepts(cfg, log, {a})
  {
    EditScope.NoViolationsMeansJustified({a}, cfg.kind, LatestRanking(log), LatestPlanned(log), cfg.policy);
    assert LatestRanking(log) == {b} ==>
        !EditScope.Justified(a, cfg.kind(a), LatestRanking(log), LatestPlanned(log), cfg.policy);
  }

  function ReadAndPlan(a: Path, b: Path): seq<Action> {
    [Observe(ReadFile, {a, b})] + [PlanCall(Some(PlanInput({a, b}, {a, b})))]
  }

  function Opening(a: Path, b: Path): seq<Action> {
    ReadAndPlan(a, b) + [RankCall([a])] + [HypothesisCall(Active)]
  }

  lemma Planned(cfg: Config, a: Path, b: Path)
    requires GoingOn(cfg, a, b)
    ensures var s := StateAfter(cfg, ReadAndPlan(a, b));
            && Legal(cfg, ReadAndPlan(a, b)) && !s.stopped && s.plan.accepted && s.hypotheses == []
            && s.candidates == CandidateState({a, b}, {}, false, 0, false)
            && LatestPlanned(s.log) == {a, b} && s.repair == FRESH.repair && s.patches == []
  {
    var read, planned := Observe(ReadFile, {a, b}), PlanCall(Some(PlanInput({a, b}, {a, b})));
    GoesOn(cfg, [], read);
    assert [] + [read] == [read];
    GoesOn(cfg, [read], planned);
    var s := StateAfter(cfg, [read]);
    assert s == Next(cfg, FRESH, read);
    assert |{a, b}| == 2;
    RankingSnoc(s.log, PlanReviewed(1, true, {a, b}));
  }

  lemma Opened(cfg: Config, a: Path, b: Path)
    requires GoingOn(cfg, a, b)
    ensures Legal(cfg, Opening(a, b)) && Working(StateAfter(cfg, Opening(a, b)), a, b, 0)
  {
    Planned(cfg, a, b);
    var s := StateAfter(cfg, ReadAndPlan(a, b));
    GoesOn(cfg, ReadAndPlan(a, b), RankCall([a]));
    GoesOn(cfg, ReadAndPlan(a, b) + [RankCall([a])], HypothesisCall(Active));
    RankingSnoc(s.log, CandidatesRanked(1, [a]));
    assert Members([a]) == {a};
    assert ActiveRevision([Hypothesis(Active, 1, None)]) == 1;
    assert HypothesisNext([], Active) == [Hypothesis(Active, 1, None)];
  }

  lemma WroteOnce(cfg: Config, trace: seq<Action>, a: Path, b: Path, attempts: nat)
    requires GoingOn(cfg, a, b) && Legal(cfg, trace) && Working(StateAfter(cfg, trace), a, b, attempts)
    ensures var s := StateAfter(cfg, trace + [Observe(WriteFile, {a})]);
            && Legal(cfg, trace + [Observe(WriteFile, {a})]) && Working(s, a, b, attempts)
            && s.repair == StateAfter(cfg, trace).repair && s.patches == StateAfter(cfg, trace).patches
  {
    GoesOn(cfg, trace, Observe(WriteFile, {a}));
    RankingSnoc(StateAfter(cfg, trace).log, ToolSucceeded(WriteFile, {a}));
  }

  function Attempt(id: PatchId, text: string, a: Path, passed: bool): Action {
    AttemptCall(Submitted(id, text, {a}, Judged(true, Some(passed))))
  }

  lemma AttemptEnabled(cfg: Config, s: RunState, a: Path, b: Path, attempts: nat, id: PatchId, text: string, passed: bool)
    requires GoingOn(cfg, a, b) && Working(s, a, b, attempts) && attempts <= 1 && FreshId(s.patches, id)
    ensures Enabled(cfg, s, Attempt(id, text, a, passed))
  {
    RankedAlone(cfg, s.log, a, b);
  }

  /** What the two attempts do to the repair service. */
  lemma PassedRepair(cfg: Config, r: Repair, now: Revisions)
    requires !cfg.stopOnFirstPassingPatch && cfg.maxRepairAttempts >= 2 && r.attempt == 0
    ensures var began, v := Began(r, now), Judged(true, Some(true));
            var next := Assessed(cfg, began, Some(1), v);
            && !Stops(cfg, began, v) && !Reconsiders(cfg, began, v) && next.required.None? && next.attempt == 1
            && next.passing == Some(1) && next.outcomes == r.outcomes[1 := Outcome(true, Some(true))]
  {
  }

  lemma FailedRepair(cfg: Config, r: Repair, now: Revisions)
    requires cfg.maxRepairAttempts >= 2 && r.attempt == 1
    ensures var began, v := Began(r, now), Judged(true, Some(false));
            var next := Assessed(cfg, began, Some(2), v);
            && !Stops(cfg, began, v) && Reconsiders(cfg, began, v)
            && next.passing == r.passing && next.outcomes == r.outcomes[2 := Outcome(true, Some(false))]
  {
  }

  lemma FirstStored(text: string, a: Path, v: Verdict)
    ensures Stored([], Submitted(1, text, {a}, v)) == [Patch(1, 1, text, {a}, false)]
  {
  }

  lemma Passed(cfg: Config, trace: seq<Action>, a: Path, b: Path, text: string)
    requires GoingOn(cfg, a, b) && Legal(cfg, trace) && Working(StateAfter(cfg, trace), a, b, 0)
    ensures var s := StateAfter(cfg, trace + [Attempt(1, text, a, true)]);
            && Legal(cfg, trace + [Attempt(1, text, a, true)]) && Working(s, a, b, 1)
            && s.repair.passing == Some(1) && 1 in s.repair.outcomes && s.repair.outcomes[1] == Outcome(true, Some(true))
            && s.patches == [Patch(1, 1, text, {a}, false)]
  {
    var s, attempt := StateAfter(cfg, trace), Attempt(1, text, a, true);
    AttemptEnabled(cfg, s, a, b, 0, 1, text, true);
    GoesOn(cfg, trace, attempt);
    AttemptRanksNothing(cfg, s, attempt.submission);
    PassedRepair(cfg, s.repair, CurrentRevisions(s));
    FirstStored(text, a, attempt.submission.verdict);
  }

  /** A failed attempt reopens the ranking, and the passing patch stays the choice. */
  lemma Failed(cfg: Config, trace: seq<Action>, a: Path, b: Path, text: string)
    requires GoingOn(cfg, a, b) && Legal(cfg, trace) && Working(StateAfter(cfg, trace), a, b, 1)
    requires FreshId(StateAfter(cfg, trace).patches, 2)
    ensures var before, s := StateAfter(cfg, trace).repair, StateAfter(cfg, trace + [Attempt(2, text, a, false)]);
            && Legal(cfg, trace + [Attempt(2, text, a, false)]) && !s.stopped && !s.candidates.editing
            && s.candidates.read == StateAfter(cfg, trace).candidates.read
            && LatestPlanned(s.log) == {a, b}
            && s.repair.passing == before.passing && s.repair.outcomes == before.outcomes[2 := Outcome(true, Some(false))]
            && s.patches[..1] == StateAfter(cfg, trace).patches
  {
    var s, attempt := StateAfter(cfg, trace), Attempt(2, text, a, false);
    AttemptEnabled(cfg, s, a, b, 1, 2, text, false);
    GoesOn(cfg, trace, attempt);
    AttemptRanksNothing(cfg, s, attempt.submission);
    FailedRepair(cfg, s.repair, CurrentRevisions(s));
  }

  function Pass(a: Path, b: Path, text: string): seq<Action> {
    Opening(a, b) + [Observe(WriteFile, {a})] + [Attempt(1, text, a, true)]
  }

  function Fail(a: Path, b: Path, text: string, other: string): seq<Action> {
    Pass(a, b, text) + [Observe(WriteFile, {a})] + [Attempt(2, other, a, false)]
  }

  /** Read two files, rank one, edit it and pass; edit it again and fail; rank the other one. */
  function Reranked(a: Path, b: Path, text: string, other: string): seq<Action> {
    Fail(a, b, text, other) + [RankCall([b])]
  }

  lemma PassedFirst(cfg: Config, a: Path, b: Path, text: string)
    requires GoingOn(cfg, a, b)
    ensures var s := StateAfter(cfg, Pass(a, b, text));
            && Legal(cfg, Pass(a, b, text)) && Working(s, a, b, 1)
            && s.repair.passing == Some(1) && 1 in s.repair.outcomes && s.repair.outcomes[1] == Outcome(true, Some(true))
            && s.patches == [Patch(1, 1, text, {a}, false)]
  {
    Opened(cfg, a, b);
    WroteOnce(cfg, Opening(a, b), a, b, 0);
    Passed(cfg, Opening(a, b) + [Observe(WriteFile, {a})], a, b, text);
  }

  lemma FailedSecond(cfg: Config, a: Path, b: Path, text: string, other: string)
    requires GoingOn(cfg, a, b)
    ensures var s := StateAfter(cfg, Fail(a, b, text, other));
            && Legal(cfg, Fail(a, b, text, other)) && !s.stopped && !s.candidates.editing && b in s.candidates.read
            && LatestPlanned(s.log) == {a, b}
            && s.repair.passing == Some(1) && 1 in s.repair.outcomes && s.repair.outcomes[1] == Outcome(true, Some(true))
            && s.patches != [] && s.patches[0] == Patch(1, 1, text, {a}, false)
  {
    PassedFirst(cfg, a, b, text);
    WroteOnce(cfg, Pass(a, b, text), a, b, 1);
    Failed(cfg, Pass(a, b, text) + [Observe(WriteFile, {a})], a, b, other);
  }

  /** After this run the first patch is chosen and accepted, and the gate refuses its files. */
  lemma AcceptedButOutOfScope(cfg: Config, a: Path, b: Path, text: string, other: string, stop: StopReason)
    requires GoingOn(cfg, a, b) && !Fatal(stop)
    ensures var trace := Reranked(a, b, text, other);
            var s := StateAfter(cfg, trace);
            && Legal(cfg, trace) && !s.stopped
            && Selected(s.repair, stop) == Selection(Some(1), true, Some(true), true)
            && s.patches != [] && s.patches[0] == Patch(1, 1, text, {a}, false)
            && !ScopeAccepts(cfg, s.log, {a})
  {
    FailedSecond(cfg, a, b, text, other);
    var s := StateAfter(cfg, Fail(a, b, text, other));
    RerankedScope(cfg, s, a, b);
    GoesOn(cfg, Fail(a, b, text, other), RankCall([b]));
    PassingIsSelected(s.repair, stop);
  }

  /** The other file can be ranked, and then the first one is out of scope. */
  lemma RerankedScope(cfg: Config, s: RunState, a: Path, b: Path)
    requires GoingOn(cfg, a, b) && !s.stopped && !s.candidates.editing && b in s.candidates.read && LatestPlanned(s.log) == {a, b}
    ensures Enabled(cfg, s, RankCall([b])) && !ScopeAccepts(cfg, Next(cfg, s, RankCall([b])).log, {a})
  {
    RankingSnoc(s.log, CandidatesRanked(s.candidates.revision + 1, [b]));
    assert Members([b]) == {b};
    RankedAlone(cfg, Next(cfg, s, RankCall([b])).log, a, b);
  }

  lemma PassingIsSelected(r: Repair, stop: StopReason)
    requires r.passing == Some(1) && 1 in r.outcomes && r.outcomes[1] == Outcome(true, Some(true)) && !Fatal(stop)
    ensures Selected(r, stop) == Selection(Some(1), true, Some(true), true)
  {
  }

  /**
   So the run ends with an accepted patch that cannot be restored: the workspace, which holds the
   failed one, is undone, and the restore raises.
   */
  lemma PassingCandidateRefused(
    env: PatchWorkspace.Env, w: PatchWorkspace.Tree, a: Path, b: Path, text: string, stop: StopReason)
    requires GoingOn(env.cfg, a, b) && !Fatal(stop)
    requires env.running && text != "" && env.readable(text) && env.files(text) == {a}
    requires PatchWorkspace.CurrentDiff(env, w).Ok? && PatchWorkspace.Regular(env, w, text)
    requires env.diff(w) != text && PatchWorkspace.Undoable(env, w)
    ensures var trace := Reranked(a, b, text, env.diff(w));
            var s := StateAfter(env.cfg, trace);
            && Legal(env.cfg, trace) && Selected(s.repair, stop).accepted && Selected(s.repair, stop).patch == Some(1)
            && s.patches[0].id == 1 && s.patches[0].text == text
            && PatchWorkspace.Restore(env, s.log, w, text) == (PatchWorkspace.Reset(env, w), Err(PatchSafetyError))
  {
    AcceptedButOutOfScope(env.cfg, a, b, text, env.diff(w), stop);
    var log := StateAfter(env.cfg, Reranked(a, b, text, env.diff(w))).log;
    assert !PatchWorkspace.Accepts(env, log, text);
    PatchWorkspace.RejectedRestoreLeavesCleanWorkspace(env, log, w, text);
  }
}
