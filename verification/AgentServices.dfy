/**
 The services an agent run drives, as the source has them: objects whose methods update their
 fields and the run's rows (backend/app/agents/{planning,candidate_files,hypotheses,repairs}.py).
 Each method is proved to take the step the Protocol module defines.
 */
module AgentServices {
  import opened Wrappers
  import opened Protocol
  import PatchWorkspace
  import PyText

  /** The rows of one run: its events in creation order, its hypotheses and its patches. */
  class RunStore {
    var log: seq<Event>
    var hypotheses: seq<Hypothesis>
    var patches: seq<Patch>
    var repairAttemptsUsed: nat
    var finalPatchPassedTests: Option<bool>

    constructor ()
      ensures log == [] && hypotheses == [] && patches == []
      ensures repairAttemptsUsed == 0 && finalPatchPassedTests == None
    {
      log, hypotheses, patches := [], [], [];
      repairAttemptsUsed, finalPatchPassedTests := 0, None;
    }

    method Log(e: Event)
      modifies this`log
      ensures log == old(log) + [e]
    {
      log := log + [e];
    }
  }

  class PlanningService {
    const cfg: Config
    const store: RunStore
    var evidence: set<Path>
    var revision: nat
    var accepted: bool

    function State(): PlanState
      reads this
    {
      PlanState(evidence, revision, accepted)
    }

    constructor (cfg: Config, store: RunStore)
      ensures this.cfg == cfg && this.store == store && State() == FRESH.plan
    {
      this.cfg, this.store := cfg, store;
      evidence, revision, accepted := {}, 0, false;
    }

    method Observe(tool: ToolName, files: set<Path>)
      modifies this
      ensures State() == PlanObserve(old(State()), tool, files)
    {
      if tool in {ReadFile, SearchCode, RetrieveRelevantFiles} {
        evidence := evidence + files;
      }
    }

    method CheckEdit(tool: ToolName) returns (ok: bool)
      ensures ok <==> (cfg.requirePlanBeforeEdit && tool in {WriteFile, SubmitPatch} ==> State().accepted)
    {
      ok := !(cfg.requirePlanBeforeEdit && tool in {WriteFile, SubmitPatch} && !accepted);
    }

    /** `plan` is `None` when the schema, a path or a size limit rejected the arguments. */
    method Submit(plan: Option<PlanInput>) returns (ok: bool)
      modifies this, store`log
      ensures State() == PlanNext(cfg, old(State()), plan)
      ensures store.log ==
              old(store.log) + [PlanReviewed(revision, accepted, if accepted then plan.value.likely else {})]
      ensures ok == accepted
    {
      revision := revision + 1;
      accepted := false;
      var reason := false;
      if revision > 1 + cfg.maxPlanRevisions {
        reason := true;
      } else if plan.None? {
        reason := true;
      } else if !(plan.value.inspected <= evidence) {
        reason := true;
      } else if |plan.value.inspected| < cfg.planMinEvidenceFiles {
        reason := true;
      }
      accepted := !reason;
      store.Log(PlanReviewed(revision, accepted, if accepted then plan.value.likely else {}));
      return accepted;
    }
  }

  class CandidateFilesService {
    const cfg: Config
    const store: RunStore
    var readFiles: set<Path>
    var retrievedFiles: set<Path>
    var submitted: bool
    var revision: nat
    var editingStarted: bool

    function State(): CandidateState
      reads this
    {
      CandidateState(readFiles, retrievedFiles, submitted, revision, editingStarted)
    }

    constructor (cfg: Config, store: RunStore)
      ensures this.cfg == cfg && this.store == store && State() == FRESH.candidates
    {
      this.cfg, this.store := cfg, store;
      readFiles, retrievedFiles, submitted, revision, editingStarted := {}, {}, false, 0, false;
    }

    method BeginRepair()
      modifies this
      ensures State() == old(State()).(editing := false)
    {
      editingStarted := false;
    }

    method Observe(tool: ToolName, files: set<Path>)
      modifies this
      ensures State() == CandidateObserve(old(State()), tool, files)
    {
      if tool == ReadFile {
        readFiles := readFiles + files;
      } else if tool == RetrieveRelevantFiles {
        retrievedFiles := retrievedFiles + files;
      } else if tool == WriteFile {
        editingStarted := true;
      }
    }

    method CheckEdit(tool: ToolName) returns (ok: bool)
      ensures ok <==> (cfg.requireCandidatesBeforeEdit && tool == WriteFile ==> State().submitted)
    {
      ok := !(cfg.requireCandidatesBeforeEdit && tool == WriteFile && !submitted);
    }

    /**
     `arguments` is `None` when the schema or a size limit rejected them; an entry is `None` when
     its path did not validate.
     */
    method Submit(arguments: Option<seq<Option<Path>>>) returns (ok: bool, ghost ranked: seq<Path>)
      modifies this, store`log
      ensures ok <==> Ranks(cfg, old(State()), arguments)
      ensures ok ==>
                && ranked == Paths(arguments.value)
                && State() == old(State()).(submitted := true, revision := old(revision) + 1)
                && store.log == old(store.log) + [CandidatesRanked(old(revision) + 1, ranked)]
      ensures !ok ==> State() == old(State()) && store.log == old(store.log)
    {
      ranked := [];
      if editingStarted || arguments.None? {
        return false, [];
      }
      if arguments.value == [] || |arguments.value| > cfg.maxCandidateFiles {
        return false, [];
      }
      var rankedFiles: seq<Path> := [];
      var seen: set<Path> := {};
      for i := 0 to |arguments.value|
        invariant |rankedFiles| == i
        invariant forall k | 0 <= k < i :: arguments.value[k] == Some(rankedFiles[k])
        invariant seen == Members(rankedFiles)
        invariant forall j, k | 0 <= j < k < i :: rankedFiles[j] != rankedFiles[k]
        invariant forall k | 0 <= k < i :: rankedFiles[k] in readFiles + retrievedFiles
      {
        var entry := arguments.value[i];
        if entry.None? {
          return false, [];
        }
        if entry.value in seen {
          var k :| 0 <= k < i && rankedFiles[k] == entry.value;
          if forall j | 0 <= j < |arguments.value| :: arguments.value[j].Some? {
            assert Paths(arguments.value)[k] == Paths(arguments.value)[i];
          }
          return false, [];
        }
        if entry.value !in readFiles && entry.value !in retrievedFiles {
          if forall j | 0 <= j < |arguments.value| :: arguments.value[j].Some? {
            assert Paths(arguments.value)[i] == entry.value;
          }
          return false, [];
        }
        seen := seen + {entry.value};
        assert forall k | 0 <= k < i :: rankedFiles[k] in seen;
        rankedFiles := rankedFiles + [entry.value];
      }
      assert rankedFiles == Paths(arguments.value);
      store.Log(CandidatesRanked(revision + 1, rankedFiles));
      submitted := true;
      revision := revision + 1;
      return true, rankedFiles;
    }
  }

  function Paths(entries: seq<Option<Path>>): seq<Path>
    requires forall i | 0 <= i < |entries| :: entries[i].Some?
  {
    seq(|entries|, i requires 0 <= i < |entries| && entries[i].Some? => entries[i].value)
  }

  /** Arguments `submit_candidate_files` takes: every path validates, and the ranking is one it accepts. */
  predicate Ranks(cfg: Config, c: CandidateState, arguments: Option<seq<Option<Path>>>) {
    && arguments.Some? && (forall i | 0 <= i < |arguments.value| :: arguments.value[i].Some?)
    && RankingAccepted(cfg, c, Paths(arguments.value))
  }

  class HypothesisService {
    const cfg: Config
    const store: RunStore

    constructor (cfg: Config, store: RunStore)
      ensures this.cfg == cfg && this.store == store
    {
      this.cfg, this.store := cfg, store;
    }

    /** `active_run_hypothesis`: scans the log backwards; 0 when nothing is live. */
    method ActiveRunHypothesis() returns (revision: nat)
      ensures revision == ActiveRevision(store.hypotheses)
    {
      var i := |store.hypotheses|;
      assert store.hypotheses[..i] == store.hypotheses;
      while i > 0
        invariant 0 <= i <= |store.hypotheses|
        invariant ActiveRevision(store.hypotheses[..i]) == ActiveRevision(store.hypotheses)
      {
        assert store.hypotheses[..i][..i - 1] == store.hypotheses[..i - 1];
        i := i - 1;
        if Live(store.hypotheses[i].status) {
          return store.hypotheses[i].revision;
        }
      }
      return 0;
    }

    method RequireForPatch() returns (ok: bool)
      ensures ok <==> (cfg.requireHypothesisBeforePatch ==> ActiveRevision(store.hypotheses) > 0)
    {
      var revision := ActiveRunHypothesis();
      ok := !(cfg.requireHypothesisBeforePatch && revision == 0);
    }

    /** `status` is `None` when the schema, a path or a size limit rejected the arguments. */
    method Submit(status: Option<Status>) returns (ok: bool)
      modifies store`hypotheses
      ensures ok == status.Some?
      ensures store.hypotheses ==
              if ok then HypothesisNext(old(store.hypotheses), status.value) else old(store.hypotheses)
    {
      if status.None? {
        return false;
      }
      var events := store.hypotheses;
      var revision := |events| + 1;
      if Live(status.value) {
        for i := 0 to |events|
          invariant |events| == |old(store.hypotheses)|
          invariant forall k | 0 <= k < i :: events[k] == Superseded(old(store.hypotheses), revision)[k]
          invariant forall k | i <= k < |events| :: events[k] == old(store.hypotheses)[k]
        {
          if Live(events[i].status) {
            events := events[i := events[i].(status := Revised, supersededBy := Some(revision))];
          }
        }
        assert events == Superseded(old(store.hypotheses), revision);
      }
      store.hypotheses := events + [Hypothesis(status.value, revision, None)];
      return true;
    }
  }

  /** The workspace of the run and the patch rows stored from it. */
  class PatchService {
    const env: PatchWorkspace.Env
    const store: RunStore
    var workspace: PatchWorkspace.Tree

    constructor (env: PatchWorkspace.Env, store: RunStore, workspace: PatchWorkspace.Tree)
      ensures this.env == env && this.store == store && this.workspace == workspace
    {
      this.env, this.store, this.workspace := env, store, workspace;
    }

    function Diff(): PatchWorkspace.Text
      reads this
    {
      env.diff(workspace)
    }

    ghost predicate AllRecorded()
      reads store
    {
      EachRecorded(env, store.patches)
    }

    method GetCurrentWorkspaceDiff() returns (r: Result<PatchWorkspace.Text, ErrorKind>)
      ensures r == PatchWorkspace.CurrentDiff(env, workspace)
    {
      var text := env.diff(workspace);
      if text != "" && !env.readable(text) {
        return Err(PatchSafetyError);
      }
      if !env.listable(workspace) {
        return Err(PatchSafetyError);
      }
      return Ok(text);
    }

    /** `store_generated_patch` once the gate has accepted: a row with a fresh id and the next version, and its events. */
    method StoreGeneratedPatch(text: PatchWorkspace.Text, files: set<Path>) returns (patch: Patch)
      modifies store`patches, store`log
      ensures FreshId(old(store.patches), patch.id) && patch.text == text && patch.files == files
      ensures store.patches == Stored(old(store.patches), Submitted(patch.id, text, files, Errored))
      ensures store.log == old(store.log)
                           + [PatchStored(patch.id, MaxVersion(old(store.patches)) + 1, Sources(env.cfg, files))]
                           + [ToolSucceeded(ToolName.SubmitPatch, files)]
    {
      FreshIdExists(store.patches);
      var id: PatchId :| FreshId(store.patches, id);
      patch := Patch(id, MaxVersion(store.patches) + 1, text, files, false);
      store.patches := store.patches + [patch];
      store.Log(PatchStored(id, patch.version, Sources(env.cfg, files)));
      store.Log(ToolSucceeded(ToolName.SubmitPatch, files));
    }

    /** `submit_patch` of the workspace tools: diff the workspace and store it if the gate accepts the files git lists. */
    method SubmitPatch() returns (r: Result<Patch, ErrorKind>)
      modifies store`patches, store`log
      ensures r.Ok? ==>
                && FreshId(old(store.patches), r.value.id)
                && r.value.text == Diff() && PatchWorkspace.Recorded(env, r.value.text)
                && r.value.files == env.changed(workspace)
                && ScopeAccepts(env.cfg, old(store.log), r.value.files)
                && store.patches == Stored(old(store.patches),
                                           Submitted(r.value.id, r.value.text, r.value.files, Errored))
                && store.log == old(store.log)
                                + [PatchStored(r.value.id, MaxVersion(old(store.patches)) + 1, Sources(env.cfg, r.value.files))]
                                + [ToolSucceeded(ToolName.SubmitPatch, r.value.files)]
      ensures r.Err? ==> r.error == PatchSafetyError && store.patches == old(store.patches) && store.log == old(store.log)
      ensures r.Ok? <==>
                && PatchWorkspace.CurrentDiff(env, workspace).Ok? && env.running
                && PatchWorkspace.GateAccepts(env, old(store.log), Diff(), env.changed(workspace))
    {
      var diff := GetCurrentWorkspaceDiff();
      if diff.Err? {
        return Err(diff.error);
      }
      var text, files := diff.value, env.changed(workspace);
      if !env.running || !PatchWorkspace.GateAccepts(env, store.log, text, files) {
        return Err(PatchSafetyError);
      }
      assert env.diff(workspace) == text;
      var patch := StoreGeneratedPatch(text, files);
      return Ok(patch);
    }

    method EnsurePatchApplied(text: PatchWorkspace.Text) returns (r: Result<PatchWorkspace.Applied, ErrorKind>)
      modifies this`workspace
      ensures (workspace, r) == PatchWorkspace.EnsureApplied(env, store.log, old(workspace), text)
    {
      var (next, result) := PatchWorkspace.EnsureApplied(env, store.log, workspace, text);
      workspace := next;
      return result;
    }

    method RestoreCandidate(text: PatchWorkspace.Text) returns (r: Result<(), ErrorKind>)
      modifies this`workspace
      ensures (workspace, r) == PatchWorkspace.Restore(env, store.log, old(workspace), text)
      ensures r.Ok? ==> Diff() == text
    {
      if !env.running {
        return Err(PatchSafetyError);
      }
      var current := GetCurrentWorkspaceDiff();
      if current.Err? {
        return Err(current.error);
      }
      if text != "" && !env.readable(text) {
        return Err(PatchSafetyError);
      }
      if current.value == text {
        return Ok(());
      }
      if !PyText.Blank(current.value) {
        var undone := env.reverse(current.value, workspace);
        if undone.None? {
          return Err(PatchApplyError);
        }
        workspace := undone.value;
      }
      var applied := EnsurePatchApplied(text);
      if applied.Err? {
        return Err(applied.error);
      }
      var restored := GetCurrentWorkspaceDiff();
      if restored.Err? {
        return Err(restored.error);
      }
      if restored.value != text {
        return Err(PatchApplyError);
      }
      return Ok(());
    }
  }

  /** Every stored text was a workspace diff that passed the run's checks. */
  ghost predicate EachRecorded(env: PatchWorkspace.Env, patches: seq<Patch>) {
    forall i | 0 <= i < |patches| :: PatchWorkspace.Recorded(env, patches[i].text)
  }

  lemma FreshIdExists(patches: seq<Patch>)
    ensures exists id: PatchId :: FreshId(patches, id)
  {
    var id := LargestId(patches) + 1;
    assert FreshId(patches, id);
  }

  function LargestId(patches: seq<Patch>): (n: nat)
    ensures forall i | 0 <= i < |patches| :: patches[i].id <= n
  {
    if patches == [] then 0
    else
      var rest := LargestId(patches[1..]);
      assert forall i | 1 <= i < |patches| :: patches[i] == patches[1..][i - 1];
      if patches[0].id > rest then patches[0].id else rest
  }

  /** The text of the stored patch with this id (`db.get`). */
  function TextOf(patches: seq<Patch>, id: PatchId): Option<PatchWorkspace.Text> {
    if patches == [] then None
    else if patches[|patches| - 1].id == id then Some(patches[|patches| - 1].text)
    else TextOf(patches[..|patches| - 1], id)
  }

  lemma {:induction false} TextIsStored(patches: seq<Patch>, id: PatchId)
    ensures TextOf(patches, id).Some? <==> !FreshId(patches, id)
    ensures TextOf(patches, id).Some? ==>
              exists i :: 0 <= i < |patches| && patches[i].id == id && patches[i].text == TextOf(patches, id).value
  {
    if patches != [] { TextIsStored(patches[..|patches| - 1], id); }
  }

  /** The verdict on a `try` block with this test verdict and this exception. */
  function VerdictOn(passed: Option<bool>, raised: Option<ErrorKind>): Verdict {
    if raised == Some(OtherError) then Errored else Judged(raised.None?, passed)
  }

  /**
   The verdict on a stored text. The workspace must hold the text before and after; the tests run
   once if it holds it before and the run asks for tests, and their verdict is the verdict's; failed
   tests are analysed. `w` and `next` are the workspaces around this.
   */
  ghost predicate Judges(
    cfg: Config, env: PatchWorkspace.Env, log: seq<Event>, text: PatchWorkspace.Text, w: PatchWorkspace.Tree,
    next: PatchWorkspace.Tree, tests: seq<Result<Option<bool>, ErrorKind>>, analyses: seq<bool>, v: Verdict)
  {
    var held := PatchWorkspace.CurrentDiff(env, w) == Ok(text);
    && |tests| == (if held && cfg.runTestsAfterPatch then 1 else 0)
    && |analyses| == (if tests == [Ok(Some(false))] then 1 else 0)
    && (v.Errored? <==> tests == [Err(OtherError)] || analyses == [true])
    && (v.Judged? ==> v.passed == if |tests| == 1 && tests[0].Ok? then tests[0].value else None)
    && (v.Judged? ==>
          (v.valid <==>
             && held && PatchWorkspace.CurrentDiff(env, next) == Ok(text)
             && (|tests| == 1 ==> tests[0].Ok?)
             && PatchWorkspace.EnsureApplied(env, log, w, text).1.Ok?))
  }

  datatype SubmissionDecision = SubmissionDecision(stop: bool, invalidPatch: bool, reconsiderReasoning: bool)

  class RepairService {
    const cfg: Config
    const store: RunStore
    const patches: PatchService
    var attemptNumber: nat
    var lastPatch: Option<PatchId>
    var passingPatch: Option<PatchId>
    var outcomes: map<PatchId, Outcome>
    var requiredAfter: Option<Revisions>
    var attemptRevisions: Revisions

    // How the test phases and the analyses of failed tests went, for the specification.
    ghost var tests: seq<Result<Option<bool>, ErrorKind>>
    ghost var analyses: seq<bool>

    function State(): Repair
      reads this, store
    {
      Repair(attemptNumber, store.repairAttemptsUsed, lastPatch, passingPatch, outcomes, requiredAfter, attemptRevisions)
    }

    constructor (cfg: Config, store: RunStore, patches: PatchService)
      requires store.repairAttemptsUsed == 0
      ensures this.cfg == cfg && this.store == store && this.patches == patches
      ensures State() == FRESH.repair
    {
      this.cfg, this.store, this.patches := cfg, store, patches;
      attemptNumber, lastPatch, passingPatch, outcomes := 0, None, None, map[];
      requiredAfter, attemptRevisions := None, Revisions(0, 0, 0);
    }

    method CheckAction(tool: ToolName, revisions: Revisions) returns (ok: bool)
      ensures ok <==> ActionAllowed(cfg, requiredAfter, tool, revisions)
    {
      if requiredAfter.None? {
        return true;
      }
      var previous := requiredAfter.value;
      if tool in {WriteFile, SubmitPatch} && cfg.requirePlanUpdate && revisions.plan <= previous.plan {
        return false;
      }
      if tool == WriteFile && cfg.requireCandidateUpdate && revisions.candidates <= previous.candidates {
        return false;
      }
      if tool == SubmitPatch && cfg.requireHypothesisUpdate && revisions.hypothesis <= previous.hypothesis {
        return false;
      }
      return true;
    }

    /** Raises when the attempt budget is used up or a gate is closed. */
    method BeginAttempt(revisions: Revisions) returns (ok: bool)
      modifies this, store`repairAttemptsUsed, store`log
      ensures ok <==> More(cfg, old(State())) && ActionAllowed(cfg, old(requiredAfter), SubmitPatch, revisions)
      ensures ok ==>
                && State() == Began(old(State()), revisions)
                && store.log == old(store.log) + [AttemptStarted(attemptNumber, revisions)]
      ensures !ok ==> attemptNumber == old(attemptNumber) && store.log == old(store.log)
    {
      if attemptNumber >= 1 + cfg.maxRepairAttempts {
        return false;
      }
      attemptRevisions := revisions;
      ok := CheckAction(SubmitPatch, attemptRevisions);
      if !ok {
        return;
      }
      attemptNumber := attemptNumber + 1;
      store.repairAttemptsUsed := attemptNumber - 1;
      store.Log(AttemptStarted(attemptNumber, revisions));
    }

    /** The test phase applies the patch first; then any verdict, any exception, any effect on the workspace. */
    method RunPostPatchTests(text: PatchWorkspace.Text) returns (r: Result<Option<bool>, ErrorKind>)
      modifies this`tests, patches`workspace
      ensures tests == old(tests) + [r]
      ensures r.Ok? ==> PatchWorkspace.EnsureApplied(patches.env, patches.store.log, old(patches.workspace), text).1.Ok?
    {
      var refused: bool := *;
      if refused {
        r := Err(OtherError);
      } else {
        var applied := patches.EnsurePatchApplied(text);
        patches.workspace := *;
        r := *;
        if applied.Err? {
          r := Err(applied.error);
        }
      }
      tests := tests + [r];
    }

    /** The analysis of failed tests: it may raise. */
    method AnalyzeFailure() returns (failed: bool)
      modifies this`analyses
      ensures analyses == old(analyses) + [failed]
    {
      failed := *;
      analyses := analyses + [failed];
    }

    /** The `try` block of `assess`: its test verdict so far and the exception that ended it. */
    method Evaluate(id: PatchId, text: PatchWorkspace.Text)
      returns (passed: Option<bool>, raised: Option<ErrorKind>)
      modifies this`tests, this`analyses, patches`workspace
      ensures old(tests) <= tests && old(analyses) <= analyses
      ensures Judges(cfg, patches.env, patches.store.log, text, old(patches.workspace), patches.workspace,
                     tests[|old(tests)|..], analyses[|old(analyses)|..], VerdictOn(passed, raised))
    {
      passed := None;
      var before := patches.GetCurrentWorkspaceDiff();
      if before.Err? {
        return passed, Some(before.error);
      }
      if before.value != text {
        return passed, Some(PatchApplyError);
      }
      if cfg.runTestsAfterPatch {
        var tests := RunPostPatchTests(text);
        if tests.Err? {
          return passed, Some(tests.error);
        }
        passed := tests.value;
        if passed == Some(false) {
          var analysisFailed := AnalyzeFailure();
          if analysisFailed {
            return passed, Some(OtherError);
          }
        }
      } else {
        var applied := patches.EnsurePatchApplied(text);
        if applied.Err? {
          return passed, Some(applied.error);
        }
      }
      var after := patches.GetCurrentWorkspaceDiff();
      if after.Err? {
        return passed, Some(after.error);
      }
      if after.value != text {
        return passed, Some(PatchApplyError);
      }
      return passed, None;
    }

    /**
     `submitted` is the stored patch, `error` the exception of a submission that failed. A verdict
     `Errored` is an assessment that re-raises.
     */
    method Assess(submitted: Option<PatchId>, error: Option<ErrorKind>)
      returns (decision: SubmissionDecision, verdict: Verdict)
      requires submitted.Some? <==> error.None?
      requires submitted.Some? ==> !FreshId(store.patches, submitted.value)
      modifies this, store`log, patches`workspace
      ensures State() == Assessed(cfg, old(State()), submitted, verdict)
      ensures store.log == CompletedLog(cfg, old(store.log), old(State()), submitted, verdict)
      ensures decision.stop == Stops(cfg, old(State()), verdict)
      ensures decision.reconsiderReasoning == Reconsiders(cfg, old(State()), verdict)
      ensures verdict.Judged? ==> decision.invalidPatch == !verdict.valid
      ensures error.Some? ==> verdict == VerdictOf(SubmitFailed(error.value)) && patches.workspace == old(patches.workspace)
      ensures old(tests) <= tests && old(analyses) <= analyses
      ensures submitted.Some? ==>
                && TextOf(store.patches, submitted.value).Some?
                && Judges(cfg, patches.env, old(patches.store.log), TextOf(store.patches, submitted.value).value,
                          old(patches.workspace), patches.workspace,
                          tests[|old(tests)|..], analyses[|old(analyses)|..], verdict)
      ensures submitted.None? ==> tests == old(tests) && analyses == old(analyses)
    {
      var passed: Option<bool> := None;
      var raised := error;
      if error.None? {
        TextIsStored(store.patches, submitted.value);
        var text := TextOf(store.patches, submitted.value);
        lastPatch := submitted;
        passed, raised := Evaluate(submitted.value, text.value);
      }
      if raised == Some(OtherError) {
        store.Log(AttemptCompleted(attemptNumber, attemptRevisions, submitted, Errored));
        return SubmissionDecision(true, true, false), Errored;
      }
      verdict := Judged(raised.None?, passed);
      decision := Settle(submitted, raised.None?, passed);
    }

    /** What a verdict changes, logs and decides. */
    method Settle(submitted: Option<PatchId>, valid: bool, passed: Option<bool>) returns (decision: SubmissionDecision)
      requires submitted.Some? ==> lastPatch == submitted
      modifies this, store`log
      ensures tests == old(tests) && analyses == old(analyses)
      ensures State() == Assessed(cfg, old(State()), submitted, Judged(valid, passed))
      ensures store.log == CompletedLog(cfg, old(store.log), old(State()), submitted, Judged(valid, passed))
      ensures decision.stop == Stops(cfg, old(State()), Judged(valid, passed))
      ensures decision.reconsiderReasoning == Reconsiders(cfg, old(State()), Judged(valid, passed))
      ensures decision.invalidPatch == !valid
    {
      if submitted.Some? {
        outcomes := outcomes[submitted.value := Outcome(valid, if valid then passed else Some(false))];
      }
      if valid && passed == Some(true) {
        passingPatch := submitted;
      }
      store.Log(AttemptCompleted(attemptNumber, attemptRevisions, submitted, Judged(valid, passed)));
      var more := attemptNumber < 1 + cfg.maxRepairAttempts;
      var stop := !more || (valid && passed.None?) || (passed == Some(true) && valid && cfg.stopOnFirstPassingPatch);
      var reconsider := passed == Some(false) && !stop;
      if reconsider {
        requiredAfter := Some(attemptRevisions);
      } else if valid && passed != Some(false) {
        requiredAfter := None;
      }
      if !more && (!valid || passed == Some(false)) {
        store.Log(RepairLimitReached);
      }
      decision := SubmissionDecision(stop, !valid, reconsider);
    }

    /** Selects, flags and restores a candidate; the error is an exception from the restore. */
    method Finish(stop: StopReason) returns (choice: Selection, restored: Result<(), ErrorKind>)
      requires forall id | id in outcomes :: !FreshId(store.patches, id)
      modifies store`patches, store`finalPatchPassedTests, patches`workspace
      ensures choice == Selected(State(), stop)
      ensures store.patches == Flagged(old(store.patches), choice.patch)
      ensures store.finalPatchPassedTests == choice.passed
      ensures restored.Ok? && choice.valid ==> TextOf(old(store.patches), choice.patch.value) == Some(patches.Diff())
      ensures choice.valid ==>
                && choice.patch.Some? && TextOf(old(store.patches), choice.patch.value).Some?
                && (patches.workspace, restored) ==
                   PatchWorkspace.Restore(patches.env, patches.store.log, old(patches.workspace),
                                          TextOf(old(store.patches), choice.patch.value).value)
      ensures !choice.valid ==> restored.Ok? && patches.workspace == old(patches.workspace)
    {
      var patch := if passingPatch.Some? then passingPatch else lastPatch;
      var outcome := if patch.Some? && patch.value in outcomes then outcomes[patch.value] else Outcome(false, None);
      var fatal := stop !in {PatchSubmitted, MaxStepsReached, MaxToolErrorsReached};
      var accepted := patch.Some? && outcome.valid && outcome.passed != Some(false) && !fatal;
      ghost var was := store.patches;
      var rows := store.patches;
      for i := 0 to |rows|
        invariant |rows| == |was|
        invariant forall k | 0 <= k < i :: rows[k] == Flagged(was, patch)[k]
        invariant forall k | i <= k < |rows| :: rows[k] == was[k]
      {
        rows := rows[i := rows[i].(selected := patch == Some(rows[i].id))];
      }
      assert rows == Flagged(was, patch);
      store.patches := rows;
      store.finalPatchPassedTests := outcome.passed;
      choice := Selection(patch, outcome.valid, outcome.passed, accepted);
      restored := Ok(());
      if patch.Some? && outcome.valid {
        TextIsStored(was, patch.value);
        FlagsKeepTexts(was, patch, patch.value);
        restored := patches.RestoreCandidate(TextOf(store.patches, patch.value).value);
      }
    }
  }

  lemma {:induction false} FlagsKeepTexts(patches: seq<Patch>, choice: Option<PatchId>, id: PatchId)
    ensures TextOf(Flagged(patches, choice), id) == TextOf(patches, id)
  {
    if patches != [] {
      var n := |patches| - 1;
      FlagsKeepTexts(patches[..n], choice, id);
      assert Flagged(patches, choice)[..n] == Flagged(patches[..n], choice);
    }
  }
}
