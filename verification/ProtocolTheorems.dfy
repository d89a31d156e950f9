/** The promises of the run protocol, read off the invariants of reachable states. */
module ProtocolTheorems {
  import opened Wrappers
  import opened Protocol
  import opened ProtocolSafety

  // ---------------------------------------------------------- candidate selection

  ghost predicate SomePass(log: seq<Event>) {
    exists k :: 0 <= k < |log| && Passes(log[k])
  }

  ghost predicate NewestSubmissionAt(log: seq<Event>, k: int) {
    0 <= k < |log| && Submits(log[k]) && forall j | k < j < |log| :: !Submits(log[j])
  }

  ghost predicate NewestPassAt(log: seq<Event>, k: int) {
    0 <= k < |log| && Passes(log[k]) && forall j | k < j < |log| :: !Passes(log[j])
  }

  lemma {:induction false} NewestAreNewest(log: seq<Event>)
    ensures NewestPass(log).Some? <==> SomePass(log)
    ensures NewestPass(log).Some? ==> exists k :: NewestPassAt(log, k) && log[k] == NewestPass(log).value
    ensures NewestSubmission(log).Some? <==> exists k :: 0 <= k < |log| && Submits(log[k])
    ensures NewestSubmission(log).Some? ==> exists k :: NewestSubmissionAt(log, k) && log[k] == NewestSubmission(log).value
  {
    if log != [] {
      var n, prefix := |log| - 1, log[..|log| - 1];
      NewestAreNewest(prefix);
      if Passes(log[n]) {
        assert NewestPassAt(log, n);
      } else if NewestPass(prefix).Some? {
        var k :| NewestPassAt(prefix, k) && prefix[k] == NewestPass(prefix).value;
        assert NewestPassAt(log, k);
      }
      if SomePass(log) && !Passes(log[n]) {
        var k :| 0 <= k < |log| && Passes(log[k]);
        assert Passes(prefix[k]);
      }
      if Submits(log[n]) {
        assert NewestSubmissionAt(log, n);
      } else if NewestSubmission(prefix).Some? {
        var k :| NewestSubmissionAt(prefix, k) && prefix[k] == NewestSubmission(prefix).value;
        assert NewestSubmissionAt(log, k);
      }
      if k :| 0 <= k < |log| && Submits(log[k]) && !Submits(log[n]) {
        assert Submits(prefix[k]);
      }
    }
  }

  /** The newest stored patch was judged valid and no test ran on it. */
  ghost predicate NewestUntested(log: seq<Event>) {
    exists k :: NewestSubmissionAt(log, k) && log[k].verdict == Judged(true, None)
  }

  /** The completion a choice is made from: the newest pass, or else the newest one of a stored patch. */
  ghost predicate ChosenAt(log: seq<Event>, k: int) {
    NewestPassAt(log, k) || (!SomePass(log) && NewestSubmissionAt(log, k))
  }

  /** The choice is this completion's patch, with its verdict: an invalid patch counts as failed, an unfinished assessment as nothing. */
  ghost predicate Says(choice: Selection, e: Event) {
    && e.AttemptCompleted? && choice.patch == e.patch
    && match e.verdict
       case Judged(valid, passed) => choice.valid == valid && choice.passed == (if valid then passed else Some(false))
       case Errored => !choice.valid && choice.passed == None
  }

  /** What a choice has to do with the completions in the table. */
  ghost predicate RightChoice(log: seq<Event>, stop: StopReason, choice: Selection) {
    && (choice.accepted <==> stop != ProviderFailed && stop != UnrecoverableError && (SomePass(log) || NewestUntested(log)))
    && (forall k | ChosenAt(log, k) :: Says(choice, log[k]))
    && (choice.patch.Some? ==> exists k :: ChosenAt(log, k))
    && (choice.patch.None? ==> !choice.valid && choice.passed == None && forall k | 0 <= k < |log| :: !Submits(log[k]))
  }

  /** There is one newest of each kind. */
  lemma NewestIs(log: seq<Event>, k: int)
    ensures NewestPassAt(log, k) ==> NewestPass(log) == Some(log[k])
    ensures NewestSubmissionAt(log, k) ==> NewestSubmission(log) == Some(log[k])
  {
    NewestAreNewest(log);
    if NewestPassAt(log, k) {
      var n :| NewestPassAt(log, n) && log[n] == NewestPass(log).value;
      assert n == k;
    }
    if NewestSubmissionAt(log, k) {
      var n :| NewestSubmissionAt(log, n) && log[n] == NewestSubmission(log).value;
      assert n == k;
    }
  }

  /** The choice in terms of the two newest completions. */
  lemma ChoiceFromNewest(s: RunState, stop: StopReason)
    requires SelectionInv(s)
    ensures var choice := Selected(s.repair, stop);
            var pass, last := NewestPass(s.log), NewestSubmission(s.log);
            && (pass.Some? ==> Says(choice, pass.value))
            && (pass.None? && last.Some? ==> Says(choice, last.value))
            && (pass.None? && last.None? <==> choice.patch.None?)
            && (pass.None? && last.None? ==> !choice.valid && choice.passed == None)
            && (choice.accepted <==>
                  && stop != ProviderFailed && stop != UnrecoverableError
                  && (pass.Some? || (last.Some? && last.value.verdict.Judged?
                                     && last.value.verdict.valid && last.value.verdict.passed != Some(false))))
  {
    NewestPassPasses(s.log);
    PassingSays(s.repair, NewestPass(s.log), NewestSubmission(s.log), s.patches, stop);
  }

  lemma PassingSays(r: Repair, pass: Option<Event>, last: Option<Event>, patches: seq<Patch>, stop: StopReason)
    requires Remembers(r, pass, last, patches) && (pass.Some? ==> Passes(pass.value))
    ensures pass.Some? ==> Says(Selected(r, stop), pass.value)
    ensures pass.None? && last.Some? ==> Says(Selected(r, stop), last.value)
  {
  }

  lemma {:induction false} NewestPassPasses(log: seq<Event>)
    ensures NewestPass(log).Some? ==> Passes(NewestPass(log).value)
  {
    if log != [] { NewestPassPasses(log[..|log| - 1]); }
  }

  lemma ChoiceIsRight(s: RunState, stop: StopReason)
    requires SelectionInv(s)
    ensures RightChoice(s.log, stop, Selected(s.repair, stop))
  {
    ChoiceFromNewest(s, stop);
    NewestAreNewest(s.log);
    forall k | ChosenAt(s.log, k) ensures Says(Selected(s.repair, stop), s.log[k]) { NewestIs(s.log, k); }
    var last := NewestSubmission(s.log);
    if !SomePass(s.log) && last.Some? && last.value.verdict.Judged? {
      var v := last.value.verdict;
      assert v != Judged(true, Some(true));
      match v.passed
      case None => assert v == Judged(v.valid, None);
      case Some(passed) => assert v == Judged(v.valid, Some(passed));
    }
    SomeChosen(s.log);
    UntestedIs(s.log);
  }

  lemma SomeChosen(log: seq<Event>)
    ensures NewestPass(log).Some? || NewestSubmission(log).Some? ==> exists k :: ChosenAt(log, k)
    ensures NewestSubmission(log).None? ==> forall k | 0 <= k < |log| :: !Submits(log[k])
  {
    NewestAreNewest(log);
    if NewestPass(log).Some? {
      var k :| NewestPassAt(log, k);
      assert ChosenAt(log, k);
    } else if NewestSubmission(log).Some? {
      var k :| NewestSubmissionAt(log, k);
      assert ChosenAt(log, k);
    }
  }

  lemma UntestedIs(log: seq<Event>)
    ensures NewestUntested(log) <==>
              NewestSubmission(log).Some? && NewestSubmission(log).value.AttemptCompleted?
              && NewestSubmission(log).value.verdict == Judged(true, None)
  {
    NewestAreNewest(log);
    if NewestUntested(log) {
      var k :| NewestSubmissionAt(log, k) && log[k].verdict == Judged(true, None);
      NewestIs(log, k);
    }
  }

  /**
   A passing candidate stays the choice. At a stop that is not fatal a patch is accepted exactly when
   some attempt passed its tests or the newest stored patch is valid and untested; the choice is
   the newest passing patch, or else the newest stored one.
   */
  lemma PassingCandidateIsKept(cfg: Config, trace: seq<Action>, stop: StopReason)
    requires Legal(cfg, trace)
    ensures RightChoice(StateAfter(cfg, trace).log, stop, Selected(StateAfter(cfg, trace).repair, stop))
  {
    Reachable(cfg, trace);
    ChoiceIsRight(StateAfter(cfg, trace), stop);
  }

  lemma {:induction false} NothingOutranksBest(patches: seq<Patch>)
    ensures patches != [] ==> GeneratedPatch(patches).Some?
    ensures GeneratedPatch(patches).Some? ==>
              && GeneratedPatch(patches).value in patches
              && forall i | 0 <= i < |patches| :: !Outranks(patches[i], GeneratedPatch(patches).value)
  {
    if patches != [] { NothingOutranksBest(patches[..|patches| - 1]); }
  }

  /** Flagging a choice makes it the run's final patch, and no choice leaves no final patch. */
  lemma FinalPatchIsTheChoice(patches: seq<Patch>, choice: Option<PatchId>)
    requires choice.Some? ==> !FreshId(patches, choice.value)
    ensures FinalPatchId(Flagged(patches, choice)) == choice
    ensures forall i | 0 <= i < |patches| :: Flagged(patches, choice)[i].selected <==> choice == Some(patches[i].id)
  {
    var flagged := Flagged(patches, choice);
    NothingOutranksBest(flagged);
    if choice.Some? {
      var i :| 0 <= i < |patches| && patches[i].id == choice.value;
      assert flagged[i].selected;
      assert !Outranks(flagged[i], GeneratedPatch(flagged).value);
    }
  }

  // ------------------------------------------------------------------- freshness

  /**
   Along a streak of failed-test attempts the hypothesis revision used strictly increases under
   the hypothesis policy, and under both plan policies the streak is at most 1 + max_plan_revisions long.
   */
  lemma StreaksAreFresh(cfg: Config, trace: seq<Action>)
    requires Legal(cfg, trace)
    ensures var streak := Streak(StateAfter(cfg, trace).log);
            && (cfg.requireHypothesisUpdate ==>
                  forall i, j | 0 <= i < j < |streak| :: streak[i].hypothesis < streak[j].hypothesis)
            && (cfg.requirePlanUpdate ==> forall i, j | 0 <= i < j < |streak| :: streak[i].plan < streak[j].plan)
            && (cfg.requirePlanUpdate && cfg.requirePlanBeforeEdit ==> |streak| <= 1 + cfg.maxPlanRevisions)
            && (cfg.requirePlanUpdate ==> |streak| <= 2 + cfg.maxPlanRevisions)
  {
    Reachable(cfg, trace);
    var streak := Streak(StateAfter(cfg, trace).log);
    if cfg.requirePlanUpdate { StreakFits(streak, if cfg.requirePlanBeforeEdit then 1 else 0, 1 + cfg.maxPlanRevisions); }
  }

  function Plans(streak: seq<Revisions>): seq<nat> {
    seq(|streak|, i requires 0 <= i < |streak| => streak[i].plan)
  }

  /** Increasing plan revisions between two bounds are no more than fit. */
  lemma StreakFits(streak: seq<Revisions>, lo: nat, hi: nat)
    requires lo <= hi
    requires forall i, j | 0 <= i < j < |streak| :: streak[i].plan < streak[j].plan
    requires forall i | 0 <= i < |streak| :: lo <= streak[i].plan <= hi
    ensures |streak| <= hi + 1 - lo
  {
    IncreasingFits(Plans(streak), lo, hi);
  }

  /** Past the revision limit no plan is accepted again, so no edit and no patch can follow. */
  lemma {:induction false} PlanLimitLocksTheRun(cfg: Config, trace: seq<Action>, more: seq<Action>)
    requires Legal(cfg, trace + more)
    requires cfg.requirePlanBeforeEdit && StateAfter(cfg, trace).plan.revision > 1 + cfg.maxPlanRevisions
    ensures var s, later := StateAfter(cfg, trace), StateAfter(cfg, trace + more);
            && later.plan.revision >= s.plan.revision && !later.plan.accepted
            && !MayWrite(cfg, later) && !MaySubmitPatch(cfg, later)
            && later.patches == s.patches && later.repair == s.repair
    decreases |more|
  {
    if more == [] {
      assert trace + more == trace;
      Reachable(cfg, trace);
    } else {
      var n := |more| - 1;
      assert (trace + more)[..|trace + more| - 1] == trace + more[..n];
      PlanLimitLocksTheRun(cfg, trace, more[..n]);
    }
  }

  // ------------------------------------------------------------- attempt accounting

  /** The submit tool of this backend returns a stored patch or raises; no other result occurs. */
  ghost predicate PatchesOnly(trace: seq<Action>) {
    forall i | 0 <= i < |trace| :: trace[i] != AttemptCall(InvalidResult)
  }

  /** A start stays without completion exactly when the last action got something that is no patch. */
  lemma {:induction false} UnfinishedIff(cfg: Config, trace: seq<Action>)
    requires Legal(cfg, trace)
    ensures Dangling(StateAfter(cfg, trace)) <==> trace != [] && trace[|trace| - 1] == AttemptCall(InvalidResult)
  {
    if trace != [] {
      var prefix, a := trace[..|trace| - 1], trace[|trace| - 1];
      var s := StateAfter(cfg, prefix);
      UnfinishedIff(cfg, prefix);
      Reachable(cfg, prefix);
      if a.AttemptCall? { DanglingAfter(cfg, s, a.submission); } else { OtherAction(cfg, s, a); }
    }
  }

  /**
   Attempts stay within the repair budget and the budget check never fires while the loop runs;
   starts and completions alternate in the event table. When the tool returns patches only, every
   attempt that starts is completed exactly once; otherwise the last one alone can be unfinished.
   */
  lemma AttemptsAreAccountedFor(cfg: Config, trace: seq<Action>)
    requires Legal(cfg, trace)
    ensures var s := StateAfter(cfg, trace);
            && s.repair.attempt <= 1 + cfg.maxRepairAttempts
            && (!s.stopped ==> s.repair.attempt < 1 + cfg.maxRepairAttempts)
            && s.repair.used == (if s.repair.attempt == 0 then 0 else s.repair.attempt - 1)
            && Paired(AttemptEvents(s.log))
            && (Dangling(s) <==> !PatchesOnly(trace))
            && (PatchesOnly(trace) ==> |AttemptEvents(s.log)| == 2 * s.repair.attempt)
            && (!PatchesOnly(trace) ==>
                  && trace[|trace| - 1] == AttemptCall(InvalidResult) && PatchesOnly(trace[..|trace| - 1])
                  && s.stopped && |AttemptEvents(s.log)| == 2 * s.repair.attempt - 1)
            && |s.patches| <= s.repair.attempt
  {
    Reachable(cfg, trace);
    UnfinishedIff(cfg, trace);
    BrokenToolEnds(cfg, trace);
  }

  /** A result that is no patch stops the run, so it can only be the last action. */
  lemma {:induction false} BrokenToolEnds(cfg: Config, trace: seq<Action>)
    requires Legal(cfg, trace)
    ensures trace != [] ==> PatchesOnly(trace[..|trace| - 1])
    ensures trace != [] && trace[|trace| - 1] == AttemptCall(InvalidResult) ==> StateAfter(cfg, trace).stopped
    ensures !PatchesOnly(trace) ==> trace[|trace| - 1] == AttemptCall(InvalidResult)
  {
    if trace != [] { BrokenToolEnds(cfg, trace[..|trace| - 1]); }
  }

  // ----------------------------------------------------------------- evidence

  lemma {:induction false} RankedAt(log: seq<Event>, f: Path)
    requires f in LatestRanking(log)
    ensures exists j :: RankedLast(log, j) && f in log[j].ranked
  {
    if log[|log| - 1].CandidatesRanked? {
      assert RankedLast(log, |log| - 1);
    } else {
      var prefix := log[..|log| - 1];
      RankedAt(prefix, f);
      var j :| RankedLast(prefix, j) && f in prefix[j].ranked;
      assert RankedLast(log, j);
    }
  }

  ghost predicate RankedLast(log: seq<Event>, j: int) {
    0 <= j < |log| && log[j].CandidatesRanked? && forall k | j < k < |log| :: !log[k].CandidatesRanked?
  }

  /**
   Under a policy that asks for ranking and without an override, every source file of a stored
   patch is in the ranking that was newest when the patch was stored, and had been read or
   retrieved before it was ranked.
   */
  lemma StoredSourcesHaveEvidence(cfg: Config, trace: seq<Action>, k: nat, f: Path)
    requires Legal(cfg, trace) && cfg.policy.requireCandidates && !cfg.guardrailOverride
    requires var log := StateAfter(cfg, trace).log; k < |log| && log[k].PatchStored? && f in log[k].sources
    ensures var log := StateAfter(cfg, trace).log;
            exists j :: RankedLast(log[..k], j) && f in log[j].ranked && Observed(log, j, f)
  {
    Reachable(cfg, trace);
    var log := StateAfter(cfg, trace).log;
    RankedAt(log[..k], f);
    var j :| RankedLast(log[..k], j) && f in log[..k][j].ranked;
    assert log[j].CandidatesRanked? && f in log[j].ranked;
  }

  /**
   The ranking does not change between a write and the next failed-test attempt that reopens it,
   and whenever the repair gate demands a new ranking, one submission that meets the ordinary rules
   is still accepted and lifts the demand.
   */
  lemma RankingFreezesWithoutDeadlock(cfg: Config, trace: seq<Action>, ranked: seq<Path>)
    requires Legal(cfg, trace)
    ensures var s := StateAfter(cfg, trace);
            && (forall i, j | 0 <= i < j < |s.log| && Writes(s.log[i]) && s.log[j].CandidatesRanked? ::
                  exists k :: i < k < j && Reopens(cfg, s.log[k]))
            && (RankingDemanded(cfg, s) ==> !MayWrite(cfg, s) && !s.candidates.editing)
            && (RankingDemanded(cfg, s) && 1 <= |ranked| <= cfg.maxCandidateFiles
                && (forall i, j | 0 <= i < j < |ranked| :: ranked[i] != ranked[j])
                && (forall i | 0 <= i < |ranked| :: ranked[i] in s.candidates.read + s.candidates.retrieved)
                ==> Enabled(cfg, s, RankCall(ranked)) && !RankingDemanded(cfg, Next(cfg, s, RankCall(ranked))))
  {
    Reachable(cfg, trace);
    var s := StateAfter(cfg, trace);
    forall i, j | 0 <= i < j < |s.log| && Writes(s.log[i]) && s.log[j].CandidatesRanked?
      ensures exists k :: i < k < j && Reopens(cfg, s.log[k])
    {
      assert ReopenedBetween(cfg, s.log, i, j);
    }
  }
}
