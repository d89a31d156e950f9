/**
 The gates of a run read off its event table: what may be edited, submitted, ranked or planned, and
 whether the run goes on, said by the events alone.
 */
module GateReadings {
  import opened Wrappers
  import opened Protocol
  import opened ProtocolSafety
  import EditScope

  predicate IsReview(e: Event) { e.PlanReviewed? }
  predicate IsRanking(e: Event) { e.CandidatesRanked? }
  predicate IsStored(e: Event) { e.PatchStored? }
  predicate IsAttempt(e: Event) { e.AttemptStarted? || e.AttemptCompleted? }

  predicate FailsTests(e: Event) {
    e.AttemptCompleted? && e.verdict.Judged? && e.verdict.passed == Some(false)
  }

  /** A valid patch whose tests did not fail. */
  predicate SettlesEvent(e: Event) {
    e.AttemptCompleted? && (e.verdict == Judged(true, None) || e.verdict == Judged(true, Some(true)))
  }

  /** An assessment after which the run stops. */
  predicate EndsRun(cfg: Config, e: Event) {
    && e.AttemptCompleted?
    && (|| e.verdict.Errored?
        || e.number == 1 + cfg.maxRepairAttempts
        || e.verdict == Judged(true, None)
        || (cfg.stopOnFirstPassingPatch && e.verdict == Judged(true, Some(true))))
  }

  // ---------------------------------------------------------- counts and positions

  function Positions(log: seq<Event>, p: Event -> bool): set<int> {
    set k | 0 <= k < |log| && p(log[k])
  }

  function Count(log: seq<Event>, p: Event -> bool): nat {
    |Positions(log, p)|
  }

  lemma CountSnoc(log: seq<Event>, e: Event, p: Event -> bool)
    ensures Count(log + [e], p) == Count(log, p) + if p(e) then 1 else 0
  {
    var next, more := log + [e], Positions(log, p) + if p(e) then {|log|} else {};
    assert next[|log|] == e;
    assert forall k | 0 <= k < |log| :: next[k] == log[k];
    assert Positions(next, p) == more;
  }

  ghost predicate Newest(log: seq<Event>, p: Event -> bool, k: int) {
    0 <= k < |log| && p(log[k]) && forall j | k < j < |log| :: !p(log[j])
  }

  lemma NewestAfter(log: seq<Event>, e: Event, p: Event -> bool)
    ensures forall k :: Newest(log + [e], p, k) <==> if p(e) then k == |log| else Newest(log, p, k)
  {
    var next := log + [e];
    forall k ensures Newest(next, p, k) <==> if p(e) then k == |log| else Newest(log, p, k) {
      assert next[|log|] == e;
      assert forall j | 0 <= j < |log| :: next[j] == log[j];
    }
  }

  /** The events of this kind are numbered 1, 2, ... by `number`. */
  ghost predicate Numbered(log: seq<Event>, p: Event -> bool, number: Event -> nat) {
    forall k | 0 <= k < |log| && p(log[k]) :: number(log[k]) == Count(log[..k + 1], p)
  }

  lemma NumberedSnoc(log: seq<Event>, e: Event, p: Event -> bool, number: Event -> nat)
    requires Numbered(log, p, number) && (p(e) ==> number(e) == Count(log, p) + 1)
    ensures Numbered(log + [e], p, number)
  {
    var next := log + [e];
    CountSnoc(log, e, p);
    forall k | 0 <= k < |next| && p(next[k]) ensures number(next[k]) == Count(next[..k + 1], p) {
      if k < |log| { assert next[..k + 1] == log[..k + 1]; } else { assert next[..k + 1] == next; }
    }
  }

  function NumberOf(e: Event): nat {
    match e
    case PlanReviewed(revision, _, _) => revision
    case CandidatesRanked(revision, _) => revision
    case PatchStored(_, version, _) => version
    case _ => 0
  }

  // ------------------------------------------------------ plans, rankings, evidence

  /** The newest reviewed plan was accepted. */
  ghost predicate Stands(log: seq<Event>) {
    exists k :: Newest(log, IsReview, k) && log[k].accepted
  }

  predicate Teaches(e: Event, f: Path) {
    e.ToolSucceeded? && e.tool in {ReadFile, SearchCode, RetrieveRelevantFiles} && f in e.files
  }

  /** File `f` was read, found by a search, or returned by retrieval. */
  ghost predicate Seen(log: seq<Event>, f: Path) {
    exists i :: 0 <= i < |log| && Teaches(log[i], f)
  }

  /** File `f` was read or returned by retrieval. */
  ghost predicate Known(log: seq<Event>, f: Path) {
    Observed(log, |log|, f)
  }

  ghost predicate PlansRead(p: PlanState, log: seq<Event>) {
    && p.revision == Count(log, IsReview) && (p.accepted <==> Stands(log))
    && (forall f :: f in p.evidence <==> Seen(log, f))
  }

  ghost predicate RankingsRead(c: CandidateState, log: seq<Event>) {
    && c.revision == Count(log, IsRanking) && (c.submitted <==> Count(log, IsRanking) > 0)
    && (forall f :: f in c.read + c.retrieved <==> Known(log, f))
  }

  ghost predicate AllNumbered(log: seq<Event>) {
    Numbered(log, IsReview, NumberOf) && Numbered(log, IsRanking, NumberOf) && Numbered(log, IsStored, NumberOf)
  }

  lemma SeenSnoc(log: seq<Event>, e: Event, f: Path)
    ensures Seen(log + [e], f) <==> Seen(log, f) || Teaches(e, f)
    ensures Known(log + [e], f) <==> Known(log, f) || Shows(e, f)
  {
    var next := log + [e];
    assert next[|log|] == e;
    assert forall i | 0 <= i < |log| :: next[i] == log[i];
    if Seen(log, f) {
      var i :| 0 <= i < |log| && Teaches(log[i], f);
      assert Teaches(next[i], f);
    }
    if Known(log, f) {
      var i :| 0 <= i < |log| && Shows(log[i], f);
      assert Shows(next[i], f);
    }
    if Teaches(e, f) { assert Teaches(next[|log|], f); }
    if Shows(e, f) { assert Shows(next[|log|], f); }
  }

  lemma StandsSnoc(log: seq<Event>, e: Event)
    ensures Stands(log + [e]) <==> if e.PlanReviewed? then e.accepted else Stands(log)
  {
    var next := log + [e];
    NewestAfter(log, e, IsReview);
    assert next[|log|] == e;
    if e.PlanReviewed? {
      assert Newest(next, IsReview, |log|);
    } else if Stands(log) {
      var k :| Newest(log, IsReview, k) && log[k].accepted;
      assert Newest(next, IsReview, k) && next[k].accepted;
    }
    if Stands(next) {
      var k :| Newest(next, IsReview, k) && next[k].accepted;
      if !e.PlanReviewed? { assert Newest(log, IsReview, k) && log[k].accepted; }
    }
  }

  /** One event and what the planning and candidate services make of it. */
  lemma PlansAfter(p: PlanState, log: seq<Event>, e: Event, next: PlanState)
    requires PlansRead(p, log)
    requires next.revision == p.revision + if e.PlanReviewed? then 1 else 0
    requires next.accepted == if e.PlanReviewed? then e.accepted else p.accepted
    requires forall f :: f in next.evidence <==> f in p.evidence || Teaches(e, f)
    ensures PlansRead(next, log + [e])
  {
    CountSnoc(log, e, IsReview);
    StandsSnoc(log, e);
    forall f ensures f in next.evidence <==> Seen(log + [e], f) { SeenSnoc(log, e, f); }
  }

  lemma RankingsAfter(c: CandidateState, log: seq<Event>, e: Event, next: CandidateState)
    requires RankingsRead(c, log)
    requires next.revision == c.revision + if e.CandidatesRanked? then 1 else 0
    requires next.submitted == (e.CandidatesRanked? || c.submitted)
    requires forall f :: f in next.read + next.retrieved <==> f in c.read + c.retrieved || Shows(e, f)
    ensures RankingsRead(next, log + [e])
  {
    CountSnoc(log, e, IsRanking);
    forall f ensures f in next.read + next.retrieved <==> Known(log + [e], f) { SeenSnoc(log, e, f); }
  }

  ghost predicate ServicesRead(s: RunState) {
    && PlansRead(s.plan, s.log) && RankingsRead(s.candidates, s.log)
    && |s.patches| == Count(s.log, IsStored) && AllNumbered(s.log)
  }

  /** An event of a submission, which the two services do not see. */
  predicate Quiet(e: Event) {
    !e.PlanReviewed? && !e.CandidatesRanked? && (e.ToolSucceeded? ==> e.tool == SubmitPatch)
  }

  ghost predicate TableRead(p: PlanState, c: CandidateState, stored: nat, log: seq<Event>) {
    PlansRead(p, log) && RankingsRead(c, log) && stored == Count(log, IsStored) && AllNumbered(log)
  }

  lemma NumberedAfter(log: seq<Event>, e: Event)
    requires AllNumbered(log)
    requires e.PlanReviewed? ==> e.revision == Count(log, IsReview) + 1
    requires e.CandidatesRanked? ==> e.revision == Count(log, IsRanking) + 1
    requires e.PatchStored? ==> e.version == Count(log, IsStored) + 1
    ensures AllNumbered(log + [e])
  {
    NumberedSnoc(log, e, IsReview, NumberOf);
    NumberedSnoc(log, e, IsRanking, NumberOf);
    NumberedSnoc(log, e, IsStored, NumberOf);
  }

  lemma QuietAfter(p: PlanState, c: CandidateState, stored: nat, log: seq<Event>, e: Event)
    requires TableRead(p, c, stored, log) && Quiet(e) && (e.PatchStored? ==> e.version == stored + 1)
    ensures TableRead(p, c, stored + if e.PatchStored? then 1 else 0, log + [e])
  {
    PlansAfter(p, log, e, p);
    RankingsAfter(c, log, e, c);
    CountSnoc(log, e, IsStored);
    NumberedAfter(log, e);
  }

  lemma EditingIsUnread(p: PlanState, c: CandidateState, stored: nat, log: seq<Event>)
    requires TableRead(p, c, stored, log)
    ensures TableRead(p, c.(editing := false), stored, log)
  {
  }

  lemma AttemptRead(cfg: Config, s: RunState, sub: Submission)
    requires ServicesRead(s) && PatchInv(s)
    ensures ServicesRead(AttemptNext(cfg, s, sub))
  {
    var p, c, n, l := s.plan, s.candidates, |s.patches|, StoredLog(cfg, s, sub);
    AttemptLog(cfg, s, sub);
    VersionsCount(s.patches);
    QuietAfter(p, c, n, s.log, Started(s));
    if sub.Submitted? {
      var stored := PatchStored(sub.id, MaxVersion(s.patches) + 1, Sources(cfg, sub.files));
      QuietAfter(p, c, n, StartedLog(s), stored);
      QuietAfter(p, c, n + 1, StartedLog(s) + [stored], ToolSucceeded(SubmitPatch, sub.files));
    }
    var m := |Stored(s.patches, sub)|;
    QuietAfter(p, c, m, l, Completion(s, sub));
    QuietAfter(p, c, m, l + [Completion(s, sub)], RepairLimitReached);
    EditingIsUnread(p, c, m, AttemptNext(cfg, s, sub).log);
  }

  lemma ObserveRead(cfg: Config, s: RunState, tool: ToolName, files: set<Path>)
    requires ServicesRead(s)
    ensures ServicesRead(Next(cfg, s, Observe(tool, files)))
  {
    var e, next := ToolSucceeded(tool, files), Next(cfg, s, Observe(tool, files));
    PlansAfter(s.plan, s.log, e, next.plan);
    RankingsAfter(s.candidates, s.log, e, next.candidates);
    CountSnoc(s.log, e, IsStored);
    NumberedAfter(s.log, e);
  }

  lemma PlanRead(cfg: Config, s: RunState, plan: Option<PlanInput>)
    requires ServicesRead(s)
    ensures ServicesRead(Next(cfg, s, PlanCall(plan)))
  {
    var next := Next(cfg, s, PlanCall(plan));
    var e := next.log[|s.log|];
    PlansAfter(s.plan, s.log, e, next.plan);
    RankingsAfter(s.candidates, s.log, e, next.candidates);
    CountSnoc(s.log, e, IsStored);
    NumberedAfter(s.log, e);
  }

  lemma RankedAfter(p: PlanState, c: CandidateState, stored: nat, log: seq<Event>, ranked: seq<Path>)
    requires TableRead(p, c, stored, log)
    ensures TableRead(p, c.(submitted := true, revision := c.revision + 1), stored, log + [CandidatesRanked(c.revision + 1, ranked)])
  {
    var e := CandidatesRanked(c.revision + 1, ranked);
    PlansAfter(p, log, e, p);
    RankingsAfter(c, log, e, c.(submitted := true, revision := c.revision + 1));
    CountSnoc(log, e, IsStored);
    NumberedAfter(log, e);
  }

  lemma RankRead(cfg: Config, s: RunState, ranked: seq<Path>)
    requires ServicesRead(s)
    ensures ServicesRead(Next(cfg, s, RankCall(ranked)))
  {
    var c, next := s.candidates, Next(cfg, s, RankCall(ranked));
    assert next == s.(candidates := c.(submitted := true, revision := c.revision + 1),
                      log := s.log + [CandidatesRanked(c.revision + 1, ranked)]);
    RankedAfter(s.plan, c, |s.patches|, s.log, ranked);
  }

  lemma FreshRead()
    ensures ServicesRead(FRESH)
  {
    assert Positions([], IsReview) == {} && Positions([], IsRanking) == {} && Positions([], IsStored) == {};
  }

  lemma {:induction false} ServicesReadable(cfg: Config, trace: seq<Action>)
    requires Legal(cfg, trace)
    ensures ServicesRead(StateAfter(cfg, trace))
  {
    if trace == [] {
      FreshRead();
    } else {
      var prefix, a := trace[..|trace| - 1], trace[|trace| - 1];
      var s := StateAfter(cfg, prefix);
      ServicesReadable(cfg, prefix);
      Reachable(cfg, prefix);
      match a
      case Observe(tool, files) => ObserveRead(cfg, s, tool, files);
      case PlanCall(plan) => PlanRead(cfg, s, plan);
      case RankCall(ranked) => RankRead(cfg, s, ranked);
      case HypothesisCall(_) =>
      case AttemptCall(sub) => AttemptRead(cfg, s, sub);
    }
  }

  // ----------------------------------------------------- demands of failed attempts

  /** The newest failed-test attempt, if no later attempt settled. */
  ghost predicate DemandAt(log: seq<Event>, k: int) {
    Newest(log, FailsTests, k) && forall j | k < j < |log| :: !SettlesEvent(log[j])
  }

  lemma {:induction false} StreakIs(log: seq<Event>)
    ensures Streak(log) != [] <==> exists k :: DemandAt(log, k)
    ensures forall k | DemandAt(log, k) :: Streak(log) != [] && Streak(log)[|Streak(log)| - 1] == log[k].revisions
  {
    if log != [] {
      var n, e := |log| - 1, log[|log| - 1];
      var prefix := log[..n];
      StreakIs(prefix);
      assert log == prefix + [e];
      StreakSnoc(prefix, e);
      NewestAfter(prefix, e, FailsTests);
      SettlesReading(e);
      if FailsTests(e) {
        assert DemandAt(log, n);
      } else if !SettlesEvent(e) && Streak(prefix) != [] {
        var k :| DemandAt(prefix, k);
        assert DemandAt(log, k);
      }
      forall k | DemandAt(log, k)
        ensures Streak(log) != [] && Streak(log)[|Streak(log)| - 1] == log[k].revisions
      {
        if k < n { assert DemandAt(prefix, k); }
      }
    }
  }

  lemma SettlesReading(e: Event)
    ensures e.AttemptCompleted? ==> (Settles(e.verdict) <==> SettlesEvent(e))
    ensures SettlesEvent(e) ==> !FailsTests(e)
  {
    if e.AttemptCompleted? && e.verdict.Judged? {
      match e.verdict.passed
      case None => assert e.verdict == Judged(e.verdict.valid, None);
      case Some(passed) => assert e.verdict == Judged(e.verdict.valid, Some(passed));
    }
  }

  /** The plan revision attempts and gates go by: the newest review if it was accepted. */
  ghost function PlanInForce(log: seq<Event>): nat {
    if Stands(log) then Count(log, IsReview) else 0
  }

  lemma RevisionsReading(s: RunState, statuses: seq<Status>)
    requires PlansRead(s.plan, s.log) && RankingsRead(s.candidates, s.log) && Faithful(s.hypotheses, statuses)
    ensures CurrentRevisions(s) == Revisions(LastLive(statuses), PlanInForce(s.log), Count(s.log, IsRanking))
  {
  }

  lemma StreakReading(log: seq<Event>, required: Option<Revisions>)
    requires Demands(Streak(log), required)
    ensures required.Some? <==> exists k :: DemandAt(log, k)
    ensures forall k | DemandAt(log, k) :: required == Some(log[k].revisions)
  {
    StreakIs(log);
  }

  lemma DemandReading(cfg: Config, trace: seq<Action>)
    requires Legal(cfg, trace) && !StateAfter(cfg, trace).stopped
    ensures var s := StateAfter(cfg, trace);
            && (s.repair.required.Some? <==> exists k :: DemandAt(s.log, k))
            && (forall k | DemandAt(s.log, k) :: s.repair.required == Some(s.log[k].revisions))
            && CurrentRevisions(s) ==
               Revisions(LastLive(SubmittedStatuses(trace)), PlanInForce(s.log), Count(s.log, IsRanking))
  {
    Reachable(cfg, trace);
    ServicesReadable(cfg, trace);
    HypothesisLogIsFaithful(cfg, trace);
    var s := StateAfter(cfg, trace);
    StreakReading(s.log, s.repair.required);
    RevisionsReading(s, SubmittedStatuses(trace));
  }

  /**
   A file may be written exactly if an accepted plan stands and a ranking was submitted, where the
   policy asks for them, and plan and ranking are newer than those of the newest failed-test attempt
   that no later attempt settled, where the policy asks for an update.
   */
  lemma WriteGate(cfg: Config, trace: seq<Action>)
    requires Legal(cfg, trace) && !StateAfter(cfg, trace).stopped
    ensures var s := StateAfter(cfg, trace);
            MayWrite(cfg, s) <==>
              && (cfg.requirePlanBeforeEdit ==> Stands(s.log))
              && (cfg.requireCandidatesBeforeEdit ==> Count(s.log, IsRanking) > 0)
              && (forall k | DemandAt(s.log, k) ::
                    && (cfg.requirePlanUpdate ==> PlanInForce(s.log) > s.log[k].revisions.plan)
                    && (cfg.requireCandidateUpdate ==> Count(s.log, IsRanking) > s.log[k].revisions.candidates))
  {
    ServicesReadable(cfg, trace);
    DemandReading(cfg, trace);
    var s := StateAfter(cfg, trace);
    if s.repair.required.Some? {
      var k :| DemandAt(s.log, k);
    }
  }

  /** ... and a patch may be submitted exactly if the same holds of the plan and of the hypothesis. */
  lemma SubmitGate(cfg: Config, trace: seq<Action>)
    requires Legal(cfg, trace) && !StateAfter(cfg, trace).stopped
    ensures var s, live := StateAfter(cfg, trace), LastLive(SubmittedStatuses(trace));
            MaySubmitPatch(cfg, s) <==>
              && (cfg.requirePlanBeforeEdit ==> Stands(s.log))
              && (cfg.requireHypothesisBeforePatch ==> live > 0)
              && (forall k | DemandAt(s.log, k) ::
                    && (cfg.requirePlanUpdate ==> PlanInForce(s.log) > s.log[k].revisions.plan)
                    && (cfg.requireHypothesisUpdate ==> live > s.log[k].revisions.hypothesis))
  {
    ServicesReadable(cfg, trace);
    DemandReading(cfg, trace);
    var s := StateAfter(cfg, trace);
    if s.repair.required.Some? {
      var k :| DemandAt(s.log, k);
    }
  }

  /** A plan within the revision limit that rests on enough files, all of them seen in the run. */
  ghost predicate PlanEarned(cfg: Config, log: seq<Event>, plan: Option<PlanInput>) {
    && plan.Some? && Count(log, IsReview) <= cfg.maxPlanRevisions
    && (forall f | f in plan.value.inspected :: Seen(log, f))
    && |plan.value.inspected| >= cfg.planMinEvidenceFiles
  }

  lemma PlanReading(cfg: Config, p: PlanState, log: seq<Event>, plan: Option<PlanInput>)
    requires PlansRead(p, log)
    ensures PlanAccepted(cfg, p, plan) <==> PlanEarned(cfg, log, plan)
  {
  }

  /** The event of a review. */
  ghost predicate Reviewed(e: Event, revision: nat, plan: Option<PlanInput>, accepted: bool) {
    && e.PlanReviewed? && e.revision == revision && e.accepted == accepted
    && (accepted ==> plan.Some? && e.likely == plan.value.likely) && (!accepted ==> e.likely == {})
  }

  lemma PlanLogged(cfg: Config, s: RunState, plan: Option<PlanInput>)
    ensures var log := Next(cfg, s, PlanCall(plan)).log;
            && |log| == |s.log| + 1 && s.log <= log
            && Reviewed(log[|s.log|], s.plan.revision + 1, plan, PlanAccepted(cfg, s.plan, plan))
  {
  }

  /** Any plan may be submitted; it is accepted exactly if it is earned, and the review is logged. */
  lemma PlanGate(cfg: Config, trace: seq<Action>, plan: Option<PlanInput>)
    requires Legal(cfg, trace)
    ensures var s := StateAfter(cfg, trace);
            var log := Next(cfg, s, PlanCall(plan)).log;
            && |log| == |s.log| + 1 && s.log <= log
            && Reviewed(log[|s.log|], Count(s.log, IsReview) + 1, plan, PlanEarned(cfg, s.log, plan))
  {
    ServicesReadable(cfg, trace);
    PlanReading(cfg, StateAfter(cfg, trace).plan, StateAfter(cfg, trace).log, plan);
    PlanLogged(cfg, StateAfter(cfg, trace), plan);
  }

  /** A ranking is accepted exactly while it is open, if it has no repeats and every file was read or retrieved. */
  lemma RankingGate(cfg: Config, trace: seq<Action>, ranked: seq<Path>)
    requires Legal(cfg, trace) && !StateAfter(cfg, trace).stopped
    ensures var s := StateAfter(cfg, trace);
            Enabled(cfg, s, RankCall(ranked)) <==>
              && !OpenWrite(cfg, s.log) && 1 <= |ranked| <= cfg.maxCandidateFiles
              && (forall i, j | 0 <= i < j < |ranked| :: ranked[i] != ranked[j])
              && (forall i | 0 <= i < |ranked| :: Known(s.log, ranked[i]))
  {
    Reachable(cfg, trace);
    ServicesReadable(cfg, trace);
    WrittenSinceIs(cfg, StateAfter(cfg, trace).log);
  }

  /** Some file was written and no failed-test attempt with budget left came after it. */
  ghost predicate OpenWrite(cfg: Config, log: seq<Event>) {
    exists i :: 0 <= i < |log| && Writes(log[i])
                && forall k | i < k < |log| && FailsTests(log[k]) :: log[k].number >= 1 + cfg.maxRepairAttempts
  }

  lemma WrittenSinceIs(cfg: Config, log: seq<Event>)
    ensures WrittenSince(cfg, log) <==> OpenWrite(cfg, log)
  {
    if WrittenSince(cfg, log) {
      LastWriteStands(cfg, log);
    } else {
      ReopenedAfterWrites(cfg, log);
      forall i | 0 <= i < |log| && Writes(log[i])
        ensures exists k :: i < k < |log| && FailsTests(log[k]) && log[k].number < 1 + cfg.maxRepairAttempts
      {
        assert ReopenedBetween(cfg, log, i, |log|);
        var k :| i < k < |log| && Reopens(cfg, log[k]);
        assert FailsTests(log[k]);
      }
    }
  }

  lemma {:induction false} LastWriteStands(cfg: Config, log: seq<Event>)
    requires WrittenSince(cfg, log)
    ensures OpenWrite(cfg, log)
  {
    var n := |log| - 1;
    if Writes(log[n]) {
      assert OpenWrite(cfg, log);
    } else {
      LastWriteStands(cfg, log[..n]);
      var i :| 0 <= i < n && Writes(log[..n][i])
               && forall k | i < k < n && FailsTests(log[..n][k]) :: log[..n][k].number >= 1 + cfg.maxRepairAttempts;
      assert Writes(log[i]);
      forall k | i < k < |log| && FailsTests(log[k]) ensures log[k].number >= 1 + cfg.maxRepairAttempts {
        if k < n { assert log[..n][k] == log[k]; }
      }
    }
  }

  // ------------------------------------------------------------ how a run goes on

  /** The newest attempt was never assessed, or its assessment ends the run. */
  ghost predicate RunEnded(cfg: Config, log: seq<Event>) {
    exists k :: Newest(log, IsAttempt, k) && (log[k].AttemptStarted? || EndsRun(cfg, log[k]))
  }

  /** The last attempt the budget allows was judged, and it did not settle. */
  predicate UsesUp(cfg: Config, e: Event) {
    && e.AttemptCompleted? && e.number == 1 + cfg.maxRepairAttempts
    && e.verdict.Judged? && (!e.verdict.valid || e.verdict.passed == Some(false))
  }

  /** The limit is logged right after each such completion, and nowhere else. */
  ghost predicate LimitsLogged(cfg: Config, log: seq<Event>) {
    forall k | 0 <= k <= |log| :: LimitAt(cfg, log, k)
  }

  predicate LimitAt(cfg: Config, log: seq<Event>, k: int)
    requires 0 <= k <= |log|
  {
    (k < |log| && log[k].RepairLimitReached?) <==> (k > 0 && UsesUp(cfg, log[k - 1]))
  }

  lemma LimitSnoc(cfg: Config, log: seq<Event>, e: Event)
    requires LimitsLogged(cfg, log) && !UsesUp(cfg, e) && !e.RepairLimitReached?
    ensures LimitsLogged(cfg, log + [e])
  {
    var next := log + [e];
    forall k | 0 <= k <= |next| ensures LimitAt(cfg, next, k) {
      if k <= |log| { assert LimitAt(cfg, log, k); }
    }
  }

  lemma LimitAfterUse(cfg: Config, log: seq<Event>, e: Event)
    requires LimitsLogged(cfg, log) && UsesUp(cfg, e)
    ensures LimitsLogged(cfg, log + [e] + [RepairLimitReached])
  {
    var next := log + [e] + [RepairLimitReached];
    forall k | 0 <= k <= |next| ensures LimitAt(cfg, next, k) {
      if k <= |log| { assert LimitAt(cfg, log, k); }
    }
  }

  lemma EndedSnoc(cfg: Config, log: seq<Event>, e: Event)
    ensures RunEnded(cfg, log + [e]) <==>
              if IsAttempt(e) then e.AttemptStarted? || EndsRun(cfg, e) else RunEnded(cfg, log)
  {
    var next := log + [e];
    NewestAfter(log, e, IsAttempt);
    assert next[|log|] == e;
    if IsAttempt(e) {
      assert Newest(next, IsAttempt, |log|);
    } else {
      if RunEnded(cfg, log) {
        var k :| Newest(log, IsAttempt, k) && (log[k].AttemptStarted? || EndsRun(cfg, log[k]));
        assert Newest(next, IsAttempt, k) && next[k] == log[k];
      }
      if RunEnded(cfg, next) {
        var k :| Newest(next, IsAttempt, k) && (next[k].AttemptStarted? || EndsRun(cfg, next[k]));
        assert Newest(log, IsAttempt, k) && next[k] == log[k];
      }
    }
  }

  lemma EndsReading(cfg: Config, r: Repair, patch: Option<PatchId>, v: Verdict)
    requires 1 <= r.attempt <= 1 + cfg.maxRepairAttempts
    ensures var e := AttemptCompleted(r.attempt, r.revisions, patch, v);
            (Stops(cfg, r, v) <==> EndsRun(cfg, e)) && (ReachesLimit(cfg, r, v) <==> UsesUp(cfg, e))
  {
    if v.Judged? {
      match v.passed
      case None => assert v == Judged(v.valid, None);
      case Some(passed) => assert v == Judged(v.valid, Some(passed));
    }
  }

  ghost predicate EndsRead(cfg: Config, s: RunState) {
    (s.stopped <==> RunEnded(cfg, s.log)) && LimitsLogged(cfg, s.log)
  }

  /** The log of a submission up to its completion. */
  lemma StoredEnds(cfg: Config, s: RunState, sub: Submission)
    requires LimitsLogged(cfg, s.log)
    ensures RunEnded(cfg, StartedLog(s)) && LimitsLogged(cfg, StartedLog(s)) && LimitsLogged(cfg, StoredLog(cfg, s, sub))
  {
    AttemptLog(cfg, s, sub);
    EndedSnoc(cfg, s.log, Started(s));
    LimitSnoc(cfg, s.log, Started(s));
    if sub.Submitted? {
      var stored := PatchStored(sub.id, MaxVersion(s.patches) + 1, Sources(cfg, sub.files));
      LimitSnoc(cfg, StartedLog(s), stored);
      LimitSnoc(cfg, StartedLog(s) + [stored], ToolSucceeded(SubmitPatch, sub.files));
    }
  }

  lemma CompletedEnds(cfg: Config, log: seq<Event>, r: Repair, patch: Option<PatchId>, v: Verdict)
    requires LimitsLogged(cfg, log) && 1 <= r.attempt <= 1 + cfg.maxRepairAttempts
    ensures RunEnded(cfg, CompletedLog(cfg, log, r, patch, v)) <==> Stops(cfg, r, v)
    ensures LimitsLogged(cfg, CompletedLog(cfg, log, r, patch, v))
  {
    var e := AttemptCompleted(r.attempt, r.revisions, patch, v);
    EndsReading(cfg, r, patch, v);
    EndedSnoc(cfg, log, e);
    EndedSnoc(cfg, log + [e], RepairLimitReached);
    if UsesUp(cfg, e) { LimitAfterUse(cfg, log, e); } else { LimitSnoc(cfg, log, e); }
  }

  lemma EndsStep(cfg: Config, s: RunState, a: Action)
    requires EndsRead(cfg, s) && AccountInv(cfg, s) && Enabled(cfg, s, a)
    ensures EndsRead(cfg, Next(cfg, s, a))
  {
    match a
    case HypothesisCall(_) =>
    case AttemptCall(sub) =>
      StoredEnds(cfg, s, sub);
      if !sub.InvalidResult? {
        CompletedEnds(cfg, StoredLog(cfg, s, sub), Began(s.repair, CurrentRevisions(s)), PatchOf(sub), VerdictOf(sub));
      }
    case _ =>
      var e := Next(cfg, s, a).log[|s.log|];
      EndedSnoc(cfg, s.log, e);
      LimitSnoc(cfg, s.log, e);
  }

  /**
   A run goes on until an attempt is left unassessed or its assessment raises, uses up the budget,
   finds a valid patch without tests, or a passing one where the first ends the run. The repair limit
   is logged right after an assessment that used up the budget without settling, and only there.
   */
  lemma {:induction false} RunEndsIff(cfg: Config, trace: seq<Action>)
    requires Legal(cfg, trace)
    ensures StateAfter(cfg, trace).stopped <==> RunEnded(cfg, StateAfter(cfg, trace).log)
    ensures LimitsLogged(cfg, StateAfter(cfg, trace).log)
  {
    if trace != [] {
      var prefix := trace[..|trace| - 1];
      RunEndsIff(cfg, prefix);
      Reachable(cfg, prefix);
      EndsStep(cfg, StateAfter(cfg, prefix), trace[|trace| - 1]);
    }
  }

  // ------------------------------------------------------------------- numbering

  /** Reviews, rankings and stored patches are numbered 1, 2, ... in the table, and the rows as the patches are stored. */
  lemma NumbersCount(cfg: Config, trace: seq<Action>)
    requires Legal(cfg, trace)
    ensures var s := StateAfter(cfg, trace);
            && AllNumbered(s.log) && |s.patches| == Count(s.log, IsStored)
            && (forall i | 0 <= i < |s.patches| :: s.patches[i].version == i + 1)
            && (forall i, j | 0 <= i < j < |s.patches| :: s.patches[i].id != s.patches[j].id)
  {
    Reachable(cfg, trace);
    ServicesReadable(cfg, trace);
  }

  /** The submissions of a run that stored a patch, in order. */
  function Submissions(trace: seq<Action>): seq<Submission> {
    if trace == [] then []
    else
      var a := trace[|trace| - 1];
      Submissions(trace[..|trace| - 1]) + if a.AttemptCall? && a.submission.Submitted? then [a.submission] else []
  }

  /** A stored row is its submission, not yet selected. */
  ghost predicate RowsAre(patches: seq<Patch>, subs: seq<Submission>) {
    && |patches| == |subs|
    && forall i | 0 <= i < |subs| ::
         subs[i].Submitted? && patches[i] == Patch(subs[i].id, i + 1, subs[i].text, subs[i].files, false)
  }

  predicate SourceCode(k: EditScope.Kind) {
    k.sourceSuffix && !k.test && !k.docs && !k.config
  }

  /** Its event names it, with the source files it changes. */
  ghost predicate StoredEventIs(cfg: Config, e: Event, subs: seq<Submission>) {
    e.PatchStored? ==>
      && 1 <= e.version <= |subs| && subs[e.version - 1].Submitted? && e.id == subs[e.version - 1].id
      && forall f :: f in e.sources <==> f in subs[e.version - 1].files && SourceCode(cfg.kind(f))
  }

  ghost predicate StoredEventsAre(cfg: Config, log: seq<Event>, subs: seq<Submission>) {
    forall k | 0 <= k < |log| :: StoredEventIs(cfg, log[k], subs)
  }

  lemma StoredEventsSnoc(cfg: Config, log: seq<Event>, e: Event, subs: seq<Submission>)
    requires StoredEventsAre(cfg, log, subs) && StoredEventIs(cfg, e, subs)
    ensures StoredEventsAre(cfg, log + [e], subs)
  {
    var next := log + [e];
    forall k | 0 <= k < |next| ensures StoredEventIs(cfg, next[k], subs) {
      if k < |log| { assert StoredEventIs(cfg, log[k], subs); }
    }
  }

  lemma MoreSubmissions(cfg: Config, log: seq<Event>, subs: seq<Submission>, sub: Submission)
    requires StoredEventsAre(cfg, log, subs)
    ensures StoredEventsAre(cfg, log, subs + [sub])
  {
    forall k | 0 <= k < |log| ensures StoredEventIs(cfg, log[k], subs + [sub]) {
      assert StoredEventIs(cfg, log[k], subs);
    }
  }

  lemma AttemptStores(cfg: Config, s: RunState, subs: seq<Submission>, sub: Submission)
    requires RowsAre(s.patches, subs) && StoredEventsAre(cfg, s.log, subs) && PatchInv(s)
    ensures var more := subs + if sub.Submitted? then [sub] else [];
            RowsAre(Stored(s.patches, sub), more) && StoredEventsAre(cfg, AttemptNext(cfg, s, sub).log, more)
  {
    var more, l := subs + if sub.Submitted? then [sub] else [], StoredLog(cfg, s, sub);
    AttemptLog(cfg, s, sub);
    VersionsCount(s.patches);
    StoredEventsSnoc(cfg, s.log, Started(s), subs);
    if sub.Submitted? {
      var stored := PatchStored(sub.id, MaxVersion(s.patches) + 1, Sources(cfg, sub.files));
      MoreSubmissions(cfg, StartedLog(s), subs, sub);
      StoredEventsSnoc(cfg, StartedLog(s), stored, more);
      StoredEventsSnoc(cfg, StartedLog(s) + [stored], ToolSucceeded(SubmitPatch, sub.files), more);
    } else {
      assert more == subs;
    }
    StoredEventsSnoc(cfg, l, Completion(s, sub), more);
    StoredEventsSnoc(cfg, l + [Completion(s, sub)], RepairLimitReached, more);
  }

  lemma OtherStores(cfg: Config, s: RunState, a: Action, subs: seq<Submission>)
    requires !a.AttemptCall? && StoredEventsAre(cfg, s.log, subs)
    ensures Next(cfg, s, a).patches == s.patches && StoredEventsAre(cfg, Next(cfg, s, a).log, subs)
  {
    if !a.HypothesisCall? { StoredEventsSnoc(cfg, s.log, Next(cfg, s, a).log[|s.log|], subs); }
  }

  /** The rows and their events are the submissions of the run that stored a patch, each one whole. */
  lemma {:induction false} SubmissionsAreStored(cfg: Config, trace: seq<Action>)
    requires Legal(cfg, trace)
    ensures RowsAre(StateAfter(cfg, trace).patches, Submissions(trace))
    ensures StoredEventsAre(cfg, StateAfter(cfg, trace).log, Submissions(trace))
  {
    if trace != [] {
      var prefix, a := trace[..|trace| - 1], trace[|trace| - 1];
      var s := StateAfter(cfg, prefix);
      SubmissionsAreStored(cfg, prefix);
      Reachable(cfg, prefix);
      if a.AttemptCall? {
        AttemptStores(cfg, s, Submissions(prefix), a.submission);
      } else {
        assert Submissions(trace) == Submissions(prefix);
        OtherStores(cfg, s, a, Submissions(prefix));
      }
    }
  }
}
