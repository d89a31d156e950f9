/** What holds in every run of the protocol, whatever the model, the tools and the tests do. */
module ProtocolSafety {
  import opened Wrappers
  import opened Protocol
  import EditScope

  // ------------------------------------------------------------- event table

  lemma LogSlice(log: seq<Event>, e: Event)
    ensures (log + [e])[..|log|] == log && (log + [e])[|log|] == e
  {
  }

  /** The completion a submission adds to the event table. */
  function Completion(s: RunState, sub: Submission): Event {
    var began := Began(s.repair, CurrentRevisions(s));
    AttemptCompleted(began.attempt, began.revisions, PatchOf(sub), VerdictOf(sub))
  }

  function Started(s: RunState): Event {
    var began := Began(s.repair, CurrentRevisions(s));
    AttemptStarted(began.attempt, began.revisions)
  }

  /** The event table after a submission, one appended event at a time. */
  lemma AttemptLog(cfg: Config, s: RunState, sub: Submission)
    ensures StartedLog(s) == s.log + [Started(s)]
    ensures sub.Submitted? ==>
              StoredLog(cfg, s, sub) == StartedLog(s)
              + [PatchStored(sub.id, MaxVersion(s.patches) + 1, Sources(cfg, sub.files))] + [ToolSucceeded(SubmitPatch, sub.files)]
    ensures !sub.Submitted? ==> StoredLog(cfg, s, sub) == StartedLog(s)
    ensures sub.InvalidResult? ==> AttemptNext(cfg, s, sub).log == StartedLog(s)
    ensures !sub.InvalidResult? ==>
              var done := StoredLog(cfg, s, sub) + [Completion(s, sub)];
              AttemptNext(cfg, s, sub).log == done || AttemptNext(cfg, s, sub).log == done + [RepairLimitReached]
  {
  }

  // ------------------------------------------------------ plans and hypotheses

  ghost predicate PlanInv(cfg: Config, s: RunState) {
    s.plan.accepted ==> 1 <= s.plan.revision <= 1 + cfg.maxPlanRevisions
  }

  ghost predicate OneLive(hs: seq<Hypothesis>) {
    && (forall i | 0 <= i < |hs| :: hs[i].revision == i + 1)
    && (forall i, j | 0 <= i < j < |hs| :: !(Live(hs[i].status) && Live(hs[j].status)))
  }

  /** The statuses a run submitted, in order. */
  function SubmittedStatuses(trace: seq<Action>): seq<Status> {
    if trace == [] then []
    else SubmittedStatuses(trace[..|trace| - 1]) +
         (if trace[|trace| - 1].HypothesisCall? then [trace[|trace| - 1].status] else [])
  }

  /** 1-based position of the last live status, 0 if there is none. */
  function LastLive(statuses: seq<Status>): nat {
    if statuses == [] then 0
    else if Live(statuses[|statuses| - 1]) then |statuses|
    else LastLive(statuses[..|statuses| - 1])
  }

  lemma {:induction false} NoneLive(hs: seq<Hypothesis>)
    requires forall i | 0 <= i < |hs| :: !Live(hs[i].status)
    ensures ActiveRevision(hs) == 0
  {
    if hs != [] { NoneLive(hs[..|hs| - 1]); }
  }

  lemma {:induction false} ActiveIsLive(hs: seq<Hypothesis>)
    requires OneLive(hs)
    ensures ActiveRevision(hs) <= |hs|
    ensures ActiveRevision(hs) > 0 ==> Live(hs[ActiveRevision(hs) - 1].status)
    ensures ActiveRevision(hs) == 0 ==> forall i | 0 <= i < |hs| :: !Live(hs[i].status)
  {
    if hs != [] { ActiveIsLive(hs[..|hs| - 1]); }
  }

  lemma OneLiveKept(hs: seq<Hypothesis>, status: Status)
    requires OneLive(hs)
    ensures OneLive(HypothesisNext(hs, status))
  {
    var kept := if Live(status) then Superseded(hs, |hs| + 1) else hs;
    assert forall i | 0 <= i < |hs| :: kept[i].revision == i + 1 && (Live(kept[i].status) ==> Live(hs[i].status) && !Live(status));
  }

  lemma ActiveAfter(hs: seq<Hypothesis>, entry: Hypothesis)
    ensures ActiveRevision(hs + [entry]) == if Live(entry.status) then entry.revision else ActiveRevision(hs)
  {
    assert (hs + [entry])[..|hs|] == hs;
  }

  /** One submission: the log keeps at most one live entry and its revision never decreases. */
  lemma HypothesisStep(hs: seq<Hypothesis>, status: Status)
    requires OneLive(hs)
    ensures OneLive(HypothesisNext(hs, status))
    ensures ActiveRevision(HypothesisNext(hs, status)) == if Live(status) then |hs| + 1 else ActiveRevision(hs)
    ensures ActiveRevision(HypothesisNext(hs, status)) >= ActiveRevision(hs)
  {
    OneLiveKept(hs, status);
    ActiveIsLive(hs);
    ActiveAfter(if Live(status) then Superseded(hs, |hs| + 1) else hs, Hypothesis(status, |hs| + 1, None));
  }

  /** The hypothesis log and the statuses submitted so far say the same. */
  ghost predicate Faithful(hs: seq<Hypothesis>, statuses: seq<Status>) {
    OneLive(hs) && |hs| == |statuses| && ActiveRevision(hs) == LastLive(statuses)
  }

  lemma FaithfulNext(hs: seq<Hypothesis>, statuses: seq<Status>, status: Status)
    requires Faithful(hs, statuses)
    ensures Faithful(HypothesisNext(hs, status), statuses + [status])
  {
    HypothesisStep(hs, status);
    assert (statuses + [status])[..|statuses|] == statuses;
  }

  /** Submission `j` is the first live one after the live submission `i`. */
  predicate Replaces(statuses: seq<Status>, i: int, j: int) {
    && 0 <= i < j < |statuses| && Live(statuses[i]) && Live(statuses[j])
    && forall k | i < k < j :: !Live(statuses[k])
  }

  /** Each entry is what was submitted, except that a live one is revised by the first live one after it. */
  ghost predicate EntryIs(hs: seq<Hypothesis>, statuses: seq<Status>, i: int)
    requires 0 <= i < |hs| == |statuses|
  {
    && (forall j | Replaces(statuses, i, j) :: hs[i] == Hypothesis(Revised, i + 1, Some(j + 1)))
    && ((forall j :: !Replaces(statuses, i, j)) ==> hs[i] == Hypothesis(statuses[i], i + 1, None))
  }

  ghost predicate EntriesAre(hs: seq<Hypothesis>, statuses: seq<Status>) {
    |hs| == |statuses| && forall i | 0 <= i < |hs| :: EntryIs(hs, statuses, i)
  }

  /** An entry that nothing replaces yet is live exactly if it was submitted live, and then nothing after it was. */
  lemma ReplacedNext(statuses: seq<Status>, status: Status, i: int)
    requires 0 <= i < |statuses|
    ensures forall j | j < |statuses| :: Replaces(statuses + [status], i, j) <==> Replaces(statuses, i, j)
    ensures Replaces(statuses + [status], i, |statuses|) <==>
              Live(statuses[i]) && Live(status) && forall j :: !Replaces(statuses, i, j)
  {
    var next := statuses + [status];
    assert forall k | 0 <= k < |statuses| :: next[k] == statuses[k];
    if Live(statuses[i]) && exists k :: i < k < |statuses| && Live(statuses[k]) {
      FirstLiveReplaces(statuses, i);
    }
  }

  lemma {:induction false} FirstLiveReplaces(statuses: seq<Status>, i: int)
    requires 0 <= i < |statuses| && Live(statuses[i]) && exists k :: i < k < |statuses| && Live(statuses[k])
    ensures exists j :: Replaces(statuses, i, j)
  {
    var k :| i < k < |statuses| && Live(statuses[k]);
    var j := i + 1;
    while !Live(statuses[j])
      invariant i < j <= k && forall m | i < m < j :: !Live(statuses[m])
      decreases k - j
    {
      j := j + 1;
    }
    assert Replaces(statuses, i, j);
  }

  lemma EntryNext(hs: seq<Hypothesis>, statuses: seq<Status>, status: Status, i: int)
    requires EntriesAre(hs, statuses) && 0 <= i <= |hs|
    ensures EntryIs(HypothesisNext(hs, status), statuses + [status], i)
  {
    var next, more := HypothesisNext(hs, status), statuses + [status];
    if i < |hs| {
      assert EntryIs(hs, statuses, i);
      ReplacedNext(statuses, status, i);
      if forall j :: !Replaces(statuses, i, j) {
        assert next[i] == if Live(status) && Live(statuses[i]) then Hypothesis(Revised, i + 1, Some(|hs| + 1)) else hs[i];
      } else {
        var j :| Replaces(statuses, i, j);
        assert next[i] == hs[i] == Hypothesis(Revised, i + 1, Some(j + 1));
        assert Replaces(more, i, j);
      }
    }
  }

  /**
   The rewritten log says what the submissions say: each entry is what was submitted, revised by the
   first live submission after it if it was live, so the live entry is the last live submission.
   */
  lemma {:induction false} HypothesisLogIsFaithful(cfg: Config, trace: seq<Action>)
    ensures Faithful(StateAfter(cfg, trace).hypotheses, SubmittedStatuses(trace))
    ensures EntriesAre(StateAfter(cfg, trace).hypotheses, SubmittedStatuses(trace))
  {
    if trace != [] {
      var prefix, a := trace[..|trace| - 1], trace[|trace| - 1];
      HypothesisLogIsFaithful(cfg, prefix);
      if a.HypothesisCall? {
        var hs, statuses := StateAfter(cfg, prefix).hypotheses, SubmittedStatuses(prefix);
        FaithfulNext(hs, statuses, a.status);
        forall i | 0 <= i <= |hs| ensures EntryIs(HypothesisNext(hs, a.status), statuses + [a.status], i) {
          EntryNext(hs, statuses, a.status, i);
        }
      } else {
        assert SubmittedStatuses(prefix) + [] == SubmittedStatuses(prefix);
      }
    }
  }

  // ------------------------------------------------------ freshness of attempts

  /** Reasoning revisions of the failed-test attempts since the last attempt that settled. */
  function Streak(log: seq<Event>): seq<Revisions> {
    if log == [] then []
    else
      var before, e := Streak(log[..|log| - 1]), log[|log| - 1];
      if !e.AttemptCompleted? then before
      else if Settles(e.verdict) then []
      else if e.verdict.Judged? && e.verdict.passed == Some(false) then before + [e.revisions]
      else before
  }

  ghost predicate Fresh(cfg: Config, streak: seq<Revisions>) {
    && (cfg.requireHypothesisUpdate ==>
          forall i, j | 0 <= i < j < |streak| :: streak[i].hypothesis < streak[j].hypothesis)
    && (cfg.requirePlanUpdate ==> forall i, j | 0 <= i < j < |streak| :: streak[i].plan < streak[j].plan)
    && (forall i | 0 <= i < |streak| :: streak[i].plan <= 1 + cfg.maxPlanRevisions)
    && (cfg.requirePlanBeforeEdit ==> forall i | 0 <= i < |streak| :: 1 <= streak[i].plan)
  }

  ghost predicate StreakInv(cfg: Config, s: RunState) {
    var streak := Streak(s.log);
    && Fresh(cfg, streak)
    && (!s.stopped ==> Demands(streak, s.repair.required))
  }

  function StreakAfter(streak: seq<Revisions>, e: Event): seq<Revisions> {
    if !e.AttemptCompleted? then streak
    else if Settles(e.verdict) then []
    else if e.verdict.Judged? && e.verdict.passed == Some(false) then streak + [e.revisions]
    else streak
  }

  lemma StreakSnoc(log: seq<Event>, e: Event)
    ensures Streak(log + [e]) == StreakAfter(Streak(log), e)
  {
    LogSlice(log, e);
  }

  lemma AttemptStreak(cfg: Config, s: RunState, sub: Submission)
    ensures Streak(AttemptNext(cfg, s, sub).log) ==
            if sub.InvalidResult? then Streak(s.log) else StreakAfter(Streak(s.log), Completion(s, sub))
  {
    AttemptLog(cfg, s, sub);
    StreakSnoc(s.log, Started(s));
    if sub.Submitted? {
      var stored := PatchStored(sub.id, MaxVersion(s.patches) + 1, Sources(cfg, sub.files));
      StreakSnoc(StartedLog(s), stored);
      StreakSnoc(StartedLog(s) + [stored], ToolSucceeded(SubmitPatch, sub.files));
    }
    var l := StoredLog(cfg, s, sub);
    StreakSnoc(l, Completion(s, sub));
    StreakSnoc(l + [Completion(s, sub)], RepairLimitReached);
  }

  lemma EventsSnoc(log: seq<Event>, e: Event)
    ensures AttemptEvents(log + [e]) == if e.AttemptStarted? || e.AttemptCompleted? then AttemptEvents(log) + [e] else AttemptEvents(log)
  {
    LogSlice(log, e);
    assert AttemptEvents(log) + [] == AttemptEvents(log);
  }

  /** Events that neither start nor complete an attempt leave both attempt views alone. */
  lemma OtherEvent(log: seq<Event>, e: Event)
    requires !e.AttemptStarted? && !e.AttemptCompleted?
    ensures Streak(log + [e]) == Streak(log)
    ensures AttemptEvents(log + [e]) == AttemptEvents(log)
  {
    StreakSnoc(log, e);
    EventsSnoc(log, e);
  }

  lemma OtherAction(cfg: Config, s: RunState, a: Action)
    requires !a.AttemptCall?
    ensures var next := Next(cfg, s, a);
            && Streak(next.log) == Streak(s.log)
            && AttemptEvents(next.log) == AttemptEvents(s.log)
            && next.repair == s.repair && next.stopped == s.stopped && next.patches == s.patches
            && (next.log != [] && next.log[|next.log| - 1].AttemptStarted? ==> next.log == s.log)
  {
    if !a.HypothesisCall? { OtherEvent(s.log, Next(cfg, s, a).log[|s.log|]); }
  }

  lemma FreshSnoc(cfg: Config, streak: seq<Revisions>, now: Revisions)
    requires Fresh(cfg, streak)
    requires streak != [] ==> ActionAllowed(cfg, Some(streak[|streak| - 1]), SubmitPatch, now)
    requires now.plan <= 1 + cfg.maxPlanRevisions && (cfg.requirePlanBeforeEdit ==> 1 <= now.plan)
    ensures Fresh(cfg, streak + [now])
  {
    var next, n := streak + [now], |streak|;
    if n > 0 {
      var last := streak[n - 1];
      assert cfg.requireHypothesisUpdate ==> forall i | 0 <= i < n :: streak[i].hypothesis <= last.hypothesis;
      assert cfg.requirePlanUpdate ==> forall i | 0 <= i < n :: streak[i].plan <= last.plan;
    }
  }

  /** What the streak and the demand of the repair gate have to do with each other. */
  ghost predicate Demands(streak: seq<Revisions>, required: Option<Revisions>) {
    (required.Some? <==> streak != []) && (streak != [] ==> required == Some(streak[|streak| - 1]))
  }

  lemma DemandAfter(cfg: Config, r: Repair, streak: seq<Revisions>, patch: Option<PatchId>, v: Verdict)
    requires Demands(streak, r.required) && !Stops(cfg, r, v)
    ensures Demands(StreakAfter(streak, AttemptCompleted(r.attempt, r.revisions, patch, v)), Assessed(cfg, r, patch, v).required)
  {
  }

  lemma AttemptStreakStep(cfg: Config, s: RunState, sub: Submission)
    requires PlanInv(cfg, s) && StreakInv(cfg, s) && Enabled(cfg, s, AttemptCall(sub))
    ensures StreakInv(cfg, AttemptNext(cfg, s, sub))
  {
    var began := Began(s.repair, CurrentRevisions(s));
    AttemptStreak(cfg, s, sub);
    FreshSnoc(cfg, Streak(s.log), began.revisions);
    if !sub.InvalidResult? && !Stops(cfg, began, VerdictOf(sub)) {
      DemandAfter(cfg, began, Streak(s.log), PatchOf(sub), VerdictOf(sub));
    }
  }

  lemma StreakStep(cfg: Config, s: RunState, a: Action)
    requires PlanInv(cfg, s) && StreakInv(cfg, s) && Enabled(cfg, s, a)
    ensures StreakInv(cfg, Next(cfg, s, a))
  {
    if a.AttemptCall? {
      AttemptStreakStep(cfg, s, a.submission);
    } else {
      OtherAction(cfg, s, a);
    }
  }

  lemma {:induction false} IncreasingFits(xs: seq<nat>, lo: nat, hi: nat)
    requires forall i, j | 0 <= i < j < |xs| :: xs[i] < xs[j]
    requires forall i | 0 <= i < |xs| :: lo <= xs[i] <= hi
    ensures lo <= hi + 1 ==> |xs| <= hi + 1 - lo
    ensures xs != [] ==> lo <= hi
    decreases |xs|
  {
    if xs != [] {
      var n := |xs| - 1;
      assert lo <= xs[n] <= hi;
      if n > 0 {
        assert xs[n - 1] < xs[n];
        IncreasingFits(xs[..n], lo, xs[n] - 1);
      }
    }
  }

  // --------------------------------------------------------- attempt accounting

  /** The attempt events of the table, in order. */
  function AttemptEvents(log: seq<Event>): seq<Event> {
    if log == [] then []
    else
      var e := log[|log| - 1];
      AttemptEvents(log[..|log| - 1]) + (if e.AttemptStarted? || e.AttemptCompleted? then [e] else [])
  }

  /** Starts and completions alternate, numbered 1, 2, ..., each pair with the same revisions. */
  ghost predicate Paired(events: seq<Event>) {
    forall k | 0 <= k < |events| :: PairedAt(events, k)
  }

  ghost predicate PairedAt(events: seq<Event>, k: int)
    requires 0 <= k < |events|
  {
    if k % 2 == 0 then events[k].AttemptStarted? && events[k].number == k / 2 + 1
    else
      && events[k].AttemptCompleted? && events[k].number == k / 2 + 1
      && events[k - 1].AttemptStarted? && events[k].revisions == events[k - 1].revisions
  }

  /** The last attempt began but was never assessed. */
  predicate Dangling(s: RunState) {
    s.log != [] && s.log[|s.log| - 1].AttemptStarted?
  }

  /** The attempt events of so many attempts, the last of them unfinished if `dangling`. */
  ghost predicate Counted(events: seq<Event>, attempt: nat, dangling: bool) {
    Paired(events) && |events| == 2 * attempt - (if dangling then 1 else 0) && (dangling ==> attempt > 0)
  }

  ghost predicate AccountInv(cfg: Config, s: RunState) {
    && Counted(AttemptEvents(s.log), s.repair.attempt, Dangling(s))
    && (Dangling(s) ==> s.stopped)
    && s.repair.attempt <= 1 + cfg.maxRepairAttempts
    && (!s.stopped ==> More(cfg, s.repair))
    && s.repair.used == (if s.repair.attempt == 0 then 0 else s.repair.attempt - 1)
  }

  lemma AttemptEventsOf(cfg: Config, s: RunState, sub: Submission)
    ensures AttemptEvents(AttemptNext(cfg, s, sub).log) ==
            if sub.InvalidResult? then AttemptEvents(s.log) + [Started(s)]
            else AttemptEvents(s.log) + [Started(s)] + [Completion(s, sub)]
  {
    AttemptLog(cfg, s, sub);
    EventsSnoc(s.log, Started(s));
    if sub.Submitted? {
      var stored := PatchStored(sub.id, MaxVersion(s.patches) + 1, Sources(cfg, sub.files));
      EventsSnoc(StartedLog(s), stored);
      EventsSnoc(StartedLog(s) + [stored], ToolSucceeded(SubmitPatch, sub.files));
    }
    var l := StoredLog(cfg, s, sub);
    EventsSnoc(l, Completion(s, sub));
    EventsSnoc(l + [Completion(s, sub)], RepairLimitReached);
  }

  lemma PairedSnoc(events: seq<Event>, e: Event)
    requires Paired(events)
    requires |events| % 2 == 0 ==> e.AttemptStarted? && e.number == |events| / 2 + 1
    requires |events| % 2 == 1 ==>
               && events[|events| - 1].AttemptStarted?
               && e.AttemptCompleted? && e.number == |events| / 2 + 1
               && e.revisions == events[|events| - 1].revisions
    ensures Paired(events + [e])
  {
    var next := events + [e];
    forall k | 0 <= k < |next|
      ensures PairedAt(next, k)
    {
      if k < |events| { assert PairedAt(events, k); }
    }
  }

  lemma CountedStart(events: seq<Event>, attempt: nat, e: Event)
    requires Counted(events, attempt, false) && e.AttemptStarted? && e.number == attempt + 1
    ensures Counted(events + [e], attempt + 1, true)
  {
    PairedSnoc(events, e);
  }

  lemma CountedPair(events: seq<Event>, attempt: nat, e: Event, f: Event)
    requires Counted(events, attempt, false) && e.AttemptStarted? && e.number == attempt + 1
    requires f.AttemptCompleted? && f.number == attempt + 1 && f.revisions == e.revisions
    ensures Counted(events + [e] + [f], attempt + 1, false)
  {
    PairedSnoc(events, e);
    PairedSnoc(events + [e], f);
  }

  lemma DanglingAfter(cfg: Config, s: RunState, sub: Submission)
    ensures Dangling(AttemptNext(cfg, s, sub)) <==> sub.InvalidResult?
  {
    AttemptLog(cfg, s, sub);
    LogSlice(s.log, Started(s));
    LogSlice(StoredLog(cfg, s, sub), Completion(s, sub));
    LogSlice(StoredLog(cfg, s, sub) + [Completion(s, sub)], RepairLimitReached);
  }

  lemma AttemptAccount(cfg: Config, s: RunState, sub: Submission)
    requires AccountInv(cfg, s) && !s.stopped
    ensures AccountInv(cfg, AttemptNext(cfg, s, sub))
  {
    AttemptEventsOf(cfg, s, sub);
    DanglingAfter(cfg, s, sub);
    if sub.InvalidResult? {
      CountedStart(AttemptEvents(s.log), s.repair.attempt, Started(s));
    } else {
      CountedPair(AttemptEvents(s.log), s.repair.attempt, Started(s), Completion(s, sub));
    }
  }

  lemma AccountStep(cfg: Config, s: RunState, a: Action)
    requires AccountInv(cfg, s) && Enabled(cfg, s, a)
    ensures AccountInv(cfg, Next(cfg, s, a))
  {
    if a.AttemptCall? {
      AttemptAccount(cfg, s, a.submission);
    } else {
      OtherAction(cfg, s, a);
    }
  }

  /** Stored patches that were judged invalid. */
  function InvalidStored(log: seq<Event>): nat {
    if log == [] then 0
    else
      InvalidStored(log[..|log| - 1]) + (if Invalidates(log[|log| - 1]) then 1 else 0)
  }

  /** The completion of a stored patch that was judged invalid. */
  predicate Invalidates(e: Event) {
    e.AttemptCompleted? && e.patch.Some? && e.verdict.Judged? && !e.verdict.valid
  }

  lemma InvalidSnoc(log: seq<Event>, e: Event)
    ensures InvalidStored(log + [e]) == InvalidStored(log) + if Invalidates(e) then 1 else 0
  {
    LogSlice(log, e);
  }

  lemma InvalidAfterAttempt(cfg: Config, s: RunState, sub: Submission)
    ensures InvalidStored(AttemptNext(cfg, s, sub).log) == InvalidStored(s.log) +
              if !sub.InvalidResult? && Invalidates(Completion(s, sub)) then 1 else 0
  {
    AttemptLog(cfg, s, sub);
    InvalidSnoc(s.log, Started(s));
    if sub.Submitted? {
      var stored := PatchStored(sub.id, MaxVersion(s.patches) + 1, Sources(cfg, sub.files));
      InvalidSnoc(StartedLog(s), stored);
      InvalidSnoc(StartedLog(s) + [stored], ToolSucceeded(SubmitPatch, sub.files));
    }
    var l := StoredLog(cfg, s, sub);
    InvalidSnoc(l, Completion(s, sub));
    InvalidSnoc(l + [Completion(s, sub)], RepairLimitReached);
  }

  lemma InvalidStoredNext(cfg: Config, s: RunState, a: Action)
    ensures InvalidStored(Next(cfg, s, a).log) == InvalidStored(s.log) +
              if a.AttemptCall? && a.submission.Submitted? && a.submission.verdict.Judged? && !a.submission.verdict.valid
              then 1 else 0
  {
    if a.AttemptCall? {
      InvalidAfterAttempt(cfg, s, a.submission);
    } else if !a.HypothesisCall? {
      InvalidSnoc(s.log, Next(cfg, s, a).log[|s.log|]);
    }
  }

  // -------------------------------------------------- candidate files, evidence

  predicate Reopens(cfg: Config, e: Event) {
    && e.AttemptCompleted? && e.verdict.Judged? && e.verdict.passed == Some(false)
    && e.number < 1 + cfg.maxRepairAttempts
  }

  /** A file was written after the last failed-test attempt that reopened the ranking. */
  predicate WrittenSince(cfg: Config, log: seq<Event>) {
    if log == [] then false
    else if log[|log| - 1].ToolSucceeded? && log[|log| - 1].tool == WriteFile then true
    else if Reopens(cfg, log[|log| - 1]) then false
    else WrittenSince(cfg, log[..|log| - 1])
  }

  /** File `f` was read, or returned by retrieval, among the first `n` events. */
  ghost predicate Observed(log: seq<Event>, n: int, f: Path) {
    exists i | 0 <= i < n && i < |log| :: Shows(log[i], f)
  }

  predicate Shows(e: Event, f: Path) {
    e.ToolSucceeded? && e.tool in {ReadFile, RetrieveRelevantFiles} && f in e.files
  }

  /** Between a write and a later ranking some failed-test attempt reopened the ranking. */
  ghost predicate RankingFrozen(cfg: Config, log: seq<Event>) {
    forall i, j | 0 <= i < j < |log| && Writes(log[i]) && log[j].CandidatesRanked? :: ReopenedBetween(cfg, log, i, j)
  }

  predicate Writes(e: Event) {
    e.ToolSucceeded? && e.tool == WriteFile
  }

  ghost predicate ReopenedBetween(cfg: Config, log: seq<Event>, i: int, j: int)
    requires 0 <= i && j <= |log|
  {
    exists k | i < k < j :: Reopens(cfg, log[k])
  }

  ghost predicate RankedHaveEvidence(log: seq<Event>) {
    forall j, f | 0 <= j < |log| && log[j].CandidatesRanked? && f in log[j].ranked :: Observed(log, j, f)
  }

  ghost predicate StoredAreRanked(log: seq<Event>) {
    forall k | 0 <= k < |log| && log[k].PatchStored? :: log[k].sources <= LatestRanking(log[..k])
  }

  /** The repair gate refuses every write until a newer ranking is submitted. */
  predicate RankingDemanded(cfg: Config, s: RunState) {
    && cfg.requireCandidateUpdate && !s.stopped && s.repair.required.Some?
    && s.candidates.revision <= s.repair.required.value.candidates
  }

  ghost predicate EvidenceInv(cfg: Config, s: RunState) {
    s.candidates.editing == WrittenSince(cfg, s.log) && TableInv(cfg, s.log, s.candidates.read + s.candidates.retrieved)
  }

  /** The ranking is frozen and justified, all evidence was observed, and stored sources were ranked. */
  ghost predicate TableInv(cfg: Config, log: seq<Event>, evidence: set<Path>) {
    && RankingFrozen(cfg, log)
    && RankedHaveEvidence(log)
    && (forall f | f in evidence :: Observed(log, |log|, f))
    && (cfg.policy.requireCandidates && !cfg.guardrailOverride ==> StoredAreRanked(log))
  }

  /** The properties of the table that appending an event which is no ranking and no patch keeps. */
  lemma QuietEvent(cfg: Config, log: seq<Event>, e: Event)
    requires RankingFrozen(cfg, log) && RankedHaveEvidence(log)
    requires !e.CandidatesRanked?
    ensures RankingFrozen(cfg, log + [e]) && RankedHaveEvidence(log + [e])
    ensures forall f, n | n <= |log| && Observed(log, n, f) :: Observed(log + [e], n, f)
    ensures StoredAreRanked(log) && !e.PatchStored? ==> StoredAreRanked(log + [e])
    ensures !Writes(e) && !Reopens(cfg, e) ==> WrittenSince(cfg, log + [e]) == WrittenSince(cfg, log)
    ensures LatestRanking(log + [e]) == LatestRanking(log)
  {
    var next := log + [e];
    LogSlice(log, e);
    Grow(cfg, log, e);
  }

  lemma Grow(cfg: Config, log: seq<Event>, e: Event)
    ensures var next := log + [e];
            && (forall f, n | n <= |log| && Observed(log, n, f) :: Observed(next, n, f))
            && (forall i, j | 0 <= i <= j <= |log| && ReopenedBetween(cfg, log, i, j) :: ReopenedBetween(cfg, next, i, j))
            && (forall k | 0 <= k <= |log| :: next[..k] == log[..k])
  {
    var next := log + [e];
    forall f, n | n <= |log| && Observed(log, n, f)
      ensures Observed(next, n, f)
    {
      var i :| 0 <= i < n && i < |log| && Shows(log[i], f);
      assert Shows(next[i], f);
    }
    forall i, j | 0 <= i <= j <= |log| && ReopenedBetween(cfg, log, i, j)
      ensures ReopenedBetween(cfg, next, i, j)
    {
      var k :| i < k < j && Reopens(cfg, log[k]);
      assert Reopens(cfg, next[k]);
    }
  }

  /** With no write since, every write has a reopening after it. */
  lemma {:induction false} ReopenedAfterWrites(cfg: Config, log: seq<Event>)
    requires !WrittenSince(cfg, log)
    ensures forall i | 0 <= i < |log| && Writes(log[i]) :: ReopenedBetween(cfg, log, i, |log|)
  {
    if log != [] {
      var n := |log| - 1;
      var prefix := log[..n];
      if Reopens(cfg, log[n]) {
      } else {
        ReopenedAfterWrites(cfg, prefix);
        forall i | 0 <= i < |log| && Writes(log[i])
          ensures ReopenedBetween(cfg, log, i, |log|)
        {
          assert Writes(prefix[i]);
          assert ReopenedBetween(cfg, prefix, i, n);
          var k :| i < k < n && Reopens(cfg, prefix[k]);
          assert Reopens(cfg, log[k]);
        }
      }
    }
  }

  lemma StillObserved(log: seq<Event>, e: Event, f: Path)
    requires Observed(log, |log|, f)
    ensures Observed(log + [e], |log| + 1, f)
  {
    var i :| 0 <= i < |log| && Shows(log[i], f);
    assert Shows((log + [e])[i], f);
  }

  lemma RankTable(cfg: Config, log: seq<Event>, evidence: set<Path>, e: Event)
    requires TableInv(cfg, log, evidence) && !WrittenSince(cfg, log)
    requires e.CandidatesRanked? && forall f | f in e.ranked :: f in evidence
    ensures TableInv(cfg, log + [e], evidence)
  {
    var next := log + [e];
    Grow(cfg, log, e);
    ReopenedAfterWrites(cfg, log);
    forall j, f | 0 <= j < |next| && next[j].CandidatesRanked? && f in next[j].ranked
      ensures Observed(next, j, f)
    {
      assert Observed(log, j, f);
    }
    forall f | f in evidence ensures Observed(next, |next|, f) { StillObserved(log, e, f); }
  }

  lemma RankEvent(cfg: Config, s: RunState, ranked: seq<Path>)
    requires EvidenceInv(cfg, s) && RankingAccepted(cfg, s.candidates, ranked)
    ensures EvidenceInv(cfg, Next(cfg, s, RankCall(ranked)))
  {
    var evidence, e := s.candidates.read + s.candidates.retrieved, CandidatesRanked(s.candidates.revision + 1, ranked);
    assert TableInv(cfg, s.log, evidence);
    forall f | f in ranked ensures f in evidence {
      var i :| 0 <= i < |ranked| && ranked[i] == f;
    }
    RankTable(cfg, s.log, evidence, e);
    LogSlice(s.log, e);
  }

  lemma ObserveEvent(cfg: Config, s: RunState, tool: ToolName, files: set<Path>)
    requires EvidenceInv(cfg, s) && Enabled(cfg, s, Observe(tool, files))
    ensures EvidenceInv(cfg, Next(cfg, s, Observe(tool, files)))
  {
    var e := ToolSucceeded(tool, files);
    var next := Next(cfg, s, Observe(tool, files));
    QuietEvent(cfg, s.log, e);
    LogSlice(s.log, e);
    forall f | f in next.candidates.read + next.candidates.retrieved
      ensures Observed(next.log, |next.log|, f)
    {
      if f in s.candidates.read + s.candidates.retrieved {
        assert Observed(s.log, |s.log|, f);
        var i :| 0 <= i < |s.log| && Shows(s.log[i], f);
        assert Shows(next.log[i], f);
      } else {
        assert Shows(next.log[|s.log|], f);
      }
    }
  }

  lemma TableStep(cfg: Config, log: seq<Event>, evidence: set<Path>, e: Event)
    requires TableInv(cfg, log, evidence) && !e.CandidatesRanked?
    requires e.PatchStored? && cfg.policy.requireCandidates && !cfg.guardrailOverride ==> e.sources <= LatestRanking(log)
    ensures TableInv(cfg, log + [e], evidence)
    ensures LatestRanking(log + [e]) == LatestRanking(log)
    ensures !Writes(e) && !Reopens(cfg, e) ==> WrittenSince(cfg, log + [e]) == WrittenSince(cfg, log)
  {
    QuietEvent(cfg, log, e);
    Grow(cfg, log, e);
    assert (log + [e])[..|log|] == log;
    forall f | f in evidence ensures Observed(log + [e], |log| + 1, f) { StillObserved(log, e, f); }
  }

  /** An accepted patch changes only ranked source files under a policy that asks for ranking. */
  lemma AcceptedSourcesAreRanked(cfg: Config, log: seq<Event>, files: set<Path>)
    requires ScopeAccepts(cfg, log, files) && cfg.policy.requireCandidates && !cfg.guardrailOverride
    ensures Sources(cfg, files) <= LatestRanking(log)
  {
    EditScope.NoViolationsMeansJustified(files, cfg.kind, LatestRanking(log), LatestPlanned(log), cfg.policy);
    forall f | f in Sources(cfg, files) ensures f in LatestRanking(log) {
      assert EditScope.Justified(f, cfg.kind(f), LatestRanking(log), LatestPlanned(log), cfg.policy);
    }
  }

  /** What the event table keeps while a submission does not reach the candidate files. */
  ghost predicate SameView(cfg: Config, log: seq<Event>, next: seq<Event>, evidence: set<Path>) {
    && TableInv(cfg, next, evidence)
    && LatestRanking(next) == LatestRanking(log) && WrittenSince(cfg, next) == WrittenSince(cfg, log)
  }

  lemma ViewStep(cfg: Config, log: seq<Event>, evidence: set<Path>, e: Event)
    requires TableInv(cfg, log, evidence) && !e.CandidatesRanked? && !Writes(e) && !Reopens(cfg, e)
    requires e.PatchStored? && cfg.policy.requireCandidates && !cfg.guardrailOverride ==> e.sources <= LatestRanking(log)
    ensures SameView(cfg, log, log + [e], evidence)
  {
    TableStep(cfg, log, evidence, e);
  }

  lemma StoreTable(cfg: Config, log: seq<Event>, evidence: set<Path>, stored: Event, files: set<Path>)
    requires TableInv(cfg, log, evidence) && stored.PatchStored?
    requires cfg.policy.requireCandidates && !cfg.guardrailOverride ==> stored.sources <= LatestRanking(log)
    ensures SameView(cfg, log, log + [stored] + [ToolSucceeded(SubmitPatch, files)], evidence)
  {
    ViewStep(cfg, log, evidence, stored);
    ViewStep(cfg, log + [stored], evidence, ToolSucceeded(SubmitPatch, files));
  }

  lemma StoredSources(cfg: Config, log: seq<Event>, files: set<Path>)
    requires ScopeAccepts(cfg, log, files)
    ensures cfg.policy.requireCandidates && !cfg.guardrailOverride ==> Sources(cfg, files) <= LatestRanking(log)
  {
    if cfg.policy.requireCandidates && !cfg.guardrailOverride { AcceptedSourcesAreRanked(cfg, log, files); }
  }

  lemma AttemptTable(cfg: Config, s: RunState, sub: Submission, evidence: set<Path>)
    requires TableInv(cfg, s.log, evidence) && (sub.Submitted? ==> ScopeAccepts(cfg, s.log, sub.files))
    ensures SameView(cfg, s.log, StoredLog(cfg, s, sub), evidence)
  {
    AttemptLog(cfg, s, sub);
    ViewStep(cfg, s.log, evidence, Started(s));
    if sub.Submitted? {
      StoredSources(cfg, s.log, sub.files);
      StoreTable(cfg, StartedLog(s), evidence, PatchStored(sub.id, MaxVersion(s.patches) + 1, Sources(cfg, sub.files)), sub.files);
    }
  }

  lemma CompletionTable(cfg: Config, log: seq<Event>, evidence: set<Path>, e: Event)
    requires TableInv(cfg, log, evidence) && e.AttemptCompleted?
    ensures TableInv(cfg, log + [e], evidence) && SameView(cfg, log + [e], log + [e] + [RepairLimitReached], evidence)
    ensures WrittenSince(cfg, log + [e]) == (WrittenSince(cfg, log) && !Reopens(cfg, e))
  {
    TableStep(cfg, log, evidence, e);
    LogSlice(log, e);
    ViewStep(cfg, log + [e], evidence, RepairLimitReached);
  }

  lemma AttemptEvidence(cfg: Config, s: RunState, sub: Submission)
    requires EvidenceInv(cfg, s) && Enabled(cfg, s, AttemptCall(sub))
    ensures EvidenceInv(cfg, AttemptNext(cfg, s, sub))
  {
    var evidence := s.candidates.read + s.candidates.retrieved;
    AttemptTable(cfg, s, sub, evidence);
    AttemptLog(cfg, s, sub);
    if !sub.InvalidResult? {
      CompletionTable(cfg, StoredLog(cfg, s, sub), evidence, Completion(s, sub));
      assert Reopens(cfg, Completion(s, sub)) <==> Reconsiders(cfg, Began(s.repair, CurrentRevisions(s)), VerdictOf(sub));
    }
  }

  lemma EvidenceStep(cfg: Config, s: RunState, a: Action)
    requires EvidenceInv(cfg, s) && Enabled(cfg, s, a)
    ensures EvidenceInv(cfg, Next(cfg, s, a))
  {
    match a
    case AttemptCall(sub) => AttemptEvidence(cfg, s, sub);
    case HypothesisCall(_) =>
    case Observe(tool, files) => ObserveEvent(cfg, s, tool, files);
    case RankCall(ranked) => RankEvent(cfg, s, ranked);
    case PlanCall(plan) =>
      var e := Next(cfg, s, a).log[|s.log|];
      assert TableInv(cfg, s.log, s.candidates.read + s.candidates.retrieved);
      TableStep(cfg, s.log, s.candidates.read + s.candidates.retrieved, e);
  }

  /** The ranking is open whenever the repair gate asks for a new one. */
  ghost predicate RankingOpenInv(cfg: Config, s: RunState) {
    && (RankingDemanded(cfg, s) ==> !s.candidates.editing)
    && (s.repair.required.Some? ==> s.repair.required.value.candidates <= s.candidates.revision)
  }

  lemma RankingOpenStep(cfg: Config, s: RunState, a: Action)
    requires RankingOpenInv(cfg, s) && Enabled(cfg, s, a)
    ensures RankingOpenInv(cfg, Next(cfg, s, a))
  {
  }

  // ------------------------------------------------------- patches and selection

  ghost predicate PatchInv(s: RunState) {
    && (forall i | 0 <= i < |s.patches| :: s.patches[i].version == i + 1)
    && (forall i, j | 0 <= i < j < |s.patches| :: s.patches[i].id != s.patches[j].id)
    && |s.patches| <= s.repair.attempt
  }

  lemma {:induction false} VersionsCount(patches: seq<Patch>)
    requires forall i | 0 <= i < |patches| :: patches[i].version == i + 1
    ensures MaxVersion(patches) == |patches|
  {
    if patches != [] { VersionsCount(patches[..|patches| - 1]); }
  }

  lemma StoredNumbered(patches: seq<Patch>, sub: Submission)
    requires forall i | 0 <= i < |patches| :: patches[i].version == i + 1
    requires forall i, j | 0 <= i < j < |patches| :: patches[i].id != patches[j].id
    requires sub.Submitted? ==> FreshId(patches, sub.id)
    ensures var more := Stored(patches, sub);
            && |more| <= |patches| + 1
            && (forall i | 0 <= i < |more| :: more[i].version == i + 1)
            && (forall i, j | 0 <= i < j < |more| :: more[i].id != more[j].id)
  {
    VersionsCount(patches);
  }

  lemma PatchStep(cfg: Config, s: RunState, a: Action)
    requires PatchInv(s) && Enabled(cfg, s, a)
    ensures PatchInv(Next(cfg, s, a))
  {
    if a.AttemptCall? {
      StoredNumbered(s.patches, a.submission);
    } else {
      OtherAction(cfg, s, a);
    }
  }

  predicate Passes(e: Event) {
    e.AttemptCompleted? && e.verdict == Judged(true, Some(true))
  }

  predicate Submits(e: Event) {
    e.AttemptCompleted? && e.patch.Some?
  }

  /** The newest passing completion. */
  function NewestPass(log: seq<Event>): Option<Event> {
    if log == [] then None else if Passes(log[|log| - 1]) then Some(log[|log| - 1]) else NewestPass(log[..|log| - 1])
  }

  /** The newest completion of an attempt that stored a patch. */
  function NewestSubmission(log: seq<Event>): Option<Event> {
    if log == [] then None else if Submits(log[|log| - 1]) then Some(log[|log| - 1]) else NewestSubmission(log[..|log| - 1])
  }

  function OutcomeOf(v: Verdict): Outcome
    requires v.Judged?
  {
    Outcome(v.valid, if v.valid then v.passed else Some(false))
  }

  /** The repair service's fields say what the two newest completions say. */
  ghost predicate Remembers(r: Repair, pass: Option<Event>, submission: Option<Event>, patches: seq<Patch>) {
    && (pass.None? ==> r.passing.None?)
    && (pass.Some? ==>
          && Submits(pass.value) && r.passing == pass.value.patch
          && r.passing.value in r.outcomes && r.outcomes[r.passing.value] == Outcome(true, Some(true)))
    && (submission.None? ==> r.last.None?)
    && (submission.Some? ==>
          && Submits(submission.value) && r.last == submission.value.patch && !FreshId(patches, r.last.value)
          && (r.last.value in r.outcomes <==> submission.value.verdict.Judged?)
          && (submission.value.verdict.Judged? ==> r.outcomes[r.last.value] == OutcomeOf(submission.value.verdict)))
    && (forall id | id in r.outcomes :: !FreshId(patches, id))
  }

  ghost predicate SelectionInv(s: RunState) {
    Remembers(s.repair, NewestPass(s.log), NewestSubmission(s.log), s.patches)
  }

  lemma NewestSnoc(log: seq<Event>, e: Event)
    ensures NewestPass(log + [e]) == if Passes(e) then Some(e) else NewestPass(log)
    ensures NewestSubmission(log + [e]) == if Submits(e) then Some(e) else NewestSubmission(log)
  {
    LogSlice(log, e);
  }

  lemma CompletionRemembered(
    cfg: Config, r: Repair, pass: Option<Event>, submission: Option<Event>,
    patches: seq<Patch>, more: seq<Patch>, patch: Option<PatchId>, v: Verdict)
    requires Remembers(r, pass, submission, patches)
    requires patch.Some? ==> FreshId(patches, patch.value) && !FreshId(more, patch.value)
    requires v.Judged? && v.valid ==> patch.Some?
    requires forall id | !FreshId(patches, id) :: !FreshId(more, id)
    ensures var e := AttemptCompleted(r.attempt, r.revisions, patch, v);
            Remembers(Assessed(cfg, r, patch, v),
                      if Passes(e) then Some(e) else pass, if Submits(e) then Some(e) else submission, more)
  {
  }

  lemma AttemptNewest(cfg: Config, s: RunState, sub: Submission)
    ensures sub.InvalidResult? ==>
              && NewestPass(AttemptNext(cfg, s, sub).log) == NewestPass(s.log)
              && NewestSubmission(AttemptNext(cfg, s, sub).log) == NewestSubmission(s.log)
    ensures !sub.InvalidResult? ==>
              var e := Completion(s, sub);
              && NewestPass(AttemptNext(cfg, s, sub).log) == (if Passes(e) then Some(e) else NewestPass(s.log))
              && NewestSubmission(AttemptNext(cfg, s, sub).log) == (if Submits(e) then Some(e) else NewestSubmission(s.log))
  {
    AttemptLog(cfg, s, sub);
    NewestSnoc(s.log, Started(s));
    if sub.Submitted? {
      var stored := PatchStored(sub.id, MaxVersion(s.patches) + 1, Sources(cfg, sub.files));
      NewestSnoc(StartedLog(s), stored);
      NewestSnoc(StartedLog(s) + [stored], ToolSucceeded(SubmitPatch, sub.files));
    }
    var l := StoredLog(cfg, s, sub);
    NewestSnoc(l, Completion(s, sub));
    NewestSnoc(l + [Completion(s, sub)], RepairLimitReached);
  }

  lemma StoredIdsKnown(patches: seq<Patch>, sub: Submission)
    ensures sub.Submitted? ==> !FreshId(Stored(patches, sub), sub.id)
    ensures forall id | !FreshId(patches, id) :: !FreshId(Stored(patches, sub), id)
  {
    var more := Stored(patches, sub);
    if sub.Submitted? { assert more[|patches|].id == sub.id; }
    forall id | !FreshId(patches, id) ensures !FreshId(more, id) {
      var i :| 0 <= i < |patches| && patches[i].id == id;
      assert more[i].id == id;
    }
  }

  lemma SelectionStep(cfg: Config, s: RunState, a: Action)
    requires SelectionInv(s) && PatchInv(s) && Enabled(cfg, s, a)
    ensures SelectionInv(Next(cfg, s, a))
  {
    if a.AttemptCall? {
      var began, sub := Began(s.repair, CurrentRevisions(s)), a.submission;
      AttemptNewest(cfg, s, sub);
      StoredIdsKnown(s.patches, sub);
      if !sub.InvalidResult? {
        CompletionRemembered(cfg, began, NewestPass(s.log), NewestSubmission(s.log), s.patches,
                             Stored(s.patches, sub), PatchOf(sub), VerdictOf(sub));
      }
    } else if !a.HypothesisCall? {
      NewestSnoc(s.log, Next(cfg, s, a).log[|s.log|]);
    }
  }

  // ------------------------------------------------------------ reachable states

  ghost predicate Inv(cfg: Config, s: RunState) {
    && PlanInv(cfg, s) && OneLive(s.hypotheses) && StreakInv(cfg, s) && AccountInv(cfg, s)
    && EvidenceInv(cfg, s) && RankingOpenInv(cfg, s) && PatchInv(s) && SelectionInv(s)
  }

  lemma PlanStep(cfg: Config, s: RunState, a: Action)
    requires PlanInv(cfg, s) && OneLive(s.hypotheses)
    ensures PlanInv(cfg, Next(cfg, s, a)) && OneLive(Next(cfg, s, a).hypotheses)
  {
    if a.HypothesisCall? { HypothesisStep(s.hypotheses, a.status); }
  }

  /** Every enabled action keeps every invariant. */
  lemma StepKeepsInv(cfg: Config, s: RunState, a: Action)
    requires Inv(cfg, s) && Enabled(cfg, s, a)
    ensures Inv(cfg, Next(cfg, s, a))
  {
    PlanStep(cfg, s, a);
    StreakStep(cfg, s, a);
    AccountStep(cfg, s, a);
    EvidenceStep(cfg, s, a);
    RankingOpenStep(cfg, s, a);
    PatchStep(cfg, s, a);
    SelectionStep(cfg, s, a);
  }

  /** Every state of every run satisfies the invariants. */
  lemma {:induction false} Reachable(cfg: Config, trace: seq<Action>)
    requires Legal(cfg, trace)
    ensures Inv(cfg, StateAfter(cfg, trace))
  {
    if trace != [] {
      Reachable(cfg, trace[..|trace| - 1]);
      StepKeepsInv(cfg, StateAfter(cfg, trace[..|trace| - 1]), trace[|trace| - 1]);
    }
  }
}
