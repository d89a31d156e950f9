/**
 Repeated test runs: the runner's nested loop over repetitions and commands, whose results come back
 as one flat list (backend/app/sandbox/runner.py), and the flakiness check that regroups the list
 and judges it (backend/app/flakiness/service.py).
 */
module Flakiness {
  import opened Wrappers

  datatype CommandResult = CommandResult(passed: bool, timedOut: bool, errorCode: bool)

  /** What each command of each repetition would do; `None` is a Docker or operating-system exception. */
  type Outcomes = (nat, nat) -> Option<CommandResult>

  datatype Policy = Policy(repetitions: nat, commands: nat, stopOnFirstFailure: bool)

  /** The result ends the whole test phase. */
  predicate Halts(result: CommandResult, policy: Policy) {
    result.errorCode || result.timedOut || (policy.stopOnFirstFailure && !result.passed)
  }

  // What the repetitions truly did

  /** The command ran without a runner error or a timeout, and passed where the first failure stops the phase. */
  predicate GoesOn(outcomes: Outcomes, policy: Policy, repetition: nat, command: nat) {
    match outcomes(repetition, command)
    case None => false
    case Some(result) => !result.errorCode && !result.timedOut && (policy.stopOnFirstFailure ==> result.passed)
  }

  /** The first `n` commands of the repetition ran and the repetition went on. */
  predicate GoesPast(outcomes: Outcomes, policy: Policy, repetition: nat, n: nat) {
    forall c | 0 <= c < n :: GoesOn(outcomes, policy, repetition, c)
  }

  /** The repetition got a first result: every repetition before it ran all its commands without a halt. */
  predicate Started(outcomes: Outcomes, policy: Policy, repetition: nat) {
    && repetition < policy.repetitions
    && (forall r | 0 <= r < repetition :: GoesPast(outcomes, policy, r, policy.commands))
    && outcomes(repetition, 0).Some?
  }

  /** The phase came to the command: everything before it went on. */
  predicate Reached(outcomes: Outcomes, policy: Policy, repetition: nat, command: nat) {
    && repetition < policy.repetitions && command < policy.commands
    && (forall r | 0 <= r < repetition :: GoesPast(outcomes, policy, r, policy.commands))
    && GoesPast(outcomes, policy, repetition, command)
  }

  /** The phase came to a command that raised or ended with a runner error. */
  ghost predicate BreaksDown(outcomes: Outcomes, policy: Policy) {
    exists r, c :: Reached(outcomes, policy, r, c) && Fails(outcomes, r, c)
  }

  predicate Fails(outcomes: Outcomes, repetition: nat, command: nat) {
    outcomes(repetition, command).None? || outcomes(repetition, command).value.errorCode
  }

  predicate RanAndPassed(outcomes: Outcomes, repetition: nat, command: nat) {
    outcomes(repetition, command).Some? && outcomes(repetition, command).value.passed
  }

  /** All commands of the repetition ran, nothing halting it before its last one, and all passed. */
  predicate Passes(outcomes: Outcomes, policy: Policy, repetition: nat) {
    && (forall c | 0 <= c < policy.commands :: RanAndPassed(outcomes, repetition, c))
    && forall c | 0 <= c < policy.commands - 1 :: GoesOn(outcomes, policy, repetition, c)
  }

  // The runner

  datatype Ending = Completed | Stopped | Raised

  datatype Attempt = Attempt(results: seq<CommandResult>, ending: Ending)

  /** The rest of a repetition, from one of its commands on. */
  function Rest(outcomes: Outcomes, policy: Policy, repetition: nat, command: nat): Attempt
    requires command <= policy.commands
    decreases policy.commands - command
  {
    if command == policy.commands then Attempt([], Completed)
    else match outcomes(repetition, command)
      case None => Attempt([], Raised)
      case Some(result) =>
        if Halts(result, policy) then Attempt([result], Stopped)
        else
          var rest := Rest(outcomes, policy, repetition, command + 1);
          Attempt([result] + rest.results, rest.ending)
  }

  /** The test phase: its flat results, and whether an exception ended it. */
  datatype Tests = Tests(results: seq<CommandResult>, raised: bool)

  /** The test phase from one repetition on. */
  function Phase(outcomes: Outcomes, policy: Policy, repetition: nat): Tests
    requires repetition <= policy.repetitions
    decreases policy.repetitions - repetition
  {
    if repetition == policy.repetitions then Tests([], false)
    else
      var attempt := Rest(outcomes, policy, repetition, 0);
      if attempt.ending != Completed then Tests(attempt.results, attempt.ending == Raised)
      else
        var later := Phase(outcomes, policy, repetition + 1);
        Tests(attempt.results + later.results, later.raised)
  }

  /** The inner loop: the commands of one repetition, in order, until one halts or raises. */
  method RunCommands(outcomes: Outcomes, policy: Policy, repetition: nat) returns (results: seq<CommandResult>, ending: Ending)
    ensures Attempt(results, ending) == Rest(outcomes, policy, repetition, 0)
  {
    results := [];
    for command := 0 to policy.commands
      invariant results + Rest(outcomes, policy, repetition, command).results == Rest(outcomes, policy, repetition, 0).results
      invariant Rest(outcomes, policy, repetition, command).ending == Rest(outcomes, policy, repetition, 0).ending
    {
      var result := outcomes(repetition, command);
      if result.None? {
        return results, Raised;
      }
      results := results + [result.value];
      if Halts(result.value, policy) {
        return results, Stopped;
      }
    }
    return results, Completed;
  }

  /** The outer loop at a repetition: what was collected, and what the later repetitions will add. */
  ghost predicate Testing(outcomes: Outcomes, policy: Policy, repetition: nat, results: seq<CommandResult>)
    requires repetition <= policy.repetitions
  {
    var later := Phase(outcomes, policy, repetition);
    Tests(results + later.results, later.raised) == Phase(outcomes, policy, 0)
  }

  lemma TestOne(outcomes: Outcomes, policy: Policy, repetition: nat, results: seq<CommandResult>, attempt: Attempt)
    requires repetition < policy.repetitions && Testing(outcomes, policy, repetition, results)
    requires attempt == Rest(outcomes, policy, repetition, 0)
    ensures attempt.ending == Completed ==> Testing(outcomes, policy, repetition + 1, results + attempt.results)
    ensures attempt.ending != Completed ==>
      Tests(results + attempt.results, attempt.ending == Raised) == Phase(outcomes, policy, 0)
  {
  }

  lemma NoResults(a: seq<CommandResult>)
    ensures a + [] == a == [] + a
  {
  }

  /** The outer loop: the repetitions, until one does not run to its end. */
  method RunTests(outcomes: Outcomes, policy: Policy) returns (results: seq<CommandResult>, raised: bool)
    ensures Tests(results, raised) == Phase(outcomes, policy, 0)
  {
    results := [];
    NoResults(Phase(outcomes, policy, 0).results);
    for repetition := 0 to policy.repetitions
      invariant Testing(outcomes, policy, repetition, results)
    {
      var more, ending := RunCommands(outcomes, policy, repetition);
      TestOne(outcomes, policy, repetition, results, Attempt(more, ending));
      results := results + more;
      if ending != Completed {
        return results, ending == Raised;
      }
    }
    NoResults(results);
    return results, false;
  }

  // The flakiness check

  /** A regrouped repetition: its verdict and its results. */
  datatype Run = Run(passed: bool, results: seq<CommandResult>)

  predicate AllPassed(results: seq<CommandResult>) {
    forall i | 0 <= i < |results| :: results[i].passed
  }

  function Slice(results: seq<CommandResult>, cursor: nat, n: nat): seq<CommandResult>
    requires cursor <= |results|
  {
    results[cursor..if cursor + n <= |results| then cursor + n else |results|]
  }

  function RunOf(current: seq<CommandResult>, commands: nat): Run {
    Run(|current| == commands && AllPassed(current), current)
  }

  function Grouped(results: seq<CommandResult>, cursor: nat, commands: nat, repetitions: nat): seq<Run>
    requires cursor <= |results|
    decreases repetitions
  {
    if repetitions == 0 then []
    else
      var current := Slice(results, cursor, commands);
      if current == [] then []
      else if |current| == commands
      then [RunOf(current, commands)] + Grouped(results, cursor + |current|, commands, repetitions - 1)
      else [RunOf(current, commands)]
  }

  /** The grouping loop at a cursor: what was grouped, and what the rest of the results will add. */
  ghost predicate Grouping(results: seq<CommandResult>, commands: nat, repetitions: nat, grouped: seq<Run>, cursor: nat, left: nat) {
    cursor <= |results| && grouped + Grouped(results, cursor, commands, left) == Grouped(results, 0, commands, repetitions)
  }

  lemma GroupingStarts(results: seq<CommandResult>, commands: nat, repetitions: nat)
    ensures Grouping(results, commands, repetitions, [], 0, repetitions)
  {
  }

  lemma GroupingEnds(results: seq<CommandResult>, commands: nat, repetitions: nat, grouped: seq<Run>, cursor: nat, left: nat)
    requires Grouping(results, commands, repetitions, grouped, cursor, left)
    requires left == 0 || Slice(results, cursor, commands) == []
    ensures grouped == Grouped(results, 0, commands, repetitions)
  {
  }

  lemma GroupOne(results: seq<CommandResult>, commands: nat, repetitions: nat, grouped: seq<Run>, cursor: nat, left: nat,
                 current: seq<CommandResult>)
    requires Grouping(results, commands, repetitions, grouped, cursor, left) && left > 0
    requires current == Slice(results, cursor, commands) && current != []
    ensures |current| == commands ==>
      Grouping(results, commands, repetitions, grouped + [RunOf(current, commands)], cursor + |current|, left - 1)
    ensures |current| != commands ==> grouped + [RunOf(current, commands)] == Grouped(results, 0, commands, repetitions)
  {
  }

  /** `_group_repetitions`. */
  method GroupRepetitions(results: seq<CommandResult>, commands: nat, repetitions: nat) returns (grouped: seq<Run>)
    ensures grouped == Grouped(results, 0, commands, repetitions)
  {
    grouped := [];
    var cursor: nat := 0;
    GroupingStarts(results, commands, repetitions);
    for i := 0 to repetitions
      invariant Grouping(results, commands, repetitions, grouped, cursor, repetitions - i)
    {
      var current := Slice(results, cursor, commands);
      if current == [] {
        GroupingEnds(results, commands, repetitions, grouped, cursor, repetitions - i);
        return;
      }
      GroupOne(results, commands, repetitions, grouped, cursor, repetitions - i, current);
      cursor := cursor + |current|;
      grouped := grouped + [RunOf(current, commands)];
      if |current| != commands {
        return;
      }
    }
    GroupingEnds(results, commands, repetitions, grouped, cursor, 0);
  }

  // Regrouping undoes flattening

  /** The shape of a repetition: how far it got, and how it ended. */
  lemma {:induction false} RestShape(outcomes: Outcomes, policy: Policy, repetition: nat, command: nat)
    requires command <= policy.commands
    ensures var attempt := Rest(outcomes, policy, repetition, command);
            && |attempt.results| <= policy.commands - command
            && (attempt.results == [] <==> command == policy.commands || outcomes(repetition, command).None?)
            && (attempt.ending == Completed ==> |attempt.results| == policy.commands - command)
            && (attempt.ending == Completed <==>
                forall c | command <= c < policy.commands :: GoesOn(outcomes, policy, repetition, c))
    decreases policy.commands - command
  {
    if command < policy.commands && GoesOn(outcomes, policy, repetition, command) {
      RestShape(outcomes, policy, repetition, command + 1);
    }
  }

  /** From one command on, every command ran and passed, and nothing halted before the last. */
  ghost predicate PassesFrom(outcomes: Outcomes, policy: Policy, repetition: nat, command: nat) {
    && (forall c | command <= c < policy.commands :: RanAndPassed(outcomes, repetition, c))
    && forall c | command <= c < policy.commands - 1 :: GoesOn(outcomes, policy, repetition, c)
  }

  lemma {:induction false} RestVerdict(outcomes: Outcomes, policy: Policy, repetition: nat, command: nat)
    requires command <= policy.commands
    ensures var results := Rest(outcomes, policy, repetition, command).results;
            (|results| == policy.commands - command && AllPassed(results)) <==> PassesFrom(outcomes, policy, repetition, command)
    decreases policy.commands - command
  {
    if command < policy.commands {
      if GoesOn(outcomes, policy, repetition, command) {
        RestVerdict(outcomes, policy, repetition, command + 1);
        RestShape(outcomes, policy, repetition, command + 1);
        FirstPassed(outcomes(repetition, command).value, Rest(outcomes, policy, repetition, command + 1).results);
        assert RanAndPassed(outcomes, repetition, command) <==> outcomes(repetition, command).value.passed;
        assert PassesFrom(outcomes, policy, repetition, command) <==>
               RanAndPassed(outcomes, repetition, command) && PassesFrom(outcomes, policy, repetition, command + 1);
      } else if command < policy.commands - 1 {
        assert !PassesFrom(outcomes, policy, repetition, command);
      } else {
        assert PassesFrom(outcomes, policy, repetition, command) <==> RanAndPassed(outcomes, repetition, command);
        if outcomes(repetition, command).Some? {
          var only := [outcomes(repetition, command).value];
          assert Rest(outcomes, policy, repetition, command).results == only;
          assert AllPassed(only) <==> only[0].passed;
        }
      }
    }
  }

  lemma FirstPassed(first: CommandResult, rest: seq<CommandResult>)
    ensures AllPassed([first] + rest) <==> first.passed && AllPassed(rest)
  {
    var all := [first] + rest;
    assert all[0] == first && forall i | 0 <= i < |rest| :: all[i + 1] == rest[i];
  }

  /** Every repetition from one on, up to another, ran all its commands without a halt. */
  ghost predicate AllGoPast(outcomes: Outcomes, policy: Policy, from: nat, to: nat) {
    forall r | from <= r < to :: GoesPast(outcomes, policy, r, policy.commands)
  }

  /** These are the results of a repetition: those of the commands it came to that did not raise, in order. */
  ghost predicate ResultsOf(outcomes: Outcomes, policy: Policy, repetition: nat, command: nat, results: seq<CommandResult>) {
    forall c: nat :: ResultAt(outcomes, policy, repetition, command, c, results)
  }

  ghost predicate ResultAt(
    outcomes: Outcomes, policy: Policy, repetition: nat, command: nat, c: nat, results: seq<CommandResult>)
  {
    && (c < |results| <==>
          && command + c < policy.commands && outcomes(repetition, command + c).Some?
          && forall b | command <= b < command + c :: GoesOn(outcomes, policy, repetition, b))
    && (c < |results| ==> outcomes(repetition, command + c) == Some(results[c]))
  }

  lemma {:induction false} RestResults(outcomes: Outcomes, policy: Policy, repetition: nat, command: nat)
    requires command <= policy.commands
    ensures ResultsOf(outcomes, policy, repetition, command, Rest(outcomes, policy, repetition, command).results)
    decreases policy.commands - command
  {
    var results := Rest(outcomes, policy, repetition, command).results;
    if command < policy.commands && GoesOn(outcomes, policy, repetition, command) {
      RestResults(outcomes, policy, repetition, command + 1);
      var rest := Rest(outcomes, policy, repetition, command + 1).results;
      forall c: nat ensures ResultAt(outcomes, policy, repetition, command, c, results) {
        if c > 0 {
          assert ResultAt(outcomes, policy, repetition, command + 1, c - 1, rest);
          assert results[1..] == rest;
        }
      }
    }
  }

  /** A regrouped repetition is what truly happened in it. */
  ghost predicate Truthful(outcomes: Outcomes, policy: Policy, repetition: nat, run: Run) {
    run.passed == Passes(outcomes, policy, repetition) && ResultsOf(outcomes, policy, repetition, 0, run.results)
  }

  /** Grouping results that start with whole repetitions' results is grouping what follows them. */
  lemma {:induction false} GroupedFrom(
    before: seq<CommandResult>, results: seq<CommandResult>, cursor: nat, commands: nat, repetitions: nat)
    requires cursor <= |results|
    ensures Grouped(before + results, |before| + cursor, commands, repetitions) == Grouped(results, cursor, commands, repetitions)
    decreases repetitions
  {
    if repetitions > 0 {
      var current := Slice(results, cursor, commands);
      assert Slice(before + results, |before| + cursor, commands) == current;
      if current != [] && |current| == commands {
        GroupedFrom(before, results, cursor + |current|, commands, repetitions - 1);
      }
    }
  }

  /** The grouped results of the test phase from one repetition on. */
  function Regrouped(outcomes: Outcomes, policy: Policy, repetition: nat): seq<Run>
    requires repetition <= policy.repetitions
  {
    Grouped(Phase(outcomes, policy, repetition).results, 0, policy.commands, policy.repetitions - repetition)
  }

  /** A repetition got a first result, counting from another one. */
  ghost predicate StartedFrom(outcomes: Outcomes, policy: Policy, from: nat, repetition: nat) {
    AllGoPast(outcomes, policy, from, repetition) && outcomes(repetition, 0).Some?
  }

  /** How the grouped results of a phase begin. */
  lemma RegroupOne(outcomes: Outcomes, policy: Policy, repetition: nat, attempt: Attempt)
    requires policy.commands > 0 && repetition < policy.repetitions
    requires attempt == Rest(outcomes, policy, repetition, 0)
    ensures Regrouped(outcomes, policy, repetition) ==
      if attempt.results == [] then []
      else if attempt.ending == Completed
      then [RunOf(attempt.results, policy.commands)] + Regrouped(outcomes, policy, repetition + 1)
      else [RunOf(attempt.results, policy.commands)]
  {
    RestShape(outcomes, policy, repetition, 0);
    var n := policy.repetitions - repetition;
    var all := Phase(outcomes, policy, repetition).results;
    if attempt.ending == Completed {
      var later := Phase(outcomes, policy, repetition + 1).results;
      assert all == attempt.results + later && |attempt.results| == policy.commands;
      GroupedAfterFirst(attempt.results, later, n);
    } else {
      assert all == attempt.results;
      SliceOfWhole(attempt.results, policy.commands);
      if attempt.results != [] && |attempt.results| == policy.commands { GroupedEnd(all, policy.commands, n - 1); }
    }
  }

  /** Results that begin with a whole repetition's are grouped as that one and what follows it. */
  lemma GroupedAfterFirst(first: seq<CommandResult>, later: seq<CommandResult>, repetitions: nat)
    requires first != [] && repetitions > 0
    ensures Grouped(first + later, 0, |first|, repetitions) == [RunOf(first, |first|)] + Grouped(later, 0, |first|, repetitions - 1)
  {
    SliceOfFirst(first, later);
    GroupedFrom(first, later, 0, |first|, repetitions - 1);
  }

  lemma SliceOfFirst(first: seq<CommandResult>, later: seq<CommandResult>)
    ensures Slice(first + later, 0, |first|) == first
  {
  }

  lemma SliceOfWhole(results: seq<CommandResult>, n: nat)
    requires |results| <= n
    ensures Slice(results, 0, n) == results
  {
  }

  lemma GroupedEnd(results: seq<CommandResult>, commands: nat, repetitions: nat)
    ensures Grouped(results, |results|, commands, repetitions) == []
  {
    assert Slice(results, |results|, commands) == [];
  }

  lemma StartedNext(outcomes: Outcomes, policy: Policy, from: nat, repetition: nat)
    requires from <= repetition
    ensures StartedFrom(outcomes, policy, from, repetition) <==>
      if from == repetition then outcomes(from, 0).Some?
      else GoesPast(outcomes, policy, from, policy.commands) && StartedFrom(outcomes, policy, from + 1, repetition)
  {
  }

  /** Grouped results, from one repetition on, say of another one whether it started and what it did. */
  ghost predicate RecoveredAt(outcomes: Outcomes, policy: Policy, from: nat, k: nat, runs: seq<Run>) {
    && (k < |runs| <==> from + k < policy.repetitions && StartedFrom(outcomes, policy, from, from + k))
    && (k < |runs| ==> Truthful(outcomes, policy, from + k, runs[k]))
  }

  lemma FirstIsTrue(outcomes: Outcomes, policy: Policy, repetition: nat, results: seq<CommandResult>)
    requires results == Rest(outcomes, policy, repetition, 0).results
    ensures Truthful(outcomes, policy, repetition, RunOf(results, policy.commands))
  {
    RestVerdict(outcomes, policy, repetition, 0);
    RestResults(outcomes, policy, repetition, 0);
  }

  /** A repetition that did not run to its end is the last one grouped, if it got a result at all. */
  lemma CutShort(outcomes: Outcomes, policy: Policy, repetition: nat, attempt: Attempt, k: nat, runs: seq<Run>)
    requires policy.commands > 0 && repetition < policy.repetitions
    requires attempt == Rest(outcomes, policy, repetition, 0) && attempt.ending != Completed
    requires runs == if attempt.results == [] then [] else [RunOf(attempt.results, policy.commands)]
    ensures RecoveredAt(outcomes, policy, repetition, k, runs)
  {
    RestShape(outcomes, policy, repetition, 0);
    StartedNext(outcomes, policy, repetition, repetition + k);
    FirstIsTrue(outcomes, policy, repetition, attempt.results);
  }

  /** After a repetition that ran to its end, the others follow. */
  lemma RanThrough(outcomes: Outcomes, policy: Policy, repetition: nat, attempt: Attempt, k: nat, rest: seq<Run>)
    requires policy.commands > 0 && repetition < policy.repetitions
    requires attempt == Rest(outcomes, policy, repetition, 0) && attempt.ending == Completed
    requires k > 0 ==> RecoveredAt(outcomes, policy, repetition + 1, k - 1, rest)
    ensures RecoveredAt(outcomes, policy, repetition, k, [RunOf(attempt.results, policy.commands)] + rest)
  {
    RestShape(outcomes, policy, repetition, 0);
    StartedNext(outcomes, policy, repetition, repetition + k);
    FirstIsTrue(outcomes, policy, repetition, attempt.results);
  }

  /**
   Regrouping undoes flattening: the grouped repetitions are exactly those that got a first result,
   each with its own results and its true verdict.
   */
  lemma {:induction false} RegroupingRecovers(outcomes: Outcomes, policy: Policy, repetition: nat, k: nat)
    requires policy.commands > 0 && repetition + k <= policy.repetitions
    ensures |Regrouped(outcomes, policy, repetition)| <= policy.repetitions - repetition
    ensures RecoveredAt(outcomes, policy, repetition, k, Regrouped(outcomes, policy, repetition))
    decreases policy.repetitions - repetition
  {
    if repetition < policy.repetitions {
      var attempt := Rest(outcomes, policy, repetition, 0);
      RegroupOne(outcomes, policy, repetition, attempt);
      RestShape(outcomes, policy, repetition, 0);
      if attempt.ending == Completed {
        RegroupingRecovers(outcomes, policy, repetition + 1, if k > 0 then k - 1 else 0);
        RanThrough(outcomes, policy, repetition, attempt, k, Regrouped(outcomes, policy, repetition + 1));
      } else {
        CutShort(outcomes, policy, repetition, attempt, k, Regrouped(outcomes, policy, repetition));
      }
    }
  }

  // The verdict of the check

  datatype SandboxStatus = CloneFailed | CheckoutFailed | SetupFailed | SandboxError | TestsPassed | TestsFailed

  datatype Flakiness = FailedSetup | Inconclusive | Flaky | Stable

  /** The status the runner reports once it reaches the test phase. */
  function StatusOf(tests: Tests): SandboxStatus {
    if tests.raised || SomeError(tests.results) then SandboxError
    else if AllPassed(tests.results) then TestsPassed
    else TestsFailed
  }

  /** `_status`. */
  function Judge(status: SandboxStatus, verdicts: seq<bool>, requested: nat): Flakiness {
    if status == SetupFailed then FailedSetup
    else if status in {CloneFailed, CheckoutFailed, SandboxError} || verdicts == [] then Inconclusive
    else if |set verdict | verdict in verdicts| > 1 then Flaky
    else if |verdicts| < requested then Inconclusive
    else Stable
  }

  function Verdicts(runs: seq<Run>): seq<bool> {
    seq(|runs|, i requires 0 <= i < |runs| => runs[i].passed)
  }

  lemma MixedVerdicts(verdicts: seq<bool>)
    ensures |set verdict | verdict in verdicts| > 1 <==> true in verdicts && false in verdicts
  {
    var values := set verdict | verdict in verdicts;
    forall value | value in values ensures value in {true, false} {
      if value {} else {}
    }
    if true in verdicts && false in verdicts {
      assert values == {true, false};
    } else if true in verdicts {
      assert values == {true};
    } else if false in verdicts {
      assert values == {false};
    } else {
      assert values == {};
    }
  }

  /** The verdicts of the check are the true verdicts of the repetitions that got a first result. */
  lemma TrueVerdicts(outcomes: Outcomes, policy: Policy, verdicts: seq<bool>)
    requires policy.commands > 0
    requires verdicts == Verdicts(Regrouped(outcomes, policy, 0))
    ensures |verdicts| <= policy.repetitions
    ensures forall r: nat | r < policy.repetitions :: r < |verdicts| <==> Started(outcomes, policy, r)
    ensures forall r | 0 <= r < |verdicts| :: verdicts[r] == Passes(outcomes, policy, r)
  {
    forall r: nat | r <= policy.repetitions
      ensures |verdicts| <= policy.repetitions
      ensures r < |verdicts| <==> Started(outcomes, policy, r)
      ensures r < |verdicts| ==> verdicts[r] == Passes(outcomes, policy, r)
    {
      RegroupingRecovers(outcomes, policy, 0, r);
    }
    assert |verdicts| <= policy.repetitions by { RegroupingRecovers(outcomes, policy, 0, 0); }
  }

  ghost predicate Disagree(outcomes: Outcomes, policy: Policy, r: nat, q: nat) {
    Started(outcomes, policy, r) && Started(outcomes, policy, q) && Passes(outcomes, policy, r) && !Passes(outcomes, policy, q)
  }

  /**
   Unless the sandbox failed, the check says stable exactly when every requested repetition got
   going and all true verdicts agree, and flaky exactly when two repetitions disagree.
   */
  lemma StatusIsTrue(outcomes: Outcomes, policy: Policy)
    requires policy.commands > 0 && policy.repetitions > 0
    ensures var tests := Phase(outcomes, policy, 0);
            var status := Judge(StatusOf(tests), Verdicts(Regrouped(outcomes, policy, 0)), policy.repetitions);
            var sound := !BreaksDown(outcomes, policy);
            && (status == Stable <==> sound && (forall r: nat | r < policy.repetitions :: Started(outcomes, policy, r))
                                      && !exists r, q :: Disagree(outcomes, policy, r, q))
            && (status == Flaky <==> sound && exists r, q :: Disagree(outcomes, policy, r, q))
            && status != FailedSetup
  {
    var verdicts := Verdicts(Regrouped(outcomes, policy, 0));
    TrueVerdicts(outcomes, policy, verdicts);
    MixedVerdicts(verdicts);
    if true in verdicts && false in verdicts {
      var r: nat :| r < |verdicts| && verdicts[r];
      var q: nat :| q < |verdicts| && !verdicts[q];
      assert Disagree(outcomes, policy, r, q);
    }
    if r: nat, q: nat :| Disagree(outcomes, policy, r, q) {
      assert verdicts[r] && !verdicts[q];
    }
    AllOrFewer(outcomes, policy, verdicts);
    SandboxErrorIff(outcomes, policy);
  }

  /** Whatever the repetitions did, a failed setup is reported as one and a failed checkout decides nothing. */
  lemma EarlierFailures(verdicts: seq<bool>, requested: nat)
    ensures Judge(SetupFailed, verdicts, requested) == FailedSetup
    ensures Judge(CloneFailed, verdicts, requested) == Inconclusive == Judge(CheckoutFailed, verdicts, requested)
  {
  }

  // When the phase breaks down

  /** From one command of a repetition on, the phase came to one that raised or ended with a runner error. */
  ghost predicate BreaksIn(outcomes: Outcomes, policy: Policy, repetition: nat, command: nat) {
    exists c: nat :: command <= c < policy.commands && Fails(outcomes, repetition, c)
                     && forall b | command <= b < c :: GoesOn(outcomes, policy, repetition, b)
  }

  predicate SomeError(results: seq<CommandResult>) {
    exists i | 0 <= i < |results| :: results[i].errorCode
  }

  lemma {:induction false} RestBreaks(outcomes: Outcomes, policy: Policy, repetition: nat, command: nat)
    requires command <= policy.commands
    ensures var attempt := Rest(outcomes, policy, repetition, command);
            && (attempt.ending == Raised || SomeError(attempt.results) <==> BreaksIn(outcomes, policy, repetition, command))
            && (attempt.ending == Completed ==> !BreaksIn(outcomes, policy, repetition, command))
    decreases policy.commands - command
  {
    if command < policy.commands {
      if GoesOn(outcomes, policy, repetition, command) {
        RestBreaks(outcomes, policy, repetition, command + 1);
        SomeErrorConcat([outcomes(repetition, command).value], Rest(outcomes, policy, repetition, command + 1).results);
        assert !SomeError([outcomes(repetition, command).value]);
        assert !Fails(outcomes, repetition, command);
        if BreaksIn(outcomes, policy, repetition, command + 1) {
          var c: nat :| command + 1 <= c < policy.commands && Fails(outcomes, repetition, c)
                        && forall b | command + 1 <= b < c :: GoesOn(outcomes, policy, repetition, b);
          assert forall b | command <= b < c :: GoesOn(outcomes, policy, repetition, b);
        }
      } else if outcomes(repetition, command).Some? {
        var only := [outcomes(repetition, command).value];
        assert SomeError(only) <==> only[0].errorCode;
        assert Fails(outcomes, repetition, command) <==> only[0].errorCode;
      } else {
        assert Fails(outcomes, repetition, command);
      }
    }
  }

  lemma SomeErrorConcat(a: seq<CommandResult>, b: seq<CommandResult>)
    ensures SomeError(a + b) <==> SomeError(a) || SomeError(b)
  {
    if i :| 0 <= i < |a| && a[i].errorCode { assert (a + b)[i].errorCode; }
    if i :| 0 <= i < |b| && b[i].errorCode { assert (a + b)[|a| + i].errorCode; }
  }

  /** From one repetition on, the phase breaks down in one it came to. */
  ghost predicate BreaksFrom(outcomes: Outcomes, policy: Policy, from: nat) {
    exists r: nat :: from <= r < policy.repetitions && AllGoPast(outcomes, policy, from, r) && BreaksIn(outcomes, policy, r, 0)
  }

  lemma {:induction false} PhaseBreaks(outcomes: Outcomes, policy: Policy, repetition: nat)
    requires repetition <= policy.repetitions
    ensures var tests := Phase(outcomes, policy, repetition);
            tests.raised || SomeError(tests.results) <==> BreaksFrom(outcomes, policy, repetition)
    decreases policy.repetitions - repetition
  {
    if repetition < policy.repetitions {
      var attempt := Rest(outcomes, policy, repetition, 0);
      RestBreaks(outcomes, policy, repetition, 0);
      RestShape(outcomes, policy, repetition, 0);
      if attempt.ending == Completed {
        PhaseBreaks(outcomes, policy, repetition + 1);
        SomeErrorConcat(attempt.results, Phase(outcomes, policy, repetition + 1).results);
        assert GoesPast(outcomes, policy, repetition, policy.commands);
        BreaksLater(outcomes, policy, repetition);
      } else {
        assert !GoesPast(outcomes, policy, repetition, policy.commands);
        if BreaksIn(outcomes, policy, repetition, 0) { assert AllGoPast(outcomes, policy, repetition, repetition); }
      }
    }
  }

  lemma BreaksLater(outcomes: Outcomes, policy: Policy, repetition: nat)
    requires repetition < policy.repetitions && GoesPast(outcomes, policy, repetition, policy.commands)
    requires !BreaksIn(outcomes, policy, repetition, 0)
    ensures BreaksFrom(outcomes, policy, repetition) <==> BreaksFrom(outcomes, policy, repetition + 1)
  {
    if BreaksFrom(outcomes, policy, repetition) {
      var r: nat :| repetition <= r < policy.repetitions && AllGoPast(outcomes, policy, repetition, r) && BreaksIn(outcomes, policy, r, 0);
      assert AllGoPast(outcomes, policy, repetition + 1, r);
    }
    if BreaksFrom(outcomes, policy, repetition + 1) {
      var r: nat :| repetition + 1 <= r < policy.repetitions && AllGoPast(outcomes, policy, repetition + 1, r)
                    && BreaksIn(outcomes, policy, r, 0);
      assert AllGoPast(outcomes, policy, repetition, r);
    }
  }

  /** The runner reports a sandbox error exactly if the phase breaks down. */
  lemma SandboxErrorIff(outcomes: Outcomes, policy: Policy)
    ensures StatusOf(Phase(outcomes, policy, 0)) == SandboxError <==> BreaksDown(outcomes, policy)
  {
    PhaseBreaks(outcomes, policy, 0);
    if BreaksFrom(outcomes, policy, 0) {
      var r: nat :| 0 <= r < policy.repetitions && AllGoPast(outcomes, policy, 0, r) && BreaksIn(outcomes, policy, r, 0);
      var c: nat :| 0 <= c < policy.commands && Fails(outcomes, r, c) && forall b | 0 <= b < c :: GoesOn(outcomes, policy, r, b);
      assert Reached(outcomes, policy, r, c);
    }
    if BreaksDown(outcomes, policy) {
      var r, c :| Reached(outcomes, policy, r, c) && Fails(outcomes, r, c);
      assert BreaksIn(outcomes, policy, r, 0) && AllGoPast(outcomes, policy, 0, r);
    }
  }

  lemma AllOrFewer(outcomes: Outcomes, policy: Policy, verdicts: seq<bool>)
    requires |verdicts| <= policy.repetitions && policy.repetitions > 0
    requires forall r: nat | r < policy.repetitions :: r < |verdicts| <==> Started(outcomes, policy, r)
    ensures |verdicts| == policy.repetitions <==> forall r: nat | r < policy.repetitions :: Started(outcomes, policy, r)
  {
    if |verdicts| < policy.repetitions {
      assert !Started(outcomes, policy, |verdicts|);
    }
  }

  /** The check from the outcomes on: the runner's flat results, regrouped and judged. */
  method Check(outcomes: Outcomes, policy: Policy) returns (status: Flakiness, runs: seq<Run>)
    requires policy.commands > 0 && policy.repetitions >= 2
    ensures runs == Regrouped(outcomes, policy, 0)
    ensures status == Judge(StatusOf(Phase(outcomes, policy, 0)), Verdicts(runs), policy.repetitions)
  {
    var results, raised := RunTests(outcomes, policy);
    runs := GroupRepetitions(results, policy.commands, policy.repetitions);
    status := Judge(StatusOf(Tests(results, raised)), Verdicts(runs), policy.repetitions);
  }
}
