/** The repair-outcome read model rebuilt from a finished run (backend/app/analytics/repair_outcomes.py). */
module Analytics {
  import opened Wrappers
  import opened Protocol
  import opened ProtocolSafety

  /** A stored test result: its phase, and the attempt it belongs to, if any. */
  datatype TestRow = TestRow(postPatch: bool, attempt: Option<nat>, passed: bool)

  predicate Counts(row: TestRow) {
    row.postPatch && row.attempt.Some?
  }

  /** The verdicts of an attempt's rows, in order. */
  function VerdictsOf(rows: seq<TestRow>, n: nat): seq<bool> {
    if rows == [] then []
    else
      var row := rows[|rows| - 1];
      VerdictsOf(rows[..|rows| - 1], n) + if row.postPatch && row.attempt == Some(n) then [row.passed] else []
  }

  /** The attempts of a run without attempt events, rebuilt from its test rows (`_legacy_attempts`). */
  method LegacyAttempts(rows: seq<TestRow>) returns (grouped: map<nat, seq<bool>>)
    ensures grouped.Keys == LegacyNumbers(rows)
    ensures forall n | n in grouped :: grouped[n] == VerdictsOf(rows, n)
    ensures forall n | n in grouped ::
              (forall k | 0 <= k < |grouped[n]| :: grouped[n][k]) <==>
              (forall i | 0 <= i < |rows| && rows[i].postPatch && rows[i].attempt == Some(n) :: rows[i].passed)
  {
    grouped := map[];
    for i := 0 to |rows|
      invariant grouped.Keys == LegacyNumbers(rows[..i])
      invariant forall n | n in grouped :: grouped[n] == VerdictsOf(rows[..i], n)
    {
      assert rows[..i + 1][..i] == rows[..i];
      ghost var was := grouped;
      if Counts(rows[i]) {
        var n := rows[i].attempt.value;
        if n !in grouped { NotYetSeen(rows[..i], n); }
        grouped := grouped[n := (if n in grouped then grouped[n] else []) + [rows[i].passed]];
      }
      forall n | n in grouped ensures grouped[n] == VerdictsOf(rows[..i + 1], n) {
        NextVerdict(rows, i, n);
      }
    }
    assert rows[..|rows|] == rows;
    forall n | n in grouped
      ensures (forall k | 0 <= k < |grouped[n]| :: grouped[n][k]) <==>
              (forall i | 0 <= i < |rows| && rows[i].postPatch && rows[i].attempt == Some(n) :: rows[i].passed)
    {
      LegacyVerdicts(rows, n);
    }
  }

  lemma NextVerdict(rows: seq<TestRow>, i: nat, n: nat)
    requires i < |rows|
    ensures VerdictsOf(rows[..i + 1], n) ==
            if rows[i].postPatch && rows[i].attempt == Some(n) then VerdictsOf(rows[..i], n) + [rows[i].passed]
            else VerdictsOf(rows[..i], n)
  {
    assert rows[..i + 1][..i] == rows[..i];
    assert VerdictsOf(rows[..i], n) + [] == VerdictsOf(rows[..i], n);
  }

  /** An attempt is rebuilt exactly if some row is its; it has one verdict for each, and passed exactly if all of them did. */
  lemma {:induction false} LegacyVerdicts(rows: seq<TestRow>, n: nat)
    ensures n in LegacyNumbers(rows) <==> exists i :: 0 <= i < |rows| && rows[i].postPatch && rows[i].attempt == Some(n)
    ensures n in LegacyNumbers(rows) <==> VerdictsOf(rows, n) != []
    ensures (forall k | 0 <= k < |VerdictsOf(rows, n)| :: VerdictsOf(rows, n)[k]) <==>
            (forall i | 0 <= i < |rows| && rows[i].postPatch && rows[i].attempt == Some(n) :: rows[i].passed)
  {
    if rows != [] {
      var m := |rows| - 1;
      var prefix, before := rows[..m], VerdictsOf(rows[..m], n);
      LegacyVerdicts(prefix, n);
      assert rows[..m + 1] == rows;
      NextVerdict(rows, m, n);
      var own := rows[m].postPatch && rows[m].attempt == Some(n);
      if own { assert VerdictsOf(rows, n)[|before|] == rows[m].passed; }
      assert forall k | 0 <= k < |before| :: VerdictsOf(rows, n)[k] == before[k];
      assert forall i | 0 <= i < m :: rows[i] == prefix[i];
    }
  }

  function LegacyNumbers(rows: seq<TestRow>): set<nat> {
    if rows == [] then {}
    else
      var row := rows[|rows| - 1];
      LegacyNumbers(rows[..|rows| - 1]) + if Counts(row) then {row.attempt.value} else {}
  }

  lemma {:induction false} NotYetSeen(rows: seq<TestRow>, n: nat)
    requires n !in LegacyNumbers(rows)
    ensures VerdictsOf(rows, n) == []
  {
    if rows != [] { NotYetSeen(rows[..|rows| - 1], n); }
  }

  function Completions(log: seq<Event>): nat {
    if log == [] then 0
    else Completions(log[..|log| - 1]) + if log[|log| - 1].AttemptCompleted? then 1 else 0
  }

  function Max(a: int, b: int): int {
    if a >= b then a else b
  }

  /** `_run_outcome(...).repair_attempts`: the largest of three ways to count. */
  function RepairAttempts(used: nat, log: seq<Event>, patches: seq<Patch>, rows: seq<TestRow>): int {
    var attempts := if Completions(log) > 0 then Completions(log) else |LegacyNumbers(rows)|;
    Max(used, Max(Max(0, attempts - 1), Max(0, |patches| - 1)))
  }

  lemma {:induction false} CompletionsOfPairs(events: seq<Event>)
    requires Paired(events)
    ensures Completions(events) == |events| / 2
    decreases |events|
  {
    if events != [] {
      var n := |events| - 1;
      assert PairedAt(events, n);
      forall k | 0 <= k < n ensures PairedAt(events[..n], k) {
        assert PairedAt(events, k);
      }
      CompletionsOfPairs(events[..n]);
    }
  }

  lemma {:induction false} CompletionsAreAttemptEvents(log: seq<Event>)
    ensures Completions(log) == Completions(AttemptEvents(log))
  {
    if log != [] {
      var prefix, e := log[..|log| - 1], log[|log| - 1];
      CompletionsAreAttemptEvents(prefix);
      if e.AttemptStarted? || e.AttemptCompleted? {
        assert (AttemptEvents(prefix) + [e])[..|AttemptEvents(prefix)|] == AttemptEvents(prefix);
      } else {
        assert AttemptEvents(log) == AttemptEvents(prefix);
      }
    }
  }

  lemma {:induction false} FewNumbers(s: set<nat>, n: nat)
    requires forall x | x in s :: 1 <= x <= n
    ensures |s| <= n
    decreases n
  {
    if n == 0 {
      assert s == {};
    } else {
      FewNumbers(s - {n}, n - 1);
      assert |s| <= |s - {n}| + 1 by {
        if n in s { assert s == (s - {n}) + {n}; } else { assert s == s - {n}; }
      }
    }
  }

  /**
   The read model agrees with the run: rebuilt from the event table, the patch rows and any test
   rows written by the run's attempts, the number of repair attempts is the one the run recorded.
   */
  lemma ReadModelAgrees(cfg: Config, trace: seq<Action>, rows: seq<TestRow>)
    requires Legal(cfg, trace)
    requires forall n | n in LegacyNumbers(rows) :: 1 <= n <= StateAfter(cfg, trace).repair.attempt
    ensures var s := StateAfter(cfg, trace);
            RepairAttempts(s.repair.used, s.log, s.patches, rows) == s.repair.used
  {
    Reachable(cfg, trace);
    var s := StateAfter(cfg, trace);
    CompletionsAreAttemptEvents(s.log);
    CompletionsOfPairs(AttemptEvents(s.log));
    FewNumbers(LegacyNumbers(rows), s.repair.attempt);
  }
}
