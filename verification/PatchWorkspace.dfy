/**
 Patch candidates and the Git workspace (backend/app/patches/service.py), over an abstract diff
 algebra: what git prints and applies is a parameter, and what a proof needs of it is asked for at
 the workspace and the patch at hand.
 */
module PatchWorkspace {
  import opened Wrappers
  import EditScope
  import Protocol
  import PyText

  type Tree = map<string, string>
  type Text = string

  /**
   Git on one repository at its base commit, and the checks that do not depend on the run:
   `changed` is git's own list of changed files, which `listable` says is within the path and count
   limits; `files` are the files named in a patch's headers; `readable` stands for the size, binary,
   path and file-count checks on a patch text, `withinQuality` for the quality limits other than
   edit scope.
   */
  datatype Env = Env(
    diff: Tree -> Text,
    changed: Tree -> set<Protocol.Path>,
    listable: Tree -> bool,
    forward: (Text, Tree) -> Option<Tree>,
    reverse: (Text, Tree) -> Option<Tree>,
    readable: Text -> bool,
    files: Text -> set<Protocol.Path>,
    withinQuality: (Text, set<Protocol.Path>) -> bool,
    running: bool,
    cfg: Protocol.Config)

  datatype Applied = NothingToApply | AppliedNow | AlreadyApplied

  /** `get_current_workspace_diff`. */
  function CurrentDiff(env: Env, w: Tree): Result<Text, Protocol.ErrorKind> {
    var text := env.diff(w);
    if (text == "" || env.readable(text)) && env.listable(w) then Ok(text) else Err(Protocol.PatchSafetyError)
  }

  /** The quality gate on a patch text and the files it is said to change, with the rankings and plans recorded so far. */
  predicate GateAccepts(env: Env, log: seq<Protocol.Event>, text: Text, files: set<Protocol.Path>) {
    env.withinQuality(text, files) && Protocol.ScopeAccepts(env.cfg, log, files)
  }

  /** The gate as `ensure_patch_applied` asks it: on the files the patch's headers name. */
  predicate Accepts(env: Env, log: seq<Protocol.Event>, text: Text) {
    env.files(text) != {} && GateAccepts(env, log, text, env.files(text))
  }

  /** `ensure_patch_applied`: the workspace afterwards, and the result or the exception. */
  function EnsureApplied(env: Env, log: seq<Protocol.Event>, w: Tree, text: Text):
    (Tree, Result<Applied, Protocol.ErrorKind>)
  {
    if !env.running then (w, Err(Protocol.PatchSafetyError))
    else if PyText.Blank(text) then (w, Ok(NothingToApply))
    else if !env.readable(text) || !Accepts(env, log, text) then (w, Err(Protocol.PatchSafetyError))
    else if CurrentDiff(env, w).Err? then (w, Err(CurrentDiff(env, w).error))
    else if env.diff(w) == text && env.reverse(text, w).Some? then (w, Ok(AlreadyApplied))
    else if env.forward(text, w).Some? then (env.forward(text, w).value, Ok(AppliedNow))
    else if env.reverse(text, w).Some? then (w, Ok(AlreadyApplied))
    else (w, Err(Protocol.PatchApplyError))
  }

  /** `restore_candidate`: the workspace afterwards, and whether it returned normally. */
  function Restore(env: Env, log: seq<Protocol.Event>, w: Tree, text: Text): (Tree, Result<(), Protocol.ErrorKind>) {
    if !env.running then (w, Err(Protocol.PatchSafetyError))
    else if CurrentDiff(env, w).Err? then (w, Err(CurrentDiff(env, w).error))
    else if text != "" && !env.readable(text) then (w, Err(Protocol.PatchSafetyError))
    else if env.diff(w) == text then (w, Ok(()))
    else if !PyText.Blank(env.diff(w)) && env.reverse(env.diff(w), w).None? then (w, Err(Protocol.PatchApplyError))
    else
      var clean := if PyText.Blank(env.diff(w)) then w else env.reverse(env.diff(w), w).value;
      var (next, applied) := EnsureApplied(env, log, clean, text);
      if applied.Err? then (next, Err(applied.error))
      else if CurrentDiff(env, next).Err? then (next, Err(CurrentDiff(env, next).error))
      else if env.diff(next) != text then (next, Err(Protocol.PatchApplyError))
      else (next, Ok(()))
  }

  // --------------------------------------------------------------- git's answers

  /** A printed diff is empty or has something to see; the source's always starts with a header. */
  predicate Visible(text: Text) {
    PyText.Blank(text) ==> text == ""
  }

  /** There is nothing to undo, or git undoes the diff it is shown of the workspace. */
  predicate Undoable(env: Env, w: Tree) {
    env.diff(w) == "" || env.reverse(env.diff(w), w).Some?
  }

  /** The workspace `restore_candidate` goes back to first. */
  function Reset(env: Env, w: Tree): Tree
    requires Undoable(env, w)
  {
    if env.diff(w) == "" then w else env.reverse(env.diff(w), w).value
  }

  /** Undoing the diff of the workspace, where git does it, leaves nothing to print. */
  predicate UndoCleans(env: Env, w: Tree) {
    Undoable(env, w) && env.diff(w) != "" ==> CurrentDiff(env, Reset(env, w)) == Ok("")
  }

  /** Git applies the text to this workspace, and then prints that text. */
  predicate Reapplies(env: Env, text: Text, c: Tree) {
    env.forward(text, c).Some? && CurrentDiff(env, env.forward(text, c).value) == Ok(text)
  }

  /** A text some workspace printed and the run's checks let through: what a stored patch holds. */
  ghost predicate Recorded(env: Env, text: Text) {
    exists w: Tree :: CurrentDiff(env, w) == Ok(text)
  }

  /** What the proofs about one restore ask of git and of the printed texts. */
  predicate Regular(env: Env, w: Tree, text: Text) {
    Visible(env.diff(w)) && Visible(text) && UndoCleans(env, w)
  }

  // ------------------------------------------------------------------- applying

  /** A text is some workspace's readable diff exactly if it is empty or readable, and printed by one whose files are within the limits. */
  lemma RecordedIff(env: Env, text: Text)
    ensures Recorded(env, text) <==>
              (text == "" || env.readable(text)) && exists w: Tree :: env.diff(w) == text && env.listable(w)
  {
    if Recorded(env, text) {
      var w: Tree :| CurrentDiff(env, w) == Ok(text);
      assert env.diff(w) == text && env.listable(w);
    }
    if w: Tree :| env.diff(w) == text && env.listable(w) && (text == "" || env.readable(text)) {
      assert CurrentDiff(env, w) == Ok(text);
    }
  }

  /** The checks before git is asked: the run is on, the text is readable, its files accepted, and the workspace readable. */
  predicate Checked(env: Env, log: seq<Protocol.Event>, w: Tree, text: Text) {
    && env.running && env.readable(text) && Accepts(env, log, text)
    && (env.diff(w) == "" || env.readable(env.diff(w))) && env.listable(w)
  }

  /**
   `ensure_patch_applied` returns normally exactly on a run that is on, for a blank text, or for a
   checked one that git applies or undoes there; and only a text git applies changes the workspace.
   */
  lemma ApplyIff(env: Env, log: seq<Protocol.Event>, w: Tree, text: Text)
    ensures var (next, r) := EnsureApplied(env, log, w, text);
            && (r.Ok? <==>
                  || (env.running && PyText.Blank(text))
                  || (Checked(env, log, w, text) && (env.forward(text, w).Some? || env.reverse(text, w).Some?)))
            && (r == Ok(NothingToApply) <==> env.running && PyText.Blank(text))
            && (r == Ok(AppliedNow) <==>
                  && !PyText.Blank(text) && Checked(env, log, w, text) && env.forward(text, w).Some?
                  && !(env.diff(w) == text && env.reverse(text, w).Some?))
            && (r == Ok(AppliedNow) ==> env.forward(text, w) == Some(next))
            && (r != Ok(AppliedNow) ==> next == w)
            && (r == Err(Protocol.PatchApplyError) <==>
                  && !PyText.Blank(text) && Checked(env, log, w, text)
                  && env.forward(text, w).None? && env.reverse(text, w).None?)
            && (r.Err? ==> r.error == Protocol.PatchApplyError || r.error == Protocol.PatchSafetyError)
  {
  }

  // ----------------------------------------------------------------- restoring

  /** Where a restore can leave the workspace: as it was, with the current work undone, or with the text applied after that. */
  lemma RestoreLeaves(env: Env, log: seq<Protocol.Event>, w: Tree, text: Text)
    ensures var (next, r) := Restore(env, log, w, text);
            && (!env.running || CurrentDiff(env, w).Err? || (text != "" && !env.readable(text)) ==>
                  next == w && r == Err(Protocol.PatchSafetyError))
            && (next != w ==> exists clean ::
                  && (if PyText.Blank(env.diff(w)) then clean == w else env.reverse(env.diff(w), w) == Some(clean))
                  && (next == clean || env.forward(text, clean) == Some(next)))
            && (next != w ==> env.running && env.diff(w) != text)
  {
    var (next, r) := Restore(env, log, w, text);
    if next != w {
      var clean := if PyText.Blank(env.diff(w)) then w else env.reverse(env.diff(w), w).value;
      ApplyIff(env, log, clean, text);
      assert next == EnsureApplied(env, log, clean, text).0;
    }
  }

  /** A normal return leaves exactly the selected patch in the workspace, whatever git does. */
  lemma RestoreIsExact(env: Env, log: seq<Protocol.Event>, w: Tree, text: Text)
    ensures Restore(env, log, w, text).1.Ok? ==> env.diff(Restore(env, log, w, text).0) == text
  {
  }

  /** When a restore can succeed: nothing to do, or git undoes the current work and the patch is empty or passes and applies. */
  predicate Restorable(env: Env, log: seq<Protocol.Event>, w: Tree, text: Text) {
    || env.diff(w) == text
    || (Undoable(env, w) && (text == "" || (Accepts(env, log, text) && Reapplies(env, text, Reset(env, w)))))
  }

  /**
   Restoring a readable patch from a readable workspace refines "reset to base, then apply": it
   returns normally exactly when the workspace already holds the patch, or git undoes the current
   diff and the patch is empty or is accepted and applies to what is left; and it then ends where
   resetting and applying ends.
   */
  lemma RestoreRefinesResetThenApply(env: Env, log: seq<Protocol.Event>, w: Tree, text: Text)
    requires env.running && (text == "" || env.readable(text)) && CurrentDiff(env, w).Ok? && Regular(env, w, text)
    ensures Restore(env, log, w, text).1.Ok? <==> Restorable(env, log, w, text)
    ensures Restore(env, log, w, text).1.Ok? && env.diff(w) != text ==>
              Some(Restore(env, log, w, text).0) ==
              if text == "" then Some(Reset(env, w)) else env.forward(text, Reset(env, w))
  {
    if Undoable(env, w) && env.diff(w) != text {
      var clean := Reset(env, w);
      assert CurrentDiff(env, clean) == Ok("");
    }
  }

  /** Where git redoes the patch on an unchanged workspace, only the undo and the gate can stand in the way. */
  lemma RestoreNeedsUndoAndGate(env: Env, log: seq<Protocol.Event>, w: Tree, text: Text)
    requires env.running && (text == "" || env.readable(text)) && CurrentDiff(env, w).Ok? && Regular(env, w, text)
    requires Undoable(env, w) && text != "" ==> Reapplies(env, text, Reset(env, w))
    ensures Restore(env, log, w, text).1.Ok? <==>
            env.diff(w) == text || (Undoable(env, w) && (text == "" || Accepts(env, log, text)))
  {
    RestoreRefinesResetThenApply(env, log, w, text);
  }

  /** A workspace git cannot undo stays as it is, and every other patch is refused. */
  lemma UndoRefusedRestoreFails(env: Env, log: seq<Protocol.Event>, w: Tree, text: Text)
    requires env.running && (text == "" || env.readable(text)) && CurrentDiff(env, w).Ok? && Regular(env, w, text)
    requires env.diff(w) != text && !Undoable(env, w)
    ensures Restore(env, log, w, text) == (w, Err(Protocol.PatchApplyError))
  {
  }

  /**
   Restore is not atomic: when the gate no longer accepts the patch, it raises after the current
   work has been undone.
   */
  lemma RejectedRestoreLeavesCleanWorkspace(env: Env, log: seq<Protocol.Event>, w: Tree, text: Text)
    requires env.running && (text == "" || env.readable(text)) && CurrentDiff(env, w).Ok? && Regular(env, w, text)
    requires Undoable(env, w) && env.diff(w) != text && text != "" && !Accepts(env, log, text)
    ensures Restore(env, log, w, text) == (Reset(env, w), Err(Protocol.PatchSafetyError))
    ensures env.diff(Reset(env, w)) == ""
  {
  }

  // ---------------------------------------------------- storing and assessing

  /** The per-file rule of the scope gate, with the rankings and plans recorded so far. */
  ghost predicate Justified(env: Env, log: seq<Protocol.Event>, f: Protocol.Path) {
    EditScope.Justified(f, env.cfg.kind(f), Protocol.LatestRanking(log), Protocol.LatestPlanned(log), env.cfg.policy)
  }

  ghost predicate AllJustified(env: Env, log: seq<Protocol.Event>, files: set<Protocol.Path>) {
    env.cfg.guardrailOverride || forall f | f in files :: Justified(env, log, f)
  }

  lemma ScopeIsPerFile(env: Env, log: seq<Protocol.Event>, files: set<Protocol.Path>)
    ensures Protocol.ScopeAccepts(env.cfg, log, files) <==> AllJustified(env, log, files)
  {
    EditScope.NoViolationsMeansJustified(
      files, env.cfg.kind, Protocol.LatestRanking(log), Protocol.LatestPlanned(log), env.cfg.policy);
  }

  /** Nothing was ranked or planned in between. */
  ghost predicate SameEvidence(log: seq<Protocol.Event>, later: seq<Protocol.Event>) {
    Protocol.LatestRanking(later) == Protocol.LatestRanking(log) && Protocol.LatestPlanned(later) == Protocol.LatestPlanned(log)
  }

  /**
   A patch is stored on the files git lists and applied on the files its headers name. Of a patch
   the gate accepted when it was stored, it accepts the headers exactly when they name a file, keep
   the quality limits, and each file they name beyond git's list meets the scope rules itself.
   */
  lemma HeaderGateIff(
    env: Env, log: seq<Protocol.Event>, later: seq<Protocol.Event>, text: Text, listed: set<Protocol.Path>)
    requires GateAccepts(env, log, text, listed) && SameEvidence(log, later)
    ensures Accepts(env, later, text) <==>
              && env.files(text) != {} && env.withinQuality(text, env.files(text))
              && AllJustified(env, later, env.files(text) - listed)
  {
    ScopeIsPerFile(env, log, listed);
    ScopeIsPerFile(env, later, env.files(text));
  }

  /** The assessment of a stored patch, on the workspace that printed it, fails at the gate or gives what git says. */
  lemma StoredIsAssessedIff(env: Env, log: seq<Protocol.Event>, later: seq<Protocol.Event>, w: Tree)
    requires env.running && CurrentDiff(env, w) == Ok(env.diff(w)) && !PyText.Blank(env.diff(w))
    requires GateAccepts(env, log, env.diff(w), env.changed(w)) && SameEvidence(log, later)
    ensures var text := env.diff(w);
            && (EnsureApplied(env, later, w, text).1.Ok? <==>
                  && env.files(text) != {} && env.withinQuality(text, env.files(text))
                  && AllJustified(env, later, env.files(text) - env.changed(w))
                  && (env.reverse(text, w).Some? || env.forward(text, w).Some?))
            && (!Accepts(env, later, text) ==> EnsureApplied(env, later, w, text) == (w, Err(Protocol.PatchSafetyError)))
  {
    HeaderGateIff(env, log, later, env.diff(w), env.changed(w));
    if Accepts(env, later, env.diff(w)) { ApplyInPlaceIff(env, later, w, env.diff(w)); }
  }

  // ------------------------------------------------------------- applying twice

  /** The workspace holds exactly this text, and git would undo it. */
  predicate Holds(env: Env, w: Tree, text: Text) {
    env.diff(w) == text && env.reverse(text, w).Some?
  }

  /** A call of `ensure_patch_applied` would leave the workspace alone, or end by an exception of its own. */
  predicate LeftAlone(env: Env, w: Tree, text: Text) {
    Holds(env, w, text) || env.forward(text, w).None? || env.forward(text, w) == Some(w) || CurrentDiff(env, w).Err?
  }

  /**
   When a second `ensure_patch_applied` leaves the workspace alone: the workspace already held
   the text or git refused to apply it, so that the first call changed nothing; or the workspace git
   makes of it is one a call leaves alone.
   */
  lemma SecondApplyIsNeutralIff(env: Env, log: seq<Protocol.Event>, w: Tree, text: Text)
    requires EnsureApplied(env, log, w, text).1.Ok? && !PyText.Blank(text)
    ensures var once := EnsureApplied(env, log, w, text).0;
            EnsureApplied(env, log, once, text).0 == once <==>
              || Holds(env, w, text) || env.forward(text, w).None?
              || LeftAlone(env, env.forward(text, w).value, text)
  {
    if !Holds(env, w, text) && env.forward(text, w).Some? {
      var d := env.forward(text, w).value;
      assert EnsureApplied(env, log, w, text) == (d, Ok(AppliedNow));
      assert EnsureApplied(env, log, d, text).0 == d <==> LeftAlone(env, d, text);
    }
  }

  /** On a workspace that already prints the text, the call succeeds exactly when git undoes or applies the text there. */
  lemma ApplyInPlaceIff(env: Env, log: seq<Protocol.Event>, w: Tree, text: Text)
    requires env.running && !PyText.Blank(text) && CurrentDiff(env, w) == Ok(text) && Accepts(env, log, text)
    ensures EnsureApplied(env, log, w, text).1.Ok? <==> env.reverse(text, w).Some? || env.forward(text, w).Some?
    ensures env.reverse(text, w).Some? ==> EnsureApplied(env, log, w, text) == (w, Ok(AlreadyApplied))
  {
  }

  /** An accepted patch that git applies to a clean workspace and undoes there: applying it twice is applying it once. */
  lemma AcceptedPatchAppliesOnce(env: Env, log: seq<Protocol.Event>, w: Tree, text: Text)
    requires env.running && !PyText.Blank(text) && env.readable(text) && Accepts(env, log, text)
    requires CurrentDiff(env, w) == Ok("") && Reapplies(env, text, w)
    requires env.reverse(text, env.forward(text, w).value).Some?
    ensures var (once, first) := EnsureApplied(env, log, w, text);
            && first == Ok(AppliedNow) && env.diff(once) == text
            && EnsureApplied(env, log, once, text) == (once, Ok(AlreadyApplied))
  {
  }

  // ------------------------------------------------------------------ witnesses

  function Run(c: char, n: nat): (text: string)
    ensures |text| == n && forall i | 0 <= i < n :: text[i] == c
  {
    seq(n, _ => c)
  }

  /** A file of so many lines, all of them alike. */
  function Lines(n: nat): Tree {
    map["f" := Run('x', n)]
  }

  function Count(w: Tree): nat {
    if "f" in w then |w["f"]| else 0
  }

  /** What is printed of a workspace with `n` such lines over a base of so many: only the difference shows. */
  function Printed(base: nat, n: nat): Text {
    if n >= base then Run('+', n - base) else Run('-', base - n)
  }

  /** How many lines the workspace had that printed the text. */
  function Meant(base: nat, text: Text): Option<nat> {
    if text == Printed(base, base + |text|) then Some(base + |text|)
    else if |text| <= base && text == Printed(base, base - |text|) then Some(base - |text|)
    else None
  }

  function Least(a: nat, b: nat): nat {
    if a <= b then a else b
  }

  /**
   Where git applies the hunk that makes `to` of `from` alike lines. It changes the end of the file
   after at most three lines of context. With no line before the context the hunk must match the
   whole file; otherwise its lines fit the end of every file that is long enough.
   */
  function Shifted(from: nat, to: nat, lines: nat): Option<nat> {
    if Least(from, to) <= 3 then (if lines == from then Some(to) else None)
    else if lines >= 3 + from - Least(from, to) then Some(lines - from + to)
    else None
  }

  function Placed(lines: Option<nat>): Option<Tree> {
    match lines
    case None => None
    case Some(n) => Some(Lines(n))
  }

  /** Git on a repository with one tracked file whose lines are all alike, with so many of them at the base. */
  function AlikeLines(base: nat, cfg: Protocol.Config): Env {
    Env((w: Tree) => Printed(base, Count(w)),
        (w: Tree) => if Count(w) == base then {} else {"f"},
        (w: Tree) => true,
        (t: Text, w: Tree) => if Meant(base, t).None? then None else Placed(Shifted(base, Meant(base, t).value, Count(w))),
        (t: Text, w: Tree) => if Meant(base, t).None? then None else Placed(Shifted(Meant(base, t).value, base, Count(w))),
        t => true, t => {"f"}, (t, files) => true, true, cfg)
  }

  lemma PrintedIsMeant(base: nat, n: nat)
    ensures Meant(base, Printed(base, n)) == Some(n)
    ensures Printed(base, n) == "" <==> n == base
    ensures PyText.Blank(Printed(base, n)) ==> n == base
  {
    var text := Printed(base, n);
    if n < base {
      assert text[0] == '-' && Run('+', |text|)[0] == '+';
    } else if n > base {
      assert text[0] == '+';
    }
  }

  lemma PrintedOnce(base: nat, m: nat, n: nat)
    ensures Printed(base, m) == Printed(base, n) <==> m == n
  {
    PrintedIsMeant(base, m);
    PrintedIsMeant(base, n);
  }

  /** That repository is regular everywhere: its diffs can be undone where they were printed and redone on a clean workspace. */
  lemma AlikeLinesAreRegular(base: nat, cfg: Protocol.Config, n: nat, recorded: nat)
    ensures var env, text := AlikeLines(base, cfg), Printed(base, recorded);
            && Recorded(env, text) && Undoable(env, Lines(n)) && Regular(env, Lines(n), text)
            && (text != "" ==> Reapplies(env, text, Reset(env, Lines(n))))
  {
    var env, text := AlikeLines(base, cfg), Printed(base, recorded);
    PrintedIsMeant(base, n);
    PrintedIsMeant(base, recorded);
    PrintedIsMeant(base, base);
    assert CurrentDiff(env, Lines(recorded)) == Ok(text);
  }

  /** One call, from the number of lines there. */
  lemma AlikeLinesApply(base: nat, cfg: Protocol.Config, log: seq<Protocol.Event>, n: nat, to: nat)
    requires cfg.guardrailOverride && to != base
    ensures EnsureApplied(AlikeLines(base, cfg), log, Lines(n), Printed(base, to)) ==
              if n == to then (Lines(n), Ok(AlreadyApplied))
              else if Shifted(base, to, n).Some? then (Lines(Shifted(base, to, n).value), Ok(AppliedNow))
              else if Shifted(to, base, n).Some? then (Lines(n), Ok(AlreadyApplied))
              else (Lines(n), Err(Protocol.PatchApplyError))
  {
    PrintedIsMeant(base, to);
    PrintedOnce(base, n, to);
  }

  lemma LinesDiffer(m: nat, n: nat)
    ensures Lines(m) == Lines(n) <==> m == n
  {
    assert Count(Lines(m)) == m && Count(Lines(n)) == n;
  }

  /** The first call moves the end of the file, and the second one finds room to move it again. */
  predicate MovesTwice(base: nat, to: nat, n: nat) {
    && Least(base, to) >= 4 && n != base && n != to
    && n >= 3 + base - Least(base, to) && n - base + to >= 3 + base - Least(base, to)
  }

  /**
   When a second call changes the workspace there: the base and the patched file have at least four
   lines, the workspace has neither their number, and it is long enough for both calls.
   */
  lemma AlikeLinesTwiceIff(base: nat, cfg: Protocol.Config, log: seq<Protocol.Event>, n: nat, to: nat)
    requires cfg.guardrailOverride && to != base
    requires EnsureApplied(AlikeLines(base, cfg), log, Lines(n), Printed(base, to)).1.Ok?
    ensures var env, text := AlikeLines(base, cfg), Printed(base, to);
            var once := EnsureApplied(env, log, Lines(n), text).0;
            EnsureApplied(env, log, once, text).0 != once <==> MovesTwice(base, to, n)
  {
    AlikeLinesApply(base, cfg, log, n, to);
    if n != to && Shifted(base, to, n).Some? {
      var next := Shifted(base, to, n).value;
      AlikeLinesApply(base, cfg, log, next, to);
      if next != to && Shifted(base, to, next).Some? { LinesDiffer(Shifted(base, to, next).value, next); }
    }
  }

  /** Four lines at the base, five in the workspace, and a recorded patch that adds two: every call applies it again. */
  lemma SecondApplyCanApplyAgain(cfg: Protocol.Config, log: seq<Protocol.Event>)
    requires cfg.guardrailOverride
    ensures var env, text := AlikeLines(4, cfg), Printed(4, 6);
            && Recorded(env, text)
            && EnsureApplied(env, log, Lines(5), text) == (Lines(7), Ok(AppliedNow))
            && EnsureApplied(env, log, Lines(7), text) == (Lines(9), Ok(AppliedNow))
  {
    AlikeLinesAreRegular(4, cfg, 5, 6);
    AlikeLinesApply(4, cfg, log, 5, 6);
    AlikeLinesApply(4, cfg, log, 7, 6);
  }
}
