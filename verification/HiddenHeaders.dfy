/**
 A patch whose context hides another file's header: it is stored on the files git lists
 (backend/app/agents/tools/service.py:342-360) and refused at its assessment, on the files its
 headers name (backend/app/patches/service.py:221-228, 347-355).
 */
module HiddenHeaders {
  import opened Wrappers
  import opened DiffText
  import opened PatchPaths
  import opened Protocol
  import EditScope
  import KeptCandidates
  import PatchWorkspace
  import PyText

  /** The files of a patch text: its header paths without their side. */
  function HeaderFiles(split: Splitter, text: string): set<string> {
    match Extract(split, text)
    case None => {}
    case Some(paths) => WithoutSides(paths)
  }

  function WithoutSides(paths: set<string>): set<string> {
    set path | path in paths :: if A <= path || B <= path then path[2..] else path
  }

  /** The files of a printed patch are those of its headers and those its hunks name when read on their own. */
  lemma HeaderFilesOf(split: Splitter, patch: seq<FileDiff>)
    requires Lawful(split) && AllWellPrinted(patch)
    ensures HeaderFiles(split, Render(patch)) ==
              match BodyPaths(ReadBy(split), patch)
              case None => {}
              case Some(further) => WithoutSides(AllHeaderPaths(patch)) + WithoutSides(further)
  {
    ExtractReadsBodies(split, patch);
    var headers, bodies := AllHeaderPaths(patch), BodyPaths(ReadBy(split), patch);
    if bodies.Some? { SidesOffBoth(headers, bodies.value); }
  }

  lemma SidesOffBoth(a: set<string>, b: set<string>)
    ensures WithoutSides(a + b) == WithoutSides(a) + WithoutSides(b)
  {
  }

  /** Where every hunk line is harmless these are the files of the headers alone. */
  lemma HarmlessHeaderFiles(split: Splitter, patch: seq<FileDiff>)
    requires Lawful(split) && AllWellPrinted(patch) && HarmlessBodies(split, AllHeaderPaths(patch), patch)
    ensures HeaderFiles(split, Render(patch)) == WithoutSides(AllHeaderPaths(patch))
  {
    ExactlyHeadersIff(split, patch);
  }

  lemma SidesOff(path: string, other: string)
    ensures WithoutSides({A + path, B + path, A + other, B + other}) == {path, other}
  {
    assert (A + path)[2..] == path == (B + path)[2..] && (A + other)[2..] == other == (B + other)[2..];
    var all := {A + path, B + path, A + other, B + other};
    assert A + path in all && A + other in all;
  }

  lemma HiddenHeaderFiles(split: Splitter, index: string, path: string, other: string)
    requires Lawful(split) && Neutral(index) && Plain(path) && Plain(other) && path != other
    ensures HeaderFiles(split, Render([HidesHeader(index, path, other)])) == {path, other}
  {
    FormFeedAddsPaths(split, index, path, other);
    SidesOff(path, other);
  }

  lemma NotBlank(index: string, path: string, other: string)
    ensures !PyText.Blank(Render([HidesHeader(index, path, other)]))
  {
    var patch := [HidesHeader(index, path, other)];
    FirstLetters();
    assert PatchLines(patch)[0] == GitHeader(path, path);
    assert Render(patch)[0] == GitHeader(path, path)[0] == 'd';
  }

  /**
   A line is added to a ranked file whose only other line hides the header of an unranked one: the
   submission stores the patch, and the assessment judges it invalid, whatever git would do.
   */
  lemma HiddenHeaderIsJudgedInvalid(
    split: Splitter, env: PatchWorkspace.Env, s: RunState, sub: Submission, w: PatchWorkspace.Tree,
    index: string, path: string, other: string)
    requires Lawful(split) && Neutral(index) && Plain(path) && Plain(other) && path != other
    requires env.diff(w) == Render([HidesHeader(index, path, other)]) && env.changed(w) == {path}
    requires env.files(env.diff(w)) == HeaderFiles(split, env.diff(w)) && env.withinQuality(env.diff(w), {path})
    requires env.cfg.policy.requireCandidates && !env.cfg.guardrailOverride
    requires PatchWorkspace.Justified(env, s.log, path)
    requires EditScope.IsSource(env.cfg.kind(other)) && other !in LatestRanking(s.log)
    ensures PatchWorkspace.GateAccepts(env, StartedLog(s), env.diff(w), env.changed(w))
    ensures PatchWorkspace.EnsureApplied(env, StoredLog(env.cfg, s, sub), w, env.diff(w)) == (w, Err(PatchSafetyError))
  {
    var text, started, stored := env.diff(w), StartedLog(s), StoredLog(env.cfg, s, sub);
    KeptCandidates.StoringRanksNothing(env.cfg, s, sub);
    PatchWorkspace.ScopeIsPerFile(env, started, {path});
    HiddenHeaderFiles(split, index, path, other);
    NotBlank(index, path, other);
    assert !PatchWorkspace.Justified(env, stored, other);
    PatchWorkspace.ScopeIsPerFile(env, stored, {path, other});
  }
}
