/** The edit-scope part of the patch quality gate (backend/app/patch_quality/service.py). */
module EditScope {

  type Path = string

  /** What the path classifiers say about one changed file. */
  datatype Kind = Kind(test: bool, docs: bool, config: bool, sourceSuffix: bool)

  predicate IsSource(k: Kind) {
    !k.test && !k.docs && !k.config && k.sourceSuffix
  }

  datatype Policy = Policy(
    requireCandidates: bool,
    requirePlan: bool,
    allowTests: bool,
    allowDocs: bool,
    allowConfig: bool)

  /** The deployment defaults (backend/app/core/config.py). */
  const DEFAULT_POLICY := Policy(true, false, true, false, false)

  datatype Violation =
    | UnrankedSources(files: set<Path>)
    | Unplanned(files: set<Path>)
    | TestsDisabled
    | UnjustifiedDocs(files: set<Path>)
    | UnjustifiedConfig(files: set<Path>)
    | UnjustifiedOther(files: set<Path>)

  function When(c: bool, v: Violation): seq<Violation> {
    if c then [v] else []
  }

  function SourcesIn(files: set<Path>, kind: Path -> Kind): set<Path> {
    set f | f in files && IsSource(kind(f))
  }

  function TestsIn(files: set<Path>, kind: Path -> Kind): set<Path> {
    set f | f in files && kind(f).test
  }

  function DocsIn(files: set<Path>, kind: Path -> Kind): set<Path> {
    set f | f in files && kind(f).docs
  }

  function ConfigIn(files: set<Path>, kind: Path -> Kind): set<Path> {
    set f | f in files && kind(f).config
  }

  /** `_edit_scope_violations`, set expression by set expression. */
  function Violations(
    files: set<Path>, kind: Path -> Kind, candidates: set<Path>, planned: set<Path>, policy: Policy
  ): seq<Violation> {
    var sources := SourcesIn(files, kind);
    var tests := TestsIn(files, kind);
    var docs := DocsIn(files, kind);
    var config := ConfigIn(files, kind);
    var justified := candidates + planned;
    var other := files - (sources + tests + docs + config) - justified;
    When(policy.requireCandidates && sources - candidates != {}, UnrankedSources(sources - candidates))
    + When(policy.requirePlan && files - planned != {}, Unplanned(files - planned))
    + When(tests != {} && !policy.allowTests, TestsDisabled)
    + When(docs - justified != {} && !policy.allowDocs, UnjustifiedDocs(docs - justified))
    + When(config - justified != {} && !policy.allowConfig, UnjustifiedConfig(config - justified))
    + When(other != {}, UnjustifiedOther(other))
  }

  /** What the gate asks of a single changed file. */
  ghost predicate Justified(f: Path, k: Kind, candidates: set<Path>, planned: set<Path>, policy: Policy) {
    && (policy.requireCandidates && !k.test && !k.docs && !k.config && k.sourceSuffix ==> f in candidates)
    && (policy.requirePlan ==> f in planned)
    && (k.test ==> policy.allowTests)
    && (k.docs && !policy.allowDocs ==> f in candidates + planned)
    && (k.config && !policy.allowConfig ==> f in candidates + planned)
    && (!k.sourceSuffix && !k.test && !k.docs && !k.config ==> f in candidates + planned)
  }

  /** No violation, spelled out on the file sets. */
  ghost predicate Clean(files: set<Path>, kind: Path -> Kind, candidates: set<Path>, planned: set<Path>, policy: Policy) {
    var sources := SourcesIn(files, kind);
    var tests := TestsIn(files, kind);
    var docs := DocsIn(files, kind);
    var config := ConfigIn(files, kind);
    var justified := candidates + planned;
    && (policy.requireCandidates ==> sources - candidates == {})
    && (policy.requirePlan ==> files - planned == {})
    && (!policy.allowTests ==> tests == {})
    && (!policy.allowDocs ==> docs - justified == {})
    && (!policy.allowConfig ==> config - justified == {})
    && files - (sources + tests + docs + config) - justified == {}
  }

  lemma NoViolationsMeansClean(files: set<Path>, kind: Path -> Kind, candidates: set<Path>, planned: set<Path>, policy: Policy)
    ensures Violations(files, kind, candidates, planned, policy) == [] <==> Clean(files, kind, candidates, planned, policy)
  {
  }

  lemma CleanIsJustified(files: set<Path>, kind: Path -> Kind, candidates: set<Path>, planned: set<Path>, policy: Policy, f: Path)
    requires Clean(files, kind, candidates, planned, policy) && f in files
    ensures Justified(f, kind(f), candidates, planned, policy)
  {
    var sources := SourcesIn(files, kind);
    var tests := TestsIn(files, kind);
    var docs := DocsIn(files, kind);
    var config := ConfigIn(files, kind);
    var justified := candidates + planned;
    assert policy.requireCandidates ==> f !in sources - candidates;
    assert policy.requirePlan ==> f !in files - planned;
    assert !policy.allowTests ==> f !in tests;
    assert !policy.allowDocs ==> f !in docs - justified;
    assert !policy.allowConfig ==> f !in config - justified;
    assert f !in files - (sources + tests + docs + config) - justified;
  }

  lemma JustifiedIsClean(files: set<Path>, kind: Path -> Kind, candidates: set<Path>, planned: set<Path>, policy: Policy)
    requires forall f | f in files :: Justified(f, kind(f), candidates, planned, policy)
    ensures Clean(files, kind, candidates, planned, policy)
  {
  }

  /** The gate on the whole file set is the conjunction of the per-file rules, nothing more. */
  lemma NoViolationsMeansJustified(
    files: set<Path>, kind: Path -> Kind, candidates: set<Path>, planned: set<Path>, policy: Policy)
    ensures Violations(files, kind, candidates, planned, policy) == [] <==>
            forall f | f in files :: Justified(f, kind(f), candidates, planned, policy)
  {
    NoViolationsMeansClean(files, kind, candidates, planned, policy);
    if Clean(files, kind, candidates, planned, policy) {
      forall f | f in files ensures Justified(f, kind(f), candidates, planned, policy) {
        CleanIsJustified(files, kind, candidates, planned, policy, f);
      }
    }
    if forall f | f in files :: Justified(f, kind(f), candidates, planned, policy) {
      JustifiedIsClean(files, kind, candidates, planned, policy);
    }
  }

  /** The file is one of those the violation is about. */
  predicate Names(v: Violation, f: Path, k: Kind) {
    match v
    case TestsDisabled => k.test
    case _ => f in v.files
  }

  /** A violation of this rule by this file. */
  ghost predicate Breaks(v: Violation, f: Path, k: Kind, candidates: set<Path>, planned: set<Path>, policy: Policy) {
    var unknown := f !in candidates && f !in planned;
    match v
    case UnrankedSources(_) =>
      policy.requireCandidates && !k.test && !k.docs && !k.config && k.sourceSuffix && f !in candidates
    case Unplanned(_) => policy.requirePlan && f !in planned
    case TestsDisabled => k.test && !policy.allowTests
    case UnjustifiedDocs(_) => k.docs && !policy.allowDocs && unknown
    case UnjustifiedConfig(_) => k.config && !policy.allowConfig && unknown
    case UnjustifiedOther(_) => !k.sourceSuffix && !k.test && !k.docs && !k.config && unknown
  }

  /** A violation in the list, by its set expression. */
  ghost predicate Reported(
    v: Violation, files: set<Path>, kind: Path -> Kind, candidates: set<Path>, planned: set<Path>, policy: Policy)
  {
    var sources := SourcesIn(files, kind);
    var tests := TestsIn(files, kind);
    var docs := DocsIn(files, kind);
    var config := ConfigIn(files, kind);
    var justified := candidates + planned;
    match v
    case UnrankedSources(fs) => policy.requireCandidates && fs == sources - candidates != {}
    case Unplanned(fs) => policy.requirePlan && fs == files - planned != {}
    case TestsDisabled => !policy.allowTests && tests != {}
    case UnjustifiedDocs(fs) => !policy.allowDocs && fs == docs - justified != {}
    case UnjustifiedConfig(fs) => !policy.allowConfig && fs == config - justified != {}
    case UnjustifiedOther(fs) => fs == files - (sources + tests + docs + config) - justified != {}
  }

  lemma InOne(a: seq<Violation>, b: seq<Violation>, c: seq<Violation>, d: seq<Violation>, e: seq<Violation>, f: seq<Violation>, v: Violation)
    requires v in a + b + c + d + e + f
    ensures v in a || v in b || v in c || v in d || v in e || v in f
  {
  }

  lemma ViolationsAreReported(
    files: set<Path>, kind: Path -> Kind, candidates: set<Path>, planned: set<Path>, policy: Policy, v: Violation)
    requires v in Violations(files, kind, candidates, planned, policy)
    ensures Reported(v, files, kind, candidates, planned, policy)
  {
    var sources := SourcesIn(files, kind);
    var tests := TestsIn(files, kind);
    var docs := DocsIn(files, kind);
    var config := ConfigIn(files, kind);
    var justified := candidates + planned;
    var other := files - (sources + tests + docs + config) - justified;
    InOne(When(policy.requireCandidates && sources - candidates != {}, UnrankedSources(sources - candidates)),
          When(policy.requirePlan && files - planned != {}, Unplanned(files - planned)),
          When(tests != {} && !policy.allowTests, TestsDisabled),
          When(docs - justified != {} && !policy.allowDocs, UnjustifiedDocs(docs - justified)),
          When(config - justified != {} && !policy.allowConfig, UnjustifiedConfig(config - justified)),
          When(other != {}, UnjustifiedOther(other)), v);
  }

  lemma ReportedNames(
    files: set<Path>, kind: Path -> Kind, candidates: set<Path>, planned: set<Path>, policy: Policy, v: Violation, f: Path)
    requires Reported(v, files, kind, candidates, planned, policy) && f in files
    ensures Names(v, f, kind(f)) <==> Breaks(v, f, kind(f), candidates, planned, policy)
  {
  }

  /** Each violation is about some file, and about exactly the changed files that break its rule. */
  lemma ViolationsName(
    files: set<Path>, kind: Path -> Kind, candidates: set<Path>, planned: set<Path>, policy: Policy, v: Violation)
    requires v in Violations(files, kind, candidates, planned, policy)
    ensures exists f :: f in files && Names(v, f, kind(f))
    ensures forall f | f in files :: Names(v, f, kind(f)) <==> Breaks(v, f, kind(f), candidates, planned, policy)
  {
    ViolationsAreReported(files, kind, candidates, planned, policy, v);
    forall f | f in files ensures Names(v, f, kind(f)) <==> Breaks(v, f, kind(f), candidates, planned, policy) {
      ReportedNames(files, kind, candidates, planned, policy, v, f);
    }
    SomeFileIsNamed(files, kind, candidates, planned, policy, v);
  }

  lemma SomeFileIsNamed(
    files: set<Path>, kind: Path -> Kind, candidates: set<Path>, planned: set<Path>, policy: Policy, v: Violation)
    requires Reported(v, files, kind, candidates, planned, policy)
    ensures exists f :: f in files && Names(v, f, kind(f))
  {
    var named := if v.TestsDisabled? then TestsIn(files, kind) else v.files;
    var f :| f in named;
    assert f in files && Names(v, f, kind(f));
  }
}
