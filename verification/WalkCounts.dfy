/**
 What the counters of the index walk count (backend/app/repository_indexing/workspace.py): the
 entries visited, in order, each with what was done with it.
 */
module WalkCounts {
  import opened WorkspaceWalk

  /** An entry the walk came to, and what it did with it. */
  datatype Visit = Visit(path: Path, verdict: Verdict)

  function VisitsHere(judge: Judge, prefix: Path, children: seq<Entry>): seq<Visit> {
    seq(|children|, i requires 0 <= i < |children| => Visit(prefix + [children[i].name], judge(prefix, children[i])))
  }

  /** The entries of a directory, then those of its subdirectories. */
  function Visits(judge: Judge, prefix: Path, children: seq<Entry>): seq<Visit>
    decreases children, 1
  {
    VisitsHere(judge, prefix, children) + VisitsBelow(judge, prefix, children)
  }

  function VisitsBelow(judge: Judge, prefix: Path, children: seq<Entry>): seq<Visit>
    decreases children, 0
  {
    if children == [] then []
    else
      (if children[0].Dir? && judge(prefix, children[0]) == Descend
       then Visits(judge, prefix + [children[0].name], children[0].children) else [])
      + VisitsBelow(judge, prefix, children[1..])
  }

  function Number(visits: seq<Visit>, verdict: Verdict): nat {
    if visits == [] then 0 else (if visits[0].verdict == verdict then 1 else 0) + Number(visits[1..], verdict)
  }

  function Yielded(visits: seq<Visit>): seq<Path> {
    if visits == [] then []
    else (if visits[0].verdict == Yield then [visits[0].path] else []) + Yielded(visits[1..])
  }

  /** The tally says what the visits say. */
  ghost predicate Tallies(tally: Tally, visits: seq<Visit>) {
    && tally.files == Yielded(visits)
    && tally.visited == |visits|
    && tally.descended == Number(visits, Descend)
    && tally.isProtected == Number(visits, SkipProtected)
    && tally.ignored == Number(visits, SkipIgnored)
    && tally.unsafe == Number(visits, SkipUnsafe)
  }

  lemma {:induction false} NumberConcat(a: seq<Visit>, b: seq<Visit>, verdict: Verdict)
    ensures Number(a + b, verdict) == Number(a, verdict) + Number(b, verdict)
  {
    if a == [] {
      assert a + b == b;
    } else {
      assert (a + b)[1..] == a[1..] + b;
      NumberConcat(a[1..], b, verdict);
    }
  }

  lemma {:induction false} YieldedConcat(a: seq<Visit>, b: seq<Visit>)
    ensures Yielded(a + b) == Yielded(a) + Yielded(b)
  {
    if a == [] {
      assert a + b == b;
    } else {
      assert (a + b)[1..] == a[1..] + b;
      YieldedConcat(a[1..], b);
    }
  }

  lemma TalliesPlus(s: Tally, t: Tally, a: seq<Visit>, b: seq<Visit>)
    requires Tallies(s, a) && Tallies(t, b)
    ensures Tallies(s.Plus(t), a + b)
  {
    YieldedConcat(a, b);
    NumberConcat(a, b, Descend);
    NumberConcat(a, b, SkipProtected);
    NumberConcat(a, b, SkipIgnored);
    NumberConcat(a, b, SkipUnsafe);
  }

  lemma TalliesOne(path: Path, verdict: Verdict)
    ensures Tallies(One(path, verdict), [Visit(path, verdict)])
  {
    assert [Visit(path, verdict)][1..] == [];
  }

  lemma HereFirst(judge: Judge, prefix: Path, children: seq<Entry>)
    requires children != []
    ensures VisitsHere(judge, prefix, children) ==
            [Visit(prefix + [children[0].name], judge(prefix, children[0]))] + VisitsHere(judge, prefix, children[1..])
  {
  }

  lemma {:induction false} HereTallies(judge: Judge, prefix: Path, children: seq<Entry>)
    ensures Tallies(Here(judge, prefix, children), VisitsHere(judge, prefix, children))
  {
    if children != [] {
      var path, verdict := prefix + [children[0].name], judge(prefix, children[0]);
      TalliesOne(path, verdict);
      HereTallies(judge, prefix, children[1..]);
      TalliesPlus(One(path, verdict), Here(judge, prefix, children[1..]), [Visit(path, verdict)], VisitsHere(judge, prefix, children[1..]));
      HereFirst(judge, prefix, children);
    }
  }

  /** The files a walk returns and its counters are those of its visits. */
  lemma {:induction false} WalkTallies(judge: Judge, prefix: Path, children: seq<Entry>)
    ensures Tallies(Walk(judge, prefix, children), Visits(judge, prefix, children))
    decreases children, 1
  {
    HereTallies(judge, prefix, children);
    BelowTallies(judge, prefix, children);
    TalliesPlus(Here(judge, prefix, children), Below(judge, prefix, children),
                VisitsHere(judge, prefix, children), VisitsBelow(judge, prefix, children));
  }

  lemma {:induction false} BelowTallies(judge: Judge, prefix: Path, children: seq<Entry>)
    ensures Tallies(Below(judge, prefix, children), VisitsBelow(judge, prefix, children))
    decreases children, 0
  {
    if children != [] {
      var child, later := children[0], VisitsBelow(judge, prefix, children[1..]);
      BelowTallies(judge, prefix, children[1..]);
      if child.Dir? && judge(prefix, child) == Descend {
        var path := prefix + [child.name];
        WalkTallies(judge, path, child.children);
        TalliesPlus(Walk(judge, path, child.children), Below(judge, prefix, children[1..]), Visits(judge, path, child.children), later);
      } else {
        assert [] + later == later;
      }
    }
  }

  // ------------------------------------------------------------ what is visited

  /** The walk comes to the entry at this path below a directory: it descends into every directory on the way. */
  ghost predicate Reaches(judge: Judge, prefix: Path, children: seq<Entry>, path: Path, verdict: Verdict)
    decreases |path|, 1
  {
    path != [] && exists i :: 0 <= i < |children| && ReachesBy(judge, prefix, children[i], path, verdict)
  }

  ghost predicate ReachesBy(judge: Judge, prefix: Path, child: Entry, path: Path, verdict: Verdict)
    requires path != []
    decreases |path|, 0
  {
    && child.name == path[0]
    && if |path| == 1 then judge(prefix, child) == verdict
       else child.Dir? && judge(prefix, child) == Descend
            && Reaches(judge, prefix + [child.name], child.children, path[1..], verdict)
  }

  lemma VisitedHere(judge: Judge, prefix: Path, children: seq<Entry>, path: Path, verdict: Verdict)
    requires path != []
    ensures Visit(prefix + path, verdict) in VisitsHere(judge, prefix, children) <==>
              |path| == 1 && exists i :: 0 <= i < |children| && ReachesBy(judge, prefix, children[i], path, verdict)
  {
    var visits, visit := VisitsHere(judge, prefix, children), Visit(prefix + path, verdict);
    if visit in visits {
      var i :| 0 <= i < |children| && visits[i] == visit;
      assert prefix + path == prefix + [children[i].name];
      TailIs(prefix, path, [children[i].name]);
      assert ReachesBy(judge, prefix, children[i], path, verdict);
    }
    if |path| == 1 && exists i :: 0 <= i < |children| && ReachesBy(judge, prefix, children[i], path, verdict) {
      var i :| 0 <= i < |children| && ReachesBy(judge, prefix, children[i], path, verdict);
      assert path == [children[i].name];
      assert visits[i] == visit;
    }
  }

  lemma TailIs(prefix: Path, a: Path, b: Path)
    requires prefix + a == prefix + b
    ensures a == b
  {
    assert (prefix + a)[|prefix|..] == a && (prefix + b)[|prefix|..] == b;
  }

  /** Everything visited below a directory lies below it. */
  lemma {:induction false} VisitedUnder(judge: Judge, prefix: Path, children: seq<Entry>, visit: Visit)
    requires visit in Visits(judge, prefix, children)
    ensures |visit.path| > |prefix| && visit.path[..|prefix|] == prefix
    decreases children, 1
  {
    if visit in VisitsHere(judge, prefix, children) {
      var i :| 0 <= i < |children| && VisitsHere(judge, prefix, children)[i] == visit;
    } else {
      BelowUnder(judge, prefix, children, visit);
    }
  }

  lemma {:induction false} BelowUnder(judge: Judge, prefix: Path, children: seq<Entry>, visit: Visit)
    requires visit in VisitsBelow(judge, prefix, children)
    ensures |visit.path| > |prefix| + 1 && visit.path[..|prefix|] == prefix
    decreases children, 0
  {
    var child := children[0];
    if visit in VisitsBelow(judge, prefix, children[1..]) {
      BelowUnder(judge, prefix, children[1..], visit);
    } else {
      var inner := prefix + [child.name];
      VisitedUnder(judge, inner, child.children, visit);
      assert visit.path[..|prefix|] == visit.path[..|inner|][..|prefix|] == prefix;
    }
  }

  /** The entries visited are exactly those the walk comes to, each with its own verdict. */
  lemma {:induction false} VisitedIff(judge: Judge, prefix: Path, children: seq<Entry>, path: Path, verdict: Verdict)
    requires path != []
    ensures Visit(prefix + path, verdict) in Visits(judge, prefix, children) <==> Reaches(judge, prefix, children, path, verdict)
    decreases children, 1
  {
    VisitedHere(judge, prefix, children, path, verdict);
    VisitedBelow(judge, prefix, children, path, verdict);
  }

  lemma {:induction false} VisitedBelow(judge: Judge, prefix: Path, children: seq<Entry>, path: Path, verdict: Verdict)
    requires path != []
    ensures Visit(prefix + path, verdict) in VisitsBelow(judge, prefix, children) <==>
              |path| > 1 && exists i :: 0 <= i < |children| && ReachesBy(judge, prefix, children[i], path, verdict)
    decreases children, 0
  {
    if children != [] {
      var visit, rest := Visit(prefix + path, verdict), children[1..];
      VisitedBelow(judge, prefix, rest, path, verdict);
      VisitedIn(judge, prefix, children[0], path, verdict);
      if i :| 0 <= i < |children| && ReachesBy(judge, prefix, children[i], path, verdict) {
        if i > 0 { assert ReachesBy(judge, prefix, rest[i - 1], path, verdict); }
      }
      if i :| 0 <= i < |rest| && ReachesBy(judge, prefix, rest[i], path, verdict) {
        assert children[i + 1] == rest[i];
      }
    }
  }

  /** What is visited below one entry. */
  function VisitsIn(judge: Judge, prefix: Path, child: Entry): seq<Visit> {
    if child.Dir? && judge(prefix, child) == Descend then Visits(judge, prefix + [child.name], child.children) else []
  }

  lemma {:induction false} VisitedIn(judge: Judge, prefix: Path, child: Entry, path: Path, verdict: Verdict)
    requires path != []
    ensures Visit(prefix + path, verdict) in VisitsIn(judge, prefix, child) <==>
              |path| > 1 && ReachesBy(judge, prefix, child, path, verdict)
    decreases child, 0
  {
    if child.Dir? && judge(prefix, child) == Descend {
      var inner, visit := prefix + [child.name], Visit(prefix + path, verdict);
      if visit in Visits(judge, inner, child.children) {
        VisitedUnder(judge, inner, child.children, visit);
        assert (prefix + path)[|prefix|] == inner[|prefix|];
      }
      if |path| > 1 && path[0] == child.name {
        assert prefix + path == inner + path[1..];
        VisitedIff(judge, inner, child.children, path[1..], verdict);
      }
    }
  }

  // --------------------------------------------------------------- what verdicts mean

  /** A step no relative path may have, or a drive. */
  ghost predicate Unsafe(path: Path) {
    || (exists i, j :: 0 <= i < |path| && 0 <= j < |path[i]| && (path[i][j] == '\\' || path[i][j] == '\0'))
    || (exists i :: 0 <= i < |path| && path[i] == "..")
    || (path != [] && |path[0]| >= 2 && path[0][1] == ':')
  }

  lemma UnsafeIsRefused(path: Path)
    ensures Unsafe(path) <==> Refused(path)
  {
    forall i | 0 <= i < |path|
      ensures '\\' in path[i] || '\0' in path[i] <==> exists j :: 0 <= j < |path[i]| && (path[i][j] == '\\' || path[i][j] == '\0')
    {
      if '\\' in path[i] { var j :| 0 <= j < |path[i]| && path[i][j] == '\\'; }
      if '\0' in path[i] { var j :| 0 <= j < |path[i]| && path[i][j] == '\0'; }
    }
  }

  /** What each verdict on an entry says of its path and its kind. */
  lemma VerdictMeans(rules: Rules, prefix: Path, entry: Entry)
    ensures var path := prefix + [entry.name];
            var listed := exists i :: 0 <= i < |path| && rules.isProtected(path[i]);
            && (JudgeEntry(rules, prefix, entry) == SkipProtected <==> !Unsafe(path) && listed)
            && (JudgeEntry(rules, prefix, entry) == SkipIgnored <==> !Unsafe(path) && !listed && rules.isIgnored(entry.name))
            && (JudgeEntry(rules, prefix, entry) == SkipUnsafe <==>
                  Unsafe(path) || (!listed && !rules.isIgnored(entry.name) && (entry.Link? || entry.Special?)))
            && (JudgeEntry(rules, prefix, entry) == Descend <==>
                  !Unsafe(path) && !listed && !rules.isIgnored(entry.name) && entry.Dir?)
            && (JudgeEntry(rules, prefix, entry) == Yield <==>
                  !Unsafe(path) && !listed && !rules.isIgnored(entry.name) && entry.File?)
  {
    UnsafeIsRefused(prefix + [entry.name]);
  }

  /** A path is searchable if none of its steps is unsafe, protected or ignored. */
  lemma SearchableMeans(rules: Rules, path: Path)
    ensures Searchable(rules, path) <==>
              path != [] && !Unsafe(path) && forall i | 0 <= i < |path| :: !rules.isProtected(path[i]) && !rules.isIgnored(path[i])
  {
    UnsafeIsRefused(path);
  }
}
