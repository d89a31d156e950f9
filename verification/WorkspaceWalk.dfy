/**
 The repository walk of the index (backend/app/repository_indexing/workspace.py): which entries
 `IndexWorkspace.files` yields, skips and descends into.
 */
module WorkspaceWalk {

  type Path = seq<string>

  /** A directory entry; the children of a directory are in whatever order the scan lists them. */
  datatype Entry = Dir(name: string, children: seq<Entry>) | File(name: string) | Link(name: string) | Special(name: string)

  /** The two name lists; any rules will do for what is proved here. */
  datatype Rules = Rules(isProtected: string -> bool, isIgnored: string -> bool)

  /** `_relative_path` refuses the path: a backslash or NUL, a drive, or a parent step. */
  predicate Refused(path: Path) {
    || (exists i | 0 <= i < |path| :: '\\' in path[i] || '\0' in path[i] || path[i] == "..")
    || (|path| > 0 && |path[0]| > 1 && path[0][1] == ':')
  }

  predicate ProtectedPath(rules: Rules, path: Path) {
    exists i | 0 <= i < |path| :: rules.isProtected(path[i])
  }

  /** `searchable_path`. */
  predicate Searchable(rules: Rules, path: Path) {
    && !Refused(path) && path != []
    && !ProtectedPath(rules, path)
    && !exists i | 0 <= i < |path| :: rules.isIgnored(path[i])
  }

  datatype Verdict = Descend | Yield | SkipProtected | SkipIgnored | SkipUnsafe

  /** What the body of the entry loop does with an entry of the directory at `prefix`. */
  function JudgeEntry(rules: Rules, prefix: Path, entry: Entry): Verdict {
    var path := prefix + [entry.name];
    if Refused(path) then SkipUnsafe
    else if ProtectedPath(rules, path) then SkipProtected
    else if rules.isIgnored(entry.name) then SkipIgnored
    else match entry
      case Link(_) => SkipUnsafe
      case Dir(_, _) => Descend
      case File(_) => Yield
      case Special(_) => SkipUnsafe
  }

  /** What a walk has done: the files it yielded, and its counters. */
  datatype Tally = Tally(files: seq<Path>, visited: nat, descended: nat, isProtected: nat, ignored: nat, unsafe: nat) {
    function Plus(other: Tally): Tally {
      Tally(files + other.files, visited + other.visited, descended + other.descended,
            isProtected + other.isProtected, ignored + other.ignored, unsafe + other.unsafe)
    }
  }

  const NOTHING := Tally([], 0, 0, 0, 0, 0)

  function One(path: Path, verdict: Verdict): Tally {
    match verdict
    case Descend => Tally([], 1, 1, 0, 0, 0)
    case Yield => Tally([path], 1, 0, 0, 0, 0)
    case SkipProtected => Tally([], 1, 0, 1, 0, 0)
    case SkipIgnored => Tally([], 1, 0, 0, 1, 0)
    case SkipUnsafe => Tally([], 1, 0, 0, 0, 1)
  }

  type Judge = (Path, Entry) -> Verdict

  /** The entries of one directory. */
  function Here(judge: Judge, prefix: Path, children: seq<Entry>): Tally {
    if children == [] then NOTHING
    else One(prefix + [children[0].name], judge(prefix, children[0])).Plus(Here(judge, prefix, children[1..]))
  }

  /** The recursive preorder: the files of a directory, then its subdirectories, each in the order listed. */
  function Walk(judge: Judge, prefix: Path, children: seq<Entry>): Tally
    decreases children, 1
  {
    Here(judge, prefix, children).Plus(Below(judge, prefix, children))
  }

  function Below(judge: Judge, prefix: Path, children: seq<Entry>): Tally
    decreases children, 0
  {
    if children == [] then NOTHING
    else
      var rest := Below(judge, prefix, children[1..]);
      var child := children[0];
      if child.Dir? && judge(prefix, child) == Descend
      then Walk(judge, prefix + [child.name], child.children).Plus(rest)
      else rest
  }

  // Name order

  /** `a <= b` for strings in Python: by code point, a prefix first. */
  predicate Before(a: string, b: string) {
    a == "" || (b != "" && (a[0] < b[0] || (a[0] == b[0] && Before(a[1..], b[1..]))))
  }

  function Insert(entry: Entry, entries: seq<Entry>): seq<Entry> {
    if entries == [] || Before(entry.name, entries[0].name) then [entry] + entries
    else [entries[0]] + Insert(entry, entries[1..])
  }

  /** `sorted` by name; it keeps the order of equal names. */
  function Sorted(entries: seq<Entry>): seq<Entry> {
    if entries == [] then [] else Insert(entries[0], Sorted(entries[1..]))
  }

  /** The entry with every directory below it in name order. */
  function Deep(entry: Entry): Entry
    decreases entry, 0
  {
    match entry
    case Dir(name, children) => Dir(name, SortedTree(children))
    case _ => entry
  }

  function DeepAll(entries: seq<Entry>): seq<Entry>
    decreases entries, 1
  {
    if entries == [] then [] else [Deep(entries[0])] + DeepAll(entries[1..])
  }

  /** The tree in name order at every level: the order the walk follows, whatever the scans return. */
  function SortedTree(entries: seq<Entry>): seq<Entry>
    decreases entries, 2
  {
    Sorted(DeepAll(entries))
  }

  lemma {:induction false} InsertDeep(entry: Entry, entries: seq<Entry>)
    ensures DeepAll(Insert(entry, entries)) == Insert(Deep(entry), DeepAll(entries))
    decreases |entries|
  {
    if entries == [] || Before(entry.name, entries[0].name) {
      assert ([entry] + entries)[1..] == entries;
    } else {
      InsertDeep(entry, entries[1..]);
      assert ([entries[0]] + Insert(entry, entries[1..]))[1..] == Insert(entry, entries[1..]);
      assert DeepAll(entries)[1..] == DeepAll(entries[1..]);
    }
  }

  /** Sorting a directory and sorting below its entries can be done in either order. */
  lemma {:induction false} SortedDeep(entries: seq<Entry>)
    ensures DeepAll(Sorted(entries)) == SortedTree(entries)
    decreases |entries|
  {
    if entries != [] {
      SortedDeep(entries[1..]);
      InsertDeep(entries[0], Sorted(entries[1..]));
      assert DeepAll(entries)[1..] == DeepAll(entries[1..]);
    }
  }

  /** A directory waiting on the stack. */
  datatype Job = Job(path: Path, children: seq<Entry>)

  function Jobs(judge: Judge, prefix: Path, children: seq<Entry>): seq<Job> {
    if children == [] then []
    else JobFor(judge, prefix, children[0]) + Jobs(judge, prefix, children[1..])
  }

  function JobFor(judge: Judge, prefix: Path, entry: Entry): seq<Job> {
    if entry.Dir? && judge(prefix, entry) == Descend then [Job(prefix + [entry.name], entry.children)] else []
  }

  function Reversed(jobs: seq<Job>): seq<Job> {
    if jobs == [] then [] else Reversed(jobs[1..]) + [jobs[0]]
  }

  /** What is left to do for a stack, its top at the end. */
  function Left(judge: Judge, pending: seq<Job>): Tally {
    if pending == [] then NOTHING
    else
      var top := pending[|pending| - 1];
      Walk(judge, top.path, top.children).Plus(Left(judge, pending[..|pending| - 1]))
  }

  lemma PlusAssociates(a: Tally, b: Tally, c: Tally)
    ensures a.Plus(b).Plus(c) == a.Plus(b.Plus(c))
  {
    assert a.files + b.files + c.files == a.files + (b.files + c.files);
  }

  lemma PlusNothing(a: Tally)
    ensures a.Plus(NOTHING) == a == NOTHING.Plus(a)
  {
    assert a.files + [] == a.files == [] + a.files;
  }

  /** The jobs of a directory, pushed in reverse, are what lies below it. */
  lemma {:induction false} PushedJobs(judge: Judge, pending: seq<Job>, prefix: Path, children: seq<Entry>)
    ensures Left(judge, pending + Reversed(Jobs(judge, prefix, children)))
         == Below(judge, prefix, children).Plus(Left(judge, pending))
  {
    if children == [] {
      assert pending + [] == pending;
      PlusNothing(Left(judge, pending));
    } else {
      PushedJobs(judge, pending, prefix, children[1..]);
      var rest := Jobs(judge, prefix, children[1..]);
      if children[0].Dir? && judge(prefix, children[0]) == Descend {
        var first := Job(prefix + [children[0].name], children[0].children);
        PushOne(judge, pending, first, rest);
        PlusAssociates(Walk(judge, first.path, first.children), Below(judge, prefix, children[1..]), Left(judge, pending));
      } else {
        assert [] + rest == rest;
      }
    }
  }

  lemma PushOne(judge: Judge, pending: seq<Job>, first: Job, rest: seq<Job>)
    ensures Left(judge, pending + Reversed([first] + rest))
         == Walk(judge, first.path, first.children).Plus(Left(judge, pending + Reversed(rest)))
  {
    assert ([first] + rest)[1..] == rest;
    var stack := pending + Reversed([first] + rest);
    assert stack == pending + Reversed(rest) + [first];
    assert stack[..|stack| - 1] == pending + Reversed(rest);
  }

  lemma {:induction false} HereVisitsAll(judge: Judge, prefix: Path, children: seq<Entry>)
    ensures Here(judge, prefix, children).visited == |children|
  {
    if children != [] { HereVisitsAll(judge, prefix, children[1..]); }
  }

  lemma {:induction false} FewJobs(judge: Judge, prefix: Path, children: seq<Entry>)
    ensures |Jobs(judge, prefix, children)| <= |children|
  {
    if children != [] { FewJobs(judge, prefix, children[1..]); }
  }

  /** What handling the first `i` entries of a directory leaves to do. */
  ghost predicate Handling(judge: Judge, prefix: Path, children: seq<Entry>, i: nat, tally: Tally, directories: seq<Job>)
    requires i <= |children|
  {
    && tally.Plus(Here(judge, prefix, children[i..])) == Here(judge, prefix, children)
    && directories + Jobs(judge, prefix, children[i..]) == Jobs(judge, prefix, children)
  }

  lemma HandlingStep(judge: Judge, prefix: Path, children: seq<Entry>, i: nat, tally: Tally, directories: seq<Job>)
    requires i < |children| && Handling(judge, prefix, children, i, tally, directories)
    ensures Handling(judge, prefix, children, i + 1, tally.Plus(One(prefix + [children[i].name], judge(prefix, children[i]))),
                     directories + JobFor(judge, prefix, children[i]))
  {
    var rest := children[i + 1..];
    PlusAssociates(tally, One(prefix + [children[i].name], judge(prefix, children[i])), Here(judge, prefix, rest));
    JobsAssociate(directories, JobFor(judge, prefix, children[i]), Jobs(judge, prefix, rest));
  }

  lemma JobsAssociate(a: seq<Job>, b: seq<Job>, c: seq<Job>)
    ensures a + b + c == a + (b + c)
  {
  }

  lemma HandlingEnds(judge: Judge, prefix: Path, children: seq<Entry>, tally: Tally, directories: seq<Job>)
    requires Handling(judge, prefix, children, |children|, tally, directories)
    ensures tally == Here(judge, prefix, children) && directories == Jobs(judge, prefix, children)
  {
    PlusNothing(tally);
  }

  /** The body of the loop over the entries of a directory. */
  method HandleEntry(judge: Judge, prefix: Path, entry: Entry, tally: Tally, directories: seq<Job>)
    returns (nextTally: Tally, nextDirectories: seq<Job>)
    ensures nextTally == tally.Plus(One(prefix + [entry.name], judge(prefix, entry)))
    ensures nextDirectories == directories + JobFor(judge, prefix, entry)
  {
    var verdict := judge(prefix, entry);
    nextTally, nextDirectories := tally.Plus(One(prefix + [entry.name], verdict)), directories;
    if entry.Dir? && verdict == Descend {
      nextDirectories := nextDirectories + [Job(prefix + [entry.name], entry.children)];
    }
  }

  /** The loop over the entries of one directory: what it yields and skips, and the directories it will descend into. */
  method HandleEntries(judge: Judge, prefix: Path, children: seq<Entry>) returns (tally: Tally, directories: seq<Job>)
    ensures tally == Here(judge, prefix, children)
    ensures directories == Jobs(judge, prefix, children)
  {
    tally, directories := NOTHING, [];
    for i := 0 to |children|
      invariant Handling(judge, prefix, children, i, tally, directories)
    {
      HandlingStep(judge, prefix, children, i, tally, directories);
      tally, directories := HandleEntry(judge, prefix, children[i], tally, directories);
    }
    HandlingEnds(judge, prefix, children, tally, directories);
  }

  // The stack holds directories as they were scanned; the tree it stands for is the sorted one.

  function InOrder(jobs: seq<Job>): seq<Job> {
    seq(|jobs|, i requires 0 <= i < |jobs| => Job(jobs[i].path, SortedTree(jobs[i].children)))
  }

  /** What lies below an entry does not change what is done with it. */
  lemma DeepJudged(rules: Rules, prefix: Path, entry: Entry)
    ensures Deep(entry).name == entry.name && JudgeBy(rules)(prefix, Deep(entry)) == JudgeBy(rules)(prefix, entry)
    ensures JobFor(JudgeBy(rules), prefix, Deep(entry)) == InOrder(JobFor(JudgeBy(rules), prefix, entry))
  {
  }

  lemma {:induction false} HereDeep(rules: Rules, prefix: Path, entries: seq<Entry>)
    ensures Here(JudgeBy(rules), prefix, DeepAll(entries)) == Here(JudgeBy(rules), prefix, entries)
    decreases |entries|
  {
    if entries != [] {
      HereDeep(rules, prefix, entries[1..]);
      DeepJudged(rules, prefix, entries[0]);
      DeepTail(entries);
    }
  }

  lemma {:induction false} JobsDeep(rules: Rules, prefix: Path, entries: seq<Entry>)
    ensures Jobs(JudgeBy(rules), prefix, DeepAll(entries)) == InOrder(Jobs(JudgeBy(rules), prefix, entries))
    decreases |entries|
  {
    if entries != [] {
      JobsDeep(rules, prefix, entries[1..]);
      DeepJudged(rules, prefix, entries[0]);
      DeepTail(entries);
      InOrderConcat(JobFor(JudgeBy(rules), prefix, entries[0]), Jobs(JudgeBy(rules), prefix, entries[1..]));
    }
  }

  lemma DeepTail(entries: seq<Entry>)
    requires entries != []
    ensures DeepAll(entries) != [] && DeepAll(entries)[0] == Deep(entries[0]) && DeepAll(entries)[1..] == DeepAll(entries[1..])
  {
  }

  lemma InOrderConcat(a: seq<Job>, b: seq<Job>)
    ensures InOrder(a + b) == InOrder(a) + InOrder(b)
  {
  }

  lemma {:induction false} InOrderReversed(jobs: seq<Job>)
    ensures InOrder(Reversed(jobs)) == Reversed(InOrder(jobs))
  {
    if jobs != [] {
      InOrderReversed(jobs[1..]);
      InOrderConcat(Reversed(jobs[1..]), [jobs[0]]);
      assert InOrder(jobs)[1..] == InOrder(jobs[1..]);
    }
  }

  /** Handling the sorted entries of a scan is handling those of the sorted tree. */
  lemma SortedEntries(rules: Rules, prefix: Path, entries: seq<Entry>)
    ensures Here(JudgeBy(rules), prefix, Sorted(entries)) == Here(JudgeBy(rules), prefix, SortedTree(entries))
    ensures InOrder(Reversed(Jobs(JudgeBy(rules), prefix, Sorted(entries)))) == Reversed(Jobs(JudgeBy(rules), prefix, SortedTree(entries)))
  {
    SortedDeep(entries);
    HereDeep(rules, prefix, Sorted(entries));
    JobsDeep(rules, prefix, Sorted(entries));
    InOrderReversed(Jobs(JudgeBy(rules), prefix, Sorted(entries)));
  }

  lemma {:induction false} InsertLength(entry: Entry, entries: seq<Entry>)
    ensures |Insert(entry, entries)| == |entries| + 1
  {
    if entries != [] && !Before(entry.name, entries[0].name) { InsertLength(entry, entries[1..]); }
  }

  lemma {:induction false} SortedLength(entries: seq<Entry>)
    ensures |SortedTree(entries)| == |entries|
    decreases |entries|
  {
    if entries != [] {
      SortedLength(entries[1..]);
      assert DeepAll(entries)[1..] == DeepAll(entries[1..]);
      InsertLength(Deep(entries[0]), SortedTree(entries[1..]));
    }
  }

  /** The top of the stack, and the stack after one turn, as the sorted tree sees them. */
  lemma TurnInOrder(rules: Rules, pending: seq<Job>, next: seq<Job>)
    requires pending != []
    requires var top := pending[|pending| - 1];
             next == pending[..|pending| - 1] + Reversed(Jobs(JudgeBy(rules), top.path, Sorted(top.children)))
    ensures var top := pending[|pending| - 1];
            InOrder(pending)[|pending| - 1] == Job(top.path, SortedTree(top.children))
            && InOrder(next) == InOrder(pending)[..|pending| - 1] + Reversed(Jobs(JudgeBy(rules), top.path, SortedTree(top.children)))
  {
    var top := pending[|pending| - 1];
    SortedEntries(rules, top.path, top.children);
    InOrderConcat(pending[..|pending| - 1], Reversed(Jobs(JudgeBy(rules), top.path, Sorted(top.children))));
    assert InOrder(pending[..|pending| - 1]) == InOrder(pending)[..|pending| - 1];
  }

  /** The work a stack stands for; each turn of the walk's loop does some of it. */
  function Work(judge: Judge, pending: seq<Job>): nat {
    Left(judge, pending).visited + |pending|
  }

  lemma {:induction false} ReversedLength(jobs: seq<Job>)
    ensures |Reversed(jobs)| == |jobs|
  {
    if jobs != [] { ReversedLength(jobs[1..]); }
  }

  /** One turn of the walk's loop: nothing is lost, and there is less work left. */
  lemma TurnKeeps(judge: Judge, done: Tally, pending: seq<Job>, next: seq<Job>)
    requires pending != []
    requires var top := pending[|pending| - 1];
             next == pending[..|pending| - 1] + Reversed(Jobs(judge, top.path, top.children))
    ensures var top := pending[|pending| - 1];
            done.Plus(Here(judge, top.path, top.children)).Plus(Left(judge, next)) == done.Plus(Left(judge, pending))
    ensures Work(judge, next) < Work(judge, pending)
  {
    var top, rest := pending[|pending| - 1], pending[..|pending| - 1];
    var here, below := Here(judge, top.path, top.children), Below(judge, top.path, top.children);
    PushedJobs(judge, rest, top.path, top.children);
    PlusAssociates(here, below, Left(judge, rest));
    PlusAssociates(done, here, below.Plus(Left(judge, rest)));
    HereVisitsAll(judge, top.path, top.children);
    FewJobs(judge, top.path, top.children);
    ReversedLength(Jobs(judge, top.path, top.children));
  }

  /** The scan of a directory: every entry counts against the limit before any of them is handled. */
  method Scan(visited: nat, children: seq<Entry>, maxEntries: nat) returns (count: nat, limited: bool)
    requires visited <= maxEntries
    ensures limited <==> visited + |children| > maxEntries
    ensures !limited ==> count == visited + |children|
  {
    count := visited;
    for seen := 0 to |children|
      invariant count == visited + seen <= maxEntries
    {
      count := count + 1;
      if count > maxEntries {
        return count, true;
      }
    }
    return count, false;
  }

  /** What the walk's loop keeps: what was done and what is left make up the whole walk. */
  ghost predicate Walking(judge: Judge, root: seq<Entry>, done: Tally, pending: seq<Job>) {
    done.Plus(Left(judge, pending)) == Walk(judge, [], root)
  }

  /** A directory whose entries do not fit the limit: the whole walk does not either. */
  lemma TooMany(judge: Judge, root: seq<Entry>, done: Tally, pending: seq<Job>)
    requires Walking(judge, root, done, pending) && pending != []
    ensures done.files <= Walk(judge, [], root).files
    ensures done.visited + |pending[|pending| - 1].children| <= Walk(judge, [], root).visited
  {
    var top := pending[|pending| - 1];
    HereVisitsAll(judge, top.path, top.children);
  }

  /**
   `IndexWorkspace.files`: the explicit stack walks the recursive preorder of the tree in name
   order. The walk ends with the limit error exactly when the tree has more entries to visit than
   allowed, and what it yielded before that is an initial part of the full walk.
   */
  method Files(rules: Rules, root: seq<Entry>, maxEntries: nat) returns (tally: Tally, limited: bool)
    ensures limited <==> Walk(JudgeBy(rules), [], SortedTree(root)).visited > maxEntries
    ensures !limited ==> tally == Walk(JudgeBy(rules), [], SortedTree(root))
    ensures limited ==> tally.files <= Walk(JudgeBy(rules), [], SortedTree(root)).files
  {
    var pending := [Job([], root)];
    tally := NOTHING;
    var visited := 0;
    ScanStarts(rules, root);
    while pending != []
      invariant Scanning(rules, root, tally, pending)
      invariant visited == tally.visited <= maxEntries
      decreases ToScan(rules, pending)
    {
      var top := pending[|pending| - 1];
      ScanTooMany(rules, root, tally, pending);
      visited, limited := Scan(visited, top.children, maxEntries);
      if limited {
        return;
      }
      var here, directories := HandleEntries(JudgeBy(rules), top.path, Sorted(top.children));
      var next := pending[..|pending| - 1] + Reversed(directories);
      TurnDone(rules, root, tally, pending, next);
      tally, pending := tally.Plus(here), next;
    }
    ScanEnds(rules, root, tally);
    return tally, false;
  }

  /** The walk's loop, seen on the sorted tree. */
  ghost predicate Scanning(rules: Rules, root: seq<Entry>, done: Tally, pending: seq<Job>) {
    Walking(JudgeBy(rules), SortedTree(root), done, InOrder(pending))
  }

  ghost function ToScan(rules: Rules, pending: seq<Job>): nat {
    Work(JudgeBy(rules), InOrder(pending))
  }

  lemma ScanStarts(rules: Rules, root: seq<Entry>)
    ensures Scanning(rules, root, NOTHING, [Job([], root)])
  {
    StartOfWalk(JudgeBy(rules), SortedTree(root));
    assert InOrder([Job([], root)]) == [Job([], SortedTree(root))];
  }

  lemma ScanEnds(rules: Rules, root: seq<Entry>, done: Tally)
    requires Scanning(rules, root, done, [])
    ensures done == Walk(JudgeBy(rules), [], SortedTree(root))
  {
    PlusNothing(done);
  }

  lemma TopInOrder(pending: seq<Job>)
    requires pending != []
    ensures InOrder(pending) != []
    ensures InOrder(pending)[|InOrder(pending)| - 1].children == SortedTree(pending[|pending| - 1].children)
  {
  }

  /** A scanned directory whose entries do not fit the limit. */
  lemma ScanTooMany(rules: Rules, root: seq<Entry>, done: Tally, pending: seq<Job>)
    requires pending != [] && Scanning(rules, root, done, pending)
    ensures done.files <= Walk(JudgeBy(rules), [], SortedTree(root)).files
    ensures done.visited + |pending[|pending| - 1].children| <= Walk(JudgeBy(rules), [], SortedTree(root)).visited
  {
    var top := pending[|pending| - 1];
    TooMany(JudgeBy(rules), SortedTree(root), done, InOrder(pending));
    TopInOrder(pending);
    SortedLength(top.children);
  }

  /** One turn on a directory as it was scanned. */
  lemma TurnDone(rules: Rules, root: seq<Entry>, done: Tally, pending: seq<Job>, next: seq<Job>)
    requires pending != [] && Scanning(rules, root, done, pending)
    requires var top := pending[|pending| - 1];
             next == pending[..|pending| - 1] + Reversed(Jobs(JudgeBy(rules), top.path, Sorted(top.children)))
    ensures var top := pending[|pending| - 1];
            var here := Here(JudgeBy(rules), top.path, Sorted(top.children));
            Scanning(rules, root, done.Plus(here), next) && here.visited == |top.children|
    ensures ToScan(rules, next) < ToScan(rules, pending)
  {
    var top := pending[|pending| - 1];
    SortedEntries(rules, top.path, top.children);
    SortedLength(top.children);
    HereVisitsAll(JudgeBy(rules), top.path, SortedTree(top.children));
    TurnInOrder(rules, pending, next);
    TurnKeeps(JudgeBy(rules), done, InOrder(pending), InOrder(next));
  }

  lemma StartOfWalk(judge: Judge, root: seq<Entry>)
    ensures Walking(judge, root, NOTHING, [Job([], root)])
  {
    var stack := [Job([], root)];
    assert stack[..0] == [];
    PlusNothing(Walk(judge, [], root));
    PlusNothing(Left(judge, stack));
  }

  // Conservation

  predicate Balanced(tally: Tally) {
    tally.visited == |tally.files| + tally.descended + tally.isProtected + tally.ignored + tally.unsafe
  }

  lemma {:induction false} HereBalances(judge: Judge, prefix: Path, children: seq<Entry>)
    ensures Balanced(Here(judge, prefix, children))
  {
    if children != [] { HereBalances(judge, prefix, children[1..]); }
  }

  /** Every entry visited was yielded, descended into or skipped. */
  lemma {:induction false} WalkBalances(judge: Judge, prefix: Path, children: seq<Entry>)
    ensures Balanced(Walk(judge, prefix, children))
    decreases children, 1
  {
    HereBalances(judge, prefix, children);
    BelowBalances(judge, prefix, children);
  }

  lemma {:induction false} BelowBalances(judge: Judge, prefix: Path, children: seq<Entry>)
    ensures Balanced(Below(judge, prefix, children))
    decreases children, 0
  {
    if children != [] {
      BelowBalances(judge, prefix, children[1..]);
      if children[0].Dir? && judge(prefix, children[0]) == Descend {
        WalkBalances(judge, prefix + [children[0].name], children[0].children);
      }
    }
  }

  // Which files are found

  datatype Kind = Directory | Regular | Symlink | Other

  function KindOf(entry: Entry): Kind {
    match entry
    case Dir(_, _) => Directory
    case File(_) => Regular
    case Link(_) => Symlink
    case Special(_) => Other
  }

  /** There is an entry of this kind at the path, reached through real directories only. */
  ghost predicate IsAt(children: seq<Entry>, path: Path, kind: Kind)
    decreases |path|, 1
  {
    path != [] && exists i | 0 <= i < |children| :: IsUnder(children[i], path, kind)
  }

  ghost predicate IsUnder(child: Entry, path: Path, kind: Kind)
    requires path != []
    decreases |path|, 0
  {
    child.name == path[0] && if |path| == 1 then KindOf(child) == kind else child.Dir? && IsAt(child.children, path[1..], kind)
  }

  ghost predicate IsFileAt(children: seq<Entry>, path: Path) {
    IsAt(children, path, Regular)
  }

  /** The prefix of a directory the walk has entered. */
  predicate Entered(rules: Rules, prefix: Path) {
    prefix == [] || Searchable(rules, prefix)
  }

  function JudgeBy(rules: Rules): Judge {
    (prefix, entry) => JudgeEntry(rules, prefix, entry)
  }

  /** What the loop checks of an entry is what `searchable_path` checks of its whole path. */
  lemma JudgedAsSearchable(rules: Rules, prefix: Path, entry: Entry)
    requires Entered(rules, prefix)
    ensures JudgeEntry(rules, prefix, entry) == Yield <==> entry.File? && Searchable(rules, prefix + [entry.name])
    ensures JudgeEntry(rules, prefix, entry) == Descend <==> entry.Dir? && Searchable(rules, prefix + [entry.name])
  {
    var path := prefix + [entry.name];
    assert path[|prefix|] == entry.name;
    assert forall i | 0 <= i < |prefix| :: path[i] == prefix[i];
  }

  /** The path is found through this child: it is the child, or found below it. */
  ghost predicate Via(judge: Judge, prefix: Path, child: Entry, path: Path) {
    ViaFile(judge, prefix, child, path) || ViaDirectory(judge, prefix, child, path)
  }

  ghost predicate ViaFile(judge: Judge, prefix: Path, child: Entry, path: Path) {
    judge(prefix, child) == Yield && path == prefix + [child.name]
  }

  ghost predicate ViaDirectory(judge: Judge, prefix: Path, child: Entry, path: Path) {
    child.Dir? && judge(prefix, child) == Descend && path in Walk(judge, prefix + [child.name], child.children).files
  }

  ghost predicate AnyViaFile(judge: Judge, prefix: Path, children: seq<Entry>, path: Path) {
    exists i | 0 <= i < |children| :: ViaFile(judge, prefix, children[i], path)
  }

  ghost predicate AnyViaDirectory(judge: Judge, prefix: Path, children: seq<Entry>, path: Path) {
    exists i | 0 <= i < |children| :: ViaDirectory(judge, prefix, children[i], path)
  }

  lemma AnyTail(judge: Judge, prefix: Path, children: seq<Entry>, path: Path)
    requires children != []
    ensures AnyViaFile(judge, prefix, children, path)
       <==> ViaFile(judge, prefix, children[0], path) || AnyViaFile(judge, prefix, children[1..], path)
    ensures AnyViaDirectory(judge, prefix, children, path)
       <==> ViaDirectory(judge, prefix, children[0], path) || AnyViaDirectory(judge, prefix, children[1..], path)
  {
    assert forall i | 0 < i < |children| :: children[i] == children[1..][i - 1];
  }

  lemma {:induction false} HereFiles(judge: Judge, prefix: Path, children: seq<Entry>, path: Path)
    ensures path in Here(judge, prefix, children).files <==> AnyViaFile(judge, prefix, children, path)
  {
    if children != [] {
      HereFiles(judge, prefix, children[1..], path);
      AnyTail(judge, prefix, children, path);
    }
  }

  lemma {:induction false} BelowFiles(judge: Judge, prefix: Path, children: seq<Entry>, path: Path)
    ensures path in Below(judge, prefix, children).files <==> AnyViaDirectory(judge, prefix, children, path)
  {
    if children != [] {
      BelowFiles(judge, prefix, children[1..], path);
      AnyTail(judge, prefix, children, path);
    }
  }

  predicate Under(prefix: Path, path: Path) {
    |prefix| < |path| && path[..|prefix|] == prefix
  }

  ghost predicate Findable(rules: Rules, prefix: Path, children: seq<Entry>, path: Path) {
    Under(prefix, path) && Searchable(rules, path) && IsFileAt(children, path[|prefix|..])
  }

  ghost predicate FindableUnder(rules: Rules, prefix: Path, child: Entry, path: Path) {
    Under(prefix, path) && Searchable(rules, path) && IsUnder(child, path[|prefix|..], Regular)
  }

  /** The walk of a directory finds exactly the regular files below it whose path is searchable. */
  lemma {:induction false} WalkFinds(rules: Rules, prefix: Path, children: seq<Entry>, path: Path)
    requires Entered(rules, prefix)
    ensures path in Walk(JudgeBy(rules), prefix, children).files <==> Findable(rules, prefix, children, path)
    decreases children, 1
  {
    var judge := JudgeBy(rules);
    HereFiles(judge, prefix, children, path);
    BelowFiles(judge, prefix, children, path);
    forall i | 0 <= i < |children|
      ensures Via(judge, prefix, children[i], path) <==> FindableUnder(rules, prefix, children[i], path)
    {
      ChildFinds(rules, prefix, children[i], path);
    }
    if path in Walk(judge, prefix, children).files {
      var i :| 0 <= i < |children| && Via(judge, prefix, children[i], path);
      assert IsUnder(children[i], path[|prefix|..], Regular);
    }
    if Findable(rules, prefix, children, path) {
      var i :| 0 <= i < |children| && IsUnder(children[i], path[|prefix|..], Regular);
      assert Via(judge, prefix, children[i], path);
    }
  }

  lemma {:induction false} ChildFinds(rules: Rules, prefix: Path, child: Entry, path: Path)
    requires Entered(rules, prefix)
    ensures Via(JudgeBy(rules), prefix, child, path) <==> FindableUnder(rules, prefix, child, path)
    decreases child, 0
  {
    var own := prefix + [child.name];
    JudgedAsSearchable(rules, prefix, child);
    if child.File? {
      FileFinds(prefix, child, path);
    } else if child.Dir? {
      if Searchable(rules, own) { WalkFinds(rules, own, child.children, path); }
    }
  }

  /** A file's own path is the only path below its directory that leads to it. */
  lemma FileFinds(prefix: Path, child: Entry, path: Path)
    requires child.File?
    ensures path == prefix + [child.name] <==> Under(prefix, path) && IsUnder(child, path[|prefix|..], Regular)
  {
    if Under(prefix, path) && IsUnder(child, path[|prefix|..], Regular) {
      assert path == path[..|prefix|] + path[|prefix|..];
      assert path[|prefix|..] == [child.name];
    }
    if path == prefix + [child.name] {
      assert path[..|prefix|] == prefix && path[|prefix|..] == [child.name];
    }
  }

  // Each file once

  /** No two entries of a directory share a name. */
  ghost predicate UniqueNames(children: seq<Entry>) {
    && (forall i, j | 0 <= i < j < |children| :: children[i].name != children[j].name)
    && forall i | 0 <= i < |children| :: children[i].Dir? ==> UniqueNames(children[i].children)
  }

  ghost predicate Distinct(paths: seq<Path>) {
    forall i, j | 0 <= i < j < |paths| :: paths[i] != paths[j]
  }

  lemma DistinctConcat(a: seq<Path>, b: seq<Path>)
    requires Distinct(a) && Distinct(b)
    requires forall path | path in a :: path !in b
    ensures Distinct(a + b)
  {
    forall i, j | 0 <= i < j < |a + b| ensures (a + b)[i] != (a + b)[j] {
      if i < |a| <= j { assert a[i] in a && b[j - |a|] in b; }
    }
  }

  /** Whatever a walk finds lies below the directory it started from. */
  lemma {:induction false} FoundUnder(judge: Judge, prefix: Path, children: seq<Entry>, path: Path)
    requires path in Walk(judge, prefix, children).files
    ensures Under(prefix, path)
    decreases children, 1
  {
    HereFiles(judge, prefix, children, path);
    BelowFiles(judge, prefix, children, path);
    if path in Here(judge, prefix, children).files {
      var i :| 0 <= i < |children| && ViaFile(judge, prefix, children[i], path);
    } else {
      var i :| 0 <= i < |children| && ViaDirectory(judge, prefix, children[i], path);
      DirectoryLeadsUnder(judge, prefix, children[i], path);
    }
  }

  lemma {:induction false} DirectoryLeadsUnder(judge: Judge, prefix: Path, child: Entry, path: Path)
    requires ViaDirectory(judge, prefix, child, path)
    ensures |path| > |prefix| + 1 && Under(prefix, path) && path[|prefix|] == child.name
    decreases child, 0
  {
    var own := prefix + [child.name];
    FoundUnder(judge, own, child.children, path);
    assert path[..|prefix|] == path[..|own|][..|prefix|] == prefix;
    assert path[|prefix|] == path[..|own|][|prefix|];
  }

  lemma {:induction false} HereDistinct(judge: Judge, prefix: Path, children: seq<Entry>)
    requires UniqueNames(children)
    ensures Distinct(Here(judge, prefix, children).files)
  {
    if children != [] {
      HereDistinct(judge, prefix, children[1..]);
      var first := One(prefix + [children[0].name], judge(prefix, children[0])).files;
      forall path | path in first ensures path !in Here(judge, prefix, children[1..]).files {
        HereFiles(judge, prefix, children[1..], path);
        assert path[|prefix|] == children[0].name;
      }
      DistinctConcat(first, Here(judge, prefix, children[1..]).files);
    }
  }

  lemma {:induction false} BelowDistinct(judge: Judge, prefix: Path, children: seq<Entry>)
    requires UniqueNames(children)
    ensures Distinct(Below(judge, prefix, children).files)
    decreases children, 0
  {
    if children != [] {
      BelowDistinct(judge, prefix, children[1..]);
      var child := children[0];
      if child.Dir? && judge(prefix, child) == Descend {
        WalkDistinct(judge, prefix + [child.name], child.children);
        var first := Walk(judge, prefix + [child.name], child.children).files;
        forall path | path in first ensures path !in Below(judge, prefix, children[1..]).files {
          DirectoryLeadsUnder(judge, prefix, child, path);
          NotBelow(judge, prefix, children[1..], path);
        }
        DistinctConcat(first, Below(judge, prefix, children[1..]).files);
      }
    }
  }

  lemma NotBelow(judge: Judge, prefix: Path, children: seq<Entry>, path: Path)
    requires |prefix| < |path| && forall i | 0 <= i < |children| :: children[i].name != path[|prefix|]
    ensures path !in Below(judge, prefix, children).files
  {
    BelowFiles(judge, prefix, children, path);
    if AnyViaDirectory(judge, prefix, children, path) {
      var i :| 0 <= i < |children| && ViaDirectory(judge, prefix, children[i], path);
      DirectoryLeadsUnder(judge, prefix, children[i], path);
    }
  }

  /** No path is yielded twice. */
  lemma {:induction false} WalkDistinct(judge: Judge, prefix: Path, children: seq<Entry>)
    requires UniqueNames(children)
    ensures Distinct(Walk(judge, prefix, children).files)
    decreases children, 1
  {
    HereDistinct(judge, prefix, children);
    BelowDistinct(judge, prefix, children);
    var here, below := Here(judge, prefix, children).files, Below(judge, prefix, children).files;
    forall path | path in here ensures path !in below {
      HereFiles(judge, prefix, children, path);
      BelowFiles(judge, prefix, children, path);
      if AnyViaDirectory(judge, prefix, children, path) {
        var i :| 0 <= i < |children| && ViaDirectory(judge, prefix, children[i], path);
        DirectoryLeadsUnder(judge, prefix, children[i], path);
      }
    }
    DistinctConcat(here, below);
  }

  // The order of the scans

  lemma {:induction false} InsertedIn(entry: Entry, entries: seq<Entry>, x: Entry)
    ensures x in Insert(entry, entries) <==> x == entry || x in entries
    decreases |entries|
  {
    if entries != [] && !Before(entry.name, entries[0].name) {
      InsertedIn(entry, entries[1..], x);
      assert x in entries <==> x == entries[0] || x in entries[1..];
    }
  }

  lemma {:induction false} SortedIn(entries: seq<Entry>, x: Entry)
    ensures x in Sorted(entries) <==> x in entries
    decreases |entries|
  {
    if entries != [] {
      SortedIn(entries[1..], x);
      InsertedIn(entries[0], Sorted(entries[1..]), x);
    }
  }

  lemma {:induction false} DeepAt(entries: seq<Entry>)
    ensures |DeepAll(entries)| == |entries| && forall i | 0 <= i < |entries| :: DeepAll(entries)[i] == Deep(entries[i])
    decreases |entries|
  {
    if entries != [] { DeepAt(entries[1..]); }
  }

  /** The entries of the sorted tree are those of the scan, each sorted below. */
  lemma InSortedTree(entries: seq<Entry>, x: Entry)
    ensures x in SortedTree(entries) <==> exists i :: 0 <= i < |entries| && x == Deep(entries[i])
  {
    DeepAt(entries);
    SortedIn(DeepAll(entries), x);
  }

  /** Sorting loses no entry and adds none. */
  lemma {:induction false} SameEntries(entries: seq<Entry>, path: Path, kind: Kind)
    ensures IsAt(SortedTree(entries), path, kind) <==> IsAt(entries, path, kind)
    decreases entries, 1
  {
    if path != [] {
      var tree := SortedTree(entries);
      forall i | 0 <= i < |entries| ensures IsUnder(Deep(entries[i]), path, kind) <==> IsUnder(entries[i], path, kind) {
        SameUnder(entries[i], path, kind);
      }
      if IsAt(tree, path, kind) {
        var k :| 0 <= k < |tree| && IsUnder(tree[k], path, kind);
        InSortedTree(entries, tree[k]);
      }
      if IsAt(entries, path, kind) {
        var i :| 0 <= i < |entries| && IsUnder(entries[i], path, kind);
        InSortedTree(entries, Deep(entries[i]));
      }
    }
  }

  lemma {:induction false} SameUnder(entry: Entry, path: Path, kind: Kind)
    requires path != []
    ensures IsUnder(Deep(entry), path, kind) <==> IsUnder(entry, path, kind)
    decreases entry, 0
  {
    if entry.Dir? { SameEntries(entry.children, path[1..], kind); }
  }

  // Strings are totally ordered.

  lemma {:induction false} BeforeTotal(a: string, b: string)
    ensures Before(a, b) || Before(b, a)
    ensures Before(a, b) && Before(b, a) ==> a == b
  {
    if a != "" && b != "" {
      BeforeTotal(a[1..], b[1..]);
      assert a == [a[0]] + a[1..] && b == [b[0]] + b[1..];
    }
  }

  /** Up to there the names agree, and then the first one has the smaller character. */
  predicate SmallerAt(a: string, b: string, i: int) {
    0 <= i < |a| && i < |b| && a[..i] == b[..i] && a[i] < b[i]
  }

  /** A name comes before another if it is the beginning of it, or has the smaller character where they first differ. */
  lemma {:induction false} BeforeIs(a: string, b: string)
    ensures Before(a, b) <==> a <= b || exists i :: SmallerAt(a, b, i)
  {
    if a != "" && b != "" && a[0] == b[0] {
      BeforeIs(a[1..], b[1..]);
      if a[1..] <= b[1..] { assert a == [a[0]] + a[1..] && b == [b[0]] + b[1..]; }
      if i :| SmallerAt(a[1..], b[1..], i) {
        assert a[..i + 1] == [a[0]] + a[1..][..i] && b[..i + 1] == [b[0]] + b[1..][..i];
        assert SmallerAt(a, b, i + 1);
      }
      if i :| SmallerAt(a, b, i) {
        assert a[1..][..i - 1] == a[..i][1..] && b[1..][..i - 1] == b[..i][1..];
        assert SmallerAt(a[1..], b[1..], i - 1);
      }
    } else if a != "" && b != "" && a[0] < b[0] {
      assert SmallerAt(a, b, 0);
    } else if a != "" && b != "" {
      forall i ensures !SmallerAt(a, b, i) {
        if 0 < i < |a| && i < |b| { assert a[..i][0] == a[0] && b[..i][0] == b[0]; }
      }
    }
  }

  lemma {:induction false} BeforeTransitive(a: string, b: string, c: string)
    requires Before(a, b) && Before(b, c)
    ensures Before(a, c)
  {
    if a != "" && a[0] == b[0] == c[0] { BeforeTransitive(a[1..], b[1..], c[1..]); }
  }

  /** In strict name order. */
  ghost predicate Ordered(entries: seq<Entry>) {
    forall i, j | 0 <= i < j < |entries| :: Less(entries[i], entries[j])
  }

  predicate Less(a: Entry, b: Entry) {
    Before(a.name, b.name) && a.name != b.name
  }

  lemma {:induction false} InsertOrdered(entry: Entry, entries: seq<Entry>)
    requires Ordered(entries) && forall i | 0 <= i < |entries| :: entries[i].name != entry.name
    ensures Ordered(Insert(entry, entries))
    decreases |entries|
  {
    if entries != [] {
      var first := entries[0];
      BeforeTotal(entry.name, first.name);
      if Before(entry.name, first.name) {
        forall j | 0 <= j < |entries| ensures Less(entry, entries[j]) {
          if j > 0 { assert Less(first, entries[j]); BeforeTransitive(entry.name, first.name, entries[j].name); }
        }
      } else {
        assert Ordered(entries[1..]);
        InsertOrdered(entry, entries[1..]);
        var rest := Insert(entry, entries[1..]);
        forall j | 0 <= j < |rest| ensures Less(first, rest[j]) {
          InsertedIn(entry, entries[1..], rest[j]);
          if rest[j] != entry {
            var k :| 0 <= k < |entries[1..]| && entries[1..][k] == rest[j];
            assert Less(first, entries[k + 1]);
          }
        }
      }
    }
  }

  lemma {:induction false} SortedOrdered(entries: seq<Entry>)
    requires forall i, j | 0 <= i < j < |entries| :: entries[i].name != entries[j].name
    ensures Ordered(Sorted(entries))
    decreases |entries|
  {
    if entries != [] {
      var rest := Sorted(entries[1..]);
      SortedOrdered(entries[1..]);
      forall i | 0 <= i < |rest| ensures rest[i].name != entries[0].name {
        SortedIn(entries[1..], rest[i]);
      }
      InsertOrdered(entries[0], rest);
    }
  }

  /** Two lists in strict name order with the same entries are the same list. */
  lemma {:induction false} OrderedIsUnique(a: seq<Entry>, b: seq<Entry>)
    requires Ordered(a) && Ordered(b) && forall x :: x in a <==> x in b
    ensures a == b
    decreases |a|
  {
    if a != [] {
      SameHead(a, b);
      RestHasSame(a, b);
      OrderedIsUnique(a[1..], b[1..]);
      assert a == [a[0]] + a[1..] && b == [b[0]] + b[1..];
    } else {
      SomeIn(b);
    }
  }

  lemma SameHead(a: seq<Entry>, b: seq<Entry>)
    requires Ordered(a) && Ordered(b) && a != [] && forall x :: x in a <==> x in b
    ensures b != [] && a[0] == b[0]
  {
    assert a[0] in b;
    SomeIn(b);
    BeforeTotal(a[0].name, b[0].name);
  }

  lemma SomeIn(entries: seq<Entry>)
    ensures entries == [] || entries[0] in entries
  {
  }

  lemma RestHasSame(a: seq<Entry>, b: seq<Entry>)
    requires Ordered(a) && Ordered(b) && a != [] && b != [] && a[0] == b[0] && forall x :: x in a <==> x in b
    ensures Ordered(a[1..]) && Ordered(b[1..]) && forall x :: x in a[1..] <==> x in b[1..]
  {
    forall x ensures x in a[1..] <==> x in b[1..] {
      assert x in a <==> x == a[0] || x in a[1..];
      assert x in b <==> x == b[0] || x in b[1..];
    }
  }

  /** Two scans of one tree: at every path the same kind of entry. */
  ghost predicate Rescanned(a: seq<Entry>, b: seq<Entry>) {
    forall path, kind :: IsAt(a, path, kind) <==> IsAt(b, path, kind)
  }

  /** What is below a directory is what lies there in it, for no other entry has its name. */
  lemma BelowDirectory(entries: seq<Entry>, i: nat, path: Path, kind: Kind)
    requires UniqueNames(entries) && i < |entries| && entries[i].Dir? && path != []
    ensures IsAt(entries, [entries[i].name] + path, kind) <==> IsAt(entries[i].children, path, kind)
  {
    var full := [entries[i].name] + path;
    assert full[1..] == path;
    assert IsUnder(entries[i], full, kind) <==> IsAt(entries[i].children, path, kind);
    if IsAt(entries, full, kind) {
      var k :| 0 <= k < |entries| && IsUnder(entries[k], full, kind);
      assert entries[k].name == entries[i].name;
    }
  }

  lemma RescannedBelow(a: seq<Entry>, b: seq<Entry>, i: nat, j: nat)
    requires UniqueNames(a) && UniqueNames(b) && Rescanned(a, b)
    requires i < |a| && j < |b| && a[i].name == b[j].name && a[i].Dir? && b[j].Dir?
    ensures Rescanned(a[i].children, b[j].children)
  {
    forall path, kind ensures IsAt(a[i].children, path, kind) <==> IsAt(b[j].children, path, kind) {
      if path != [] {
        BelowDirectory(a, i, path, kind);
        BelowDirectory(b, j, path, kind);
        assert IsAt(a, [a[i].name] + path, kind) <==> IsAt(b, [a[i].name] + path, kind);
      }
    }
  }

  /** Each entry of one scan is in the other. */
  lemma Twin(a: seq<Entry>, b: seq<Entry>, i: nat) returns (j: nat)
    requires Rescanned(a, b) && i < |a|
    ensures j < |b| && a[i].name == b[j].name && KindOf(a[i]) == KindOf(b[j])
  {
    var path, kind := [a[i].name], KindOf(a[i]);
    assert IsUnder(a[i], path, kind);
    assert IsAt(a, path, kind);
    assert IsAt(b, path, kind);
    j :| 0 <= j < |b| && IsUnder(b[j], path, kind);
  }

  lemma {:induction false} RescannedIn(a: seq<Entry>, b: seq<Entry>, i: nat)
    requires UniqueNames(a) && UniqueNames(b) && Rescanned(a, b) && i < |a|
    ensures Deep(a[i]) in SortedTree(b)
    decreases a, 1
  {
    var j := Twin(a, b, i);
    if a[i].Dir? {
      RescannedBelow(a, b, i, j);
      ScanOrderIsIrrelevant(a[i].children, b[j].children);
    }
    InSortedTree(b, Deep(b[j]));
  }

  lemma {:induction false} RescannedFrom(a: seq<Entry>, b: seq<Entry>, j: nat)
    requires UniqueNames(a) && UniqueNames(b) && Rescanned(a, b) && j < |b|
    ensures Deep(b[j]) in SortedTree(a)
    decreases a, 1
  {
    var i := Twin(b, a, j);
    if b[j].Dir? {
      RescannedBelow(a, b, i, j);
      ScanOrderIsIrrelevant(a[i].children, b[j].children);
    }
    InSortedTree(a, Deep(a[i]));
  }

  /** The walk does not depend on the order in which directories are listed. */
  lemma {:induction false} ScanOrderIsIrrelevant(a: seq<Entry>, b: seq<Entry>)
    requires UniqueNames(a) && UniqueNames(b) && Rescanned(a, b)
    ensures SortedTree(a) == SortedTree(b)
    decreases a, 2
  {
    forall i: nat | i < |a| ensures Deep(a[i]) in SortedTree(b) { RescannedIn(a, b, i); }
    forall j: nat | j < |b| ensures Deep(b[j]) in SortedTree(a) { RescannedFrom(a, b, j); }
    SameSorted(a, b);
  }

  lemma SameSorted(a: seq<Entry>, b: seq<Entry>)
    requires UniqueNames(a) && UniqueNames(b)
    requires forall i: nat | i < |a| :: Deep(a[i]) in SortedTree(b)
    requires forall j: nat | j < |b| :: Deep(b[j]) in SortedTree(a)
    ensures SortedTree(a) == SortedTree(b)
  {
    forall x ensures x in SortedTree(a) <==> x in SortedTree(b) {
      InSortedTree(a, x);
      InSortedTree(b, x);
    }
    DeepNames(a);
    DeepNames(b);
    OrderedIsUnique(SortedTree(a), SortedTree(b));
  }

  lemma DeepNames(entries: seq<Entry>)
    requires UniqueNames(entries)
    ensures Ordered(SortedTree(entries))
  {
    DeepAt(entries);
    SortedOrdered(DeepAll(entries));
  }

  lemma {:induction false} SortedKeepsUnique(entries: seq<Entry>)
    requires UniqueNames(entries)
    ensures UniqueNames(SortedTree(entries))
    decreases entries
  {
    var tree := SortedTree(entries);
    DeepNames(entries);
    forall k | 0 <= k < |tree| ensures tree[k].Dir? ==> UniqueNames(tree[k].children) {
      InSortedTree(entries, tree[k]);
      var i :| 0 <= i < |entries| && tree[k] == Deep(entries[i]);
      if entries[i].Dir? { SortedKeepsUnique(entries[i].children); }
    }
    forall i, j | 0 <= i < j < |tree| ensures tree[i].name != tree[j].name { assert Less(tree[i], tree[j]); }
  }

  /**
   The index walk yields every regular file with a searchable path exactly once, and nothing else;
   every entry it visits is yielded, descended into or counted as skipped.
   */
  lemma IndexWalk(rules: Rules, root: seq<Entry>)
    requires UniqueNames(root)
    ensures var tally := Walk(JudgeBy(rules), [], SortedTree(root));
            && Distinct(tally.files) && Balanced(tally)
            && forall path :: path in tally.files <==> IsFileAt(root, path) && Searchable(rules, path)
  {
    var judge, tree := JudgeBy(rules), SortedTree(root);
    SortedKeepsUnique(root);
    WalkDistinct(judge, [], tree);
    WalkBalances(judge, [], tree);
    forall path ensures path in Walk(judge, [], tree).files <==> IsFileAt(root, path) && Searchable(rules, path) {
      WalkFinds(rules, [], tree, path);
      SameEntries(root, path, Regular);
      assert path[0..] == path;
    }
  }
}
