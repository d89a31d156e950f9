/**
 The run-scoped container session (backend/app/sandbox/commands.py) and its network policy
 (backend/app/sandbox/network.py). Docker is an oracle: any call may fail.
 */
module Sandbox {
  import opened Wrappers
  import PyText

  // ------------------------------------------------------------ network policy

  datatype Mode = NoNetwork | Bridge

  datatype Settings = Settings(networkMode: string, allowDuringSetup: bool, allowDuringTests: bool, allowedHosts: string)

  const KNOWN_PHASES := {"setup", "test", "baseline", "post_patch", "hidden_eval", "lint", "format_check", "flakiness", "agent_test"}

  /** `resolve_network_policy`: the mode of the container, or `None` when the policy is refused. */
  function EffectiveMode(settings: Settings, phase: string, requested: Option<string>): Option<Mode> {
    var mode := PyText.Strip(if requested.Some? then requested.value else settings.networkMode);
    if mode !in {"none", "bridge"} then None
    else
      var setup := phase == "setup";
      var permitted := if setup then settings.allowDuringSetup else settings.allowDuringTests;
      var enabled := phase in KNOWN_PHASES && permitted && (mode == "bridge" || (setup && requested.None?));
      if enabled && !PyText.Blank(settings.allowedHosts) then None
      else if enabled then Some(Bridge) else Some(NoNetwork)
  }

  /**
   The network is open only for a known phase the operator permits, never with a host allowlist,
   and never when the caller asked for `none`.
   */
  lemma NetworkFailsClosed(settings: Settings, phase: string, requested: Option<string>)
    ensures EffectiveMode(settings, phase, requested) == Some(Bridge) <==>
              && phase in KNOWN_PHASES
              && (if phase == "setup" then settings.allowDuringSetup else settings.allowDuringTests)
              && PyText.Blank(settings.allowedHosts)
              && (match requested
                  case Some(mode) => PyText.Strip(mode) == "bridge"
                  case None =>
                    PyText.Strip(settings.networkMode) == "bridge"
                    || (phase == "setup" && PyText.Strip(settings.networkMode) == "none"))
  {
    assert "none" != "bridge" by { assert |"none"| != |"bridge"|; }
  }

  /** The phase is one the sandbox runs commands in. */
  predicate KnownPhase(phase: string) {
    phase in ["setup", "test", "baseline", "post_patch", "hidden_eval", "lint", "format_check", "flakiness", "agent_test"]
  }

  /** The mode asked for, by the caller or else by the settings. */
  function Asked(settings: Settings, requested: Option<string>): string {
    PyText.Strip(match requested case Some(mode) => mode case None => settings.networkMode)
  }

  /** A known phase that the operator permits asks for the network, or is the setup nobody asked a mode for. */
  predicate WantsNetwork(settings: Settings, phase: string, requested: Option<string>) {
    && KnownPhase(phase)
    && (if phase == "setup" then settings.allowDuringSetup else settings.allowDuringTests)
    && (Asked(settings, requested) == "bridge" || (phase == "setup" && requested.None?))
  }

  /**
   A policy is refused exactly for a mode that is neither `none` nor `bridge`, or for a host allowlist
   where the network would be open; it is open exactly where it is wanted and there is no such list;
   everything else runs offline.
   */
  lemma PolicyIs(settings: Settings, phase: string, requested: Option<string>)
    ensures var mode, wanted := Asked(settings, requested), WantsNetwork(settings, phase, requested);
            var refused := (mode != "none" && mode != "bridge") || (wanted && !PyText.Blank(settings.allowedHosts));
            && (EffectiveMode(settings, phase, requested).None? <==> refused)
            && (EffectiveMode(settings, phase, requested) == Some(Bridge) <==> !refused && wanted)
            && (EffectiveMode(settings, phase, requested) == Some(NoNetwork) <==> !refused && !wanted)
  {
    assert KnownPhase(phase) <==> phase in KNOWN_PHASES;
  }

  /** The settings as shipped run every test phase offline. */
  lemma DefaultsRunOffline(phase: string)
    requires phase != "setup"
    ensures EffectiveMode(Settings("none", false, false, ""), phase, None) == Some(NoNetwork)
  {
    var mode := "none";
    assert PyText.Strip(mode) == mode by {
      assert mode[0] == 'n' && mode[3] == 'e' && !PyText.IsSpace('n') && !PyText.IsSpace('e');
    }
    PolicyIs(Settings("none", false, false, ""), phase, None);
  }

  // ---------------------------------------------------------- synchronization

  type Name = string
  type Content = string
  type Digest = string

  /** A file in a container: under the directory of a synced workspace, or anywhere else. */
  datatype Location = InWorkspace(dest: nat, name: Name) | Elsewhere(path: string)

  type FileSystem = map<Location, Content>

  function At(dest: nat, names: set<Name>): set<Location> {
    set n | n in names :: InWorkspace(dest, n)
  }

  function Digests(digest: Content -> Digest, host: map<Name, Content>): map<Name, Digest> {
    map n | n in host :: digest(host[n])
  }

  /** The names whose content is sent: new ones and ones whose digest differs from the cache. */
  function Changed(digest: Content -> Digest, previous: map<Name, Digest>, host: map<Name, Content>): set<Name> {
    set n | n in host && !(n in previous && previous[n] == digest(host[n]))
  }

  function Placed(dest: nat, names: set<Name>, host: map<Name, Content>): FileSystem
    requires names <= host.Keys
  {
    map l | l in At(dest, names) :: host[l.name]
  }

  /** `_synchronize` on the container: delete what the host lost, upload what the cache says changed. */
  function Synced(
    digest: Content -> Digest, fs: FileSystem, dest: nat, previous: map<Name, Digest>, host: map<Name, Content>
  ): FileSystem {
    (fs - At(dest, previous.Keys - host.Keys)) + Placed(dest, Changed(digest, previous, host), host)
  }

  /** The same with no cache: delete everything sent before, then upload the whole host tree. */
  function FullCopy(fs: FileSystem, dest: nat, previous: map<Name, Digest>, host: map<Name, Content>): FileSystem {
    (fs - At(dest, previous.Keys)) + Placed(dest, host.Keys, host)
  }

  /** The container still holds what the cache says was sent to it. */
  ghost predicate Agrees(digest: Content -> Digest, fs: FileSystem, dest: nat, previous: map<Name, Digest>) {
    forall n | n in previous :: InWorkspace(dest, n) in fs && digest(fs[InWorkspace(dest, n)]) == previous[n]
  }

  ghost predicate CollisionFree(digest: Content -> Digest) {
    forall a, b :: digest(a) == digest(b) ==> a == b
  }

  /** When the cache is right to skip a file: the container has the host's content under its name. */
  ghost predicate SkipsAreSafe(
    digest: Content -> Digest, fs: FileSystem, dest: nat, previous: map<Name, Digest>, host: map<Name, Content>)
  {
    forall n | n in host && n in previous && previous[n] == digest(host[n]) ::
      InWorkspace(dest, n) in fs && fs[InWorkspace(dest, n)] == host[n]
  }

  /** Incremental sync equals full copy exactly when every file it skips is intact in the container. */
  lemma IncrementalEqualsFullCopyIff(
    digest: Content -> Digest, fs: FileSystem, dest: nat, previous: map<Name, Digest>, host: map<Name, Content>)
    ensures Synced(digest, fs, dest, previous, host) == FullCopy(fs, dest, previous, host) <==>
            SkipsAreSafe(digest, fs, dest, previous, host)
  {
    var fast, full := Synced(digest, fs, dest, previous, host), FullCopy(fs, dest, previous, host);
    if fast == full {
      forall n | n in host && n in previous && previous[n] == digest(host[n])
        ensures InWorkspace(dest, n) in fs && fs[InWorkspace(dest, n)] == host[n]
      {
        var l := InWorkspace(dest, n);
        assert l in At(dest, host.Keys);
        assert l in full && full[l] == host[n];
        assert l !in At(dest, Changed(digest, previous, host));
      }
    }
    if SkipsAreSafe(digest, fs, dest, previous, host) {
      forall l
        ensures l in fast <==> l in full
        ensures l in fast ==> fast[l] == full[l]
      {
        if l.InWorkspace? && l.dest == dest && l.name in host {
          assert l in At(dest, host.Keys);
          if l.name in Changed(digest, previous, host) {
            assert l in At(dest, Changed(digest, previous, host));
          } else {
            assert l !in At(dest, Changed(digest, previous, host));
            assert l !in At(dest, previous.Keys - host.Keys);
          }
        } else if l.InWorkspace? && l.dest == dest && l.name in previous {
          assert l in At(dest, previous.Keys - host.Keys) && l in At(dest, previous.Keys);
          assert l !in At(dest, host.Keys) && l !in At(dest, Changed(digest, previous, host));
        } else {
          assert l !in At(dest, previous.Keys) && l !in At(dest, host.Keys);
          assert l !in At(dest, previous.Keys - host.Keys) && l !in At(dest, Changed(digest, previous, host));
        }
      }
      assert fast.Keys == full.Keys;
    }
  }

  /**
   With collision-free digests and a container that still holds what was sent, an incremental
   sync is a full copy: the synced tree is the host tree, what the host lost is gone, every other
   file in the container is untouched, and the new cache is right.
   */
  lemma SyncMirrorsHost(
    digest: Content -> Digest, fs: FileSystem, dest: nat, previous: map<Name, Digest>, host: map<Name, Content>)
    requires CollisionFree(digest) && Agrees(digest, fs, dest, previous)
    ensures var next := Synced(digest, fs, dest, previous, host);
            && next == FullCopy(fs, dest, previous, host)
            && Matches(next, dest, previous.Keys - host.Keys, host)
            && OthersUntouched(fs, next, dest, previous.Keys + host.Keys)
            && Agrees(digest, next, dest, Digests(digest, host))
  {
    assert SkipsAreSafe(digest, fs, dest, previous, host);
    IncrementalEqualsFullCopyIff(digest, fs, dest, previous, host);
    FullCopyMatches(fs, dest, previous, host);
  }

  // -------------------------------------------------------------- the session

  class Container {
    const mode: Mode
    var fs: FileSystem

    constructor (mode: Mode, fs: FileSystem)
      ensures this.mode == mode && this.fs == fs
    {
      this.mode, this.fs := mode, fs;
    }
  }

  type Root = string
  type ImageId = nat

  datatype Workspace = Workspace(dest: nat, digests: map<Name, Digest>)

  /** The container holds every synced tree, each under a directory of its own. */
  ghost predicate Mirrored(digest: Content -> Digest, workspaces: map<Root, Workspace>, fs: FileSystem) {
    && (forall r | r in workspaces :: Agrees(digest, fs, workspaces[r].dest, workspaces[r].digests))
    && (forall r, s | r in workspaces && s in workspaces && r != s :: workspaces[r].dest != workspaces[s].dest)
  }

  /** File `n` of workspace `r` was synced and the change from `before` to `after` touched it. */
  ghost predicate Overwritten(workspaces: map<Root, Workspace>, before: FileSystem, after: FileSystem, r: Root, n: Name) {
    && r in workspaces && n in workspaces[r].digests
    && var l := InWorkspace(workspaces[r].dest, n);
       !(l in before && l in after && before[l] == after[l])
  }

  ghost predicate AnyOverwritten(workspaces: map<Root, Workspace>, before: FileSystem, after: FileSystem) {
    exists r, n :: Overwritten(workspaces, before, after, r, n)
  }

  lemma UntouchedStaysMirrored(digest: Content -> Digest, workspaces: map<Root, Workspace>, before: FileSystem, after: FileSystem)
    requires Mirrored(digest, workspaces, before) && !AnyOverwritten(workspaces, before, after)
    ensures Mirrored(digest, workspaces, after)
  {
    forall r | r in workspaces
      ensures Agrees(digest, after, workspaces[r].dest, workspaces[r].digests)
    {
      assert Agrees(digest, before, workspaces[r].dest, workspaces[r].digests);
      forall n | n in workspaces[r].digests
        ensures var l := InWorkspace(workspaces[r].dest, n); l in before && l in after && before[l] == after[l]
      {
        assert !Overwritten(workspaces, before, after, r, n);
      }
    }
  }

  lemma UntouchedTreeStays(
    workspaces: map<Root, Workspace>, before: FileSystem, after: FileSystem, root: Root, host: map<Name, Content>)
    requires root in workspaces && workspaces[root].digests.Keys == host.Keys
    requires HasTree(before, workspaces[root].dest, host) && !AnyOverwritten(workspaces, before, after)
    ensures HasTree(after, workspaces[root].dest, host)
  {
    forall n | n in host
      ensures InWorkspace(workspaces[root].dest, n) in after && after[InWorkspace(workspaces[root].dest, n)] == host[n]
    {
      assert !Overwritten(workspaces, before, after, root, n);
    }
  }

  lemma OwnTreeSynced(
    digest: Content -> Digest, known: map<Root, Workspace>, fs: FileSystem, root: Root, dest: nat,
    previous: map<Name, Digest>, host: map<Name, Content>)
    requires CollisionFree(digest) && Mirrored(digest, known, fs)
    requires if root in known then known[root] == Workspace(dest, previous) else previous == map[]
    ensures HasTree(Synced(digest, fs, dest, previous, host), dest, host)
    ensures Agrees(digest, Synced(digest, fs, dest, previous, host), dest, Digests(digest, host))
  {
    if root in known { assert Agrees(digest, fs, known[root].dest, known[root].digests); }
    assert Agrees(digest, fs, dest, previous);
    SyncMirrorsHost(digest, fs, dest, previous, host);
  }

  /** Syncing one root keeps every other root's tree and makes its own tree the host's. */
  lemma SyncKeepsMirror(
    digest: Content -> Digest, known: map<Root, Workspace>, fs: FileSystem, root: Root, dest: nat,
    previous: map<Name, Digest>, host: map<Name, Content>)
    requires CollisionFree(digest) && Mirrored(digest, known, fs)
    requires if root in known then known[root] == Workspace(dest, previous)
             else previous == map[] && forall r | r in known :: known[r].dest != dest
    ensures Mirrored(digest, known[root := Workspace(dest, Digests(digest, host))], Synced(digest, fs, dest, previous, host))
    ensures HasTree(Synced(digest, fs, dest, previous, host), dest, host)
  {
    var next, after := Synced(digest, fs, dest, previous, host), known[root := Workspace(dest, Digests(digest, host))];
    OwnTreeSynced(digest, known, fs, root, dest, previous, host);
    forall r | r in known && r != root ensures Agrees(digest, next, known[r].dest, known[r].digests) {
      OtherTreeKept(digest, known, fs, root, dest, previous, host, r);
    }
    MirrorUpdated(digest, known, next, root, after[root]);
  }

  /** One root's tree renewed, and the others still there. */
  lemma MirrorUpdated(digest: Content -> Digest, known: map<Root, Workspace>, fs: FileSystem, root: Root, own: Workspace)
    requires forall r, q | r in known && q in known && r != q :: known[r].dest != known[q].dest
    requires forall r | r in known && r != root :: Agrees(digest, fs, known[r].dest, known[r].digests) && known[r].dest != own.dest
    requires Agrees(digest, fs, own.dest, own.digests)
    ensures Mirrored(digest, known[root := own], fs)
  {
  }

  lemma OtherTreeKept(
    digest: Content -> Digest, known: map<Root, Workspace>, fs: FileSystem, root: Root, dest: nat,
    previous: map<Name, Digest>, host: map<Name, Content>, other: Root)
    requires Mirrored(digest, known, fs) && other in known && other != root
    requires if root in known then known[root] == Workspace(dest, previous) else forall r | r in known :: known[r].dest != dest
    ensures Agrees(digest, Synced(digest, fs, dest, previous, host), known[other].dest, known[other].digests)
  {
    assert Agrees(digest, fs, known[other].dest, known[other].digests);
    OtherTreeStays(digest, fs, dest, previous, host, known[other]);
  }

  /** Both at once, for a container that still holds every synced tree. */
  lemma SyncedFully(
    digest: Content -> Digest, known: map<Root, Workspace>, fs: FileSystem, root: Root, dest: nat,
    previous: map<Name, Digest>, host: map<Name, Content>)
    requires CollisionFree(digest) && Mirrored(digest, known, fs)
    requires if root in known then known[root] == Workspace(dest, previous)
             else previous == map[] && forall r | r in known :: known[r].dest != dest
    ensures var next := Synced(digest, fs, dest, previous, host);
            && Mirrored(digest, known[root := Workspace(dest, Digests(digest, host))], next)
            && next == FullCopy(fs, dest, previous, host)
            && Matches(next, dest, previous.Keys - host.Keys, host)
            && OthersUntouched(fs, next, dest, previous.Keys + host.Keys)
  {
    SyncKeepsMirror(digest, known, fs, root, dest, previous, host);
    if root in known { assert Agrees(digest, fs, known[root].dest, known[root].digests); }
    assert Agrees(digest, fs, dest, previous);
    SyncMirrorsHost(digest, fs, dest, previous, host);
  }

  lemma OtherTreeStays(
    digest: Content -> Digest, fs: FileSystem, dest: nat, previous: map<Name, Digest>, host: map<Name, Content>, other: Workspace)
    requires other.dest != dest && Agrees(digest, fs, other.dest, other.digests)
    ensures Agrees(digest, Synced(digest, fs, dest, previous, host), other.dest, other.digests)
  {
    SyncedElsewhere(digest, fs, dest, previous, host, other.dest);
  }

  /** A sync under one directory does not touch another one. */
  lemma SyncedElsewhere(
    digest: Content -> Digest, fs: FileSystem, dest: nat, previous: map<Name, Digest>, host: map<Name, Content>, other: nat)
    requires other != dest
    ensures var next := Synced(digest, fs, dest, previous, host);
            forall n | InWorkspace(other, n) in fs ::
              InWorkspace(other, n) in next && next[InWorkspace(other, n)] == fs[InWorkspace(other, n)]
  {
  }

  /** The names computed from the digests of the host are the ones the host's contents give. */
  lemma SentNames(digest: Content -> Digest, previous: map<Name, Digest>, host: map<Name, Content>)
    ensures var current := Digests(digest, host);
            && previous.Keys - current.Keys == previous.Keys - host.Keys
            && (set n | n in current && !(n in previous && previous[n] == current[n])) == Changed(digest, previous, host)
  {
  }

  ghost predicate HasTree(fs: FileSystem, dest: nat, host: map<Name, Content>) {
    forall n | n in host :: InWorkspace(dest, n) in fs && fs[InWorkspace(dest, n)] == host[n]
  }

  /** No file of these names is under the directory. */
  ghost predicate Gone(fs: FileSystem, dest: nat, names: set<Name>) {
    forall n | n in names :: InWorkspace(dest, n) !in fs
  }

  /** Nothing but files of these names under the directory differs. */
  ghost predicate OthersUntouched(before: FileSystem, after: FileSystem, dest: nat, names: set<Name>) {
    forall l | l !in At(dest, names) :: (l in after <==> l in before) && (l in before ==> after[l] == before[l])
  }

  /** What was sent for this root before. */
  function SentBefore(workspaces: map<Root, Workspace>, root: Root): map<Name, Digest> {
    if root in workspaces then workspaces[root].digests else map[]
  }

  /** The container's copy is the host's tree: every file of it, and none that was sent before and is lost. */
  ghost predicate Matches(fs: FileSystem, dest: nat, lost: set<Name>, host: map<Name, Content>) {
    HasTree(fs, dest, host) && Gone(fs, dest, lost)
  }

  lemma FullCopyMatches(fs: FileSystem, dest: nat, previous: map<Name, Digest>, host: map<Name, Content>)
    ensures var full := FullCopy(fs, dest, previous, host);
            && Matches(full, dest, previous.Keys - host.Keys, host)
            && OthersUntouched(fs, full, dest, previous.Keys + host.Keys)
  {
    var full := FullCopy(fs, dest, previous, host);
    forall n | n in host ensures InWorkspace(dest, n) in full && full[InWorkspace(dest, n)] == host[n] {
      assert InWorkspace(dest, n) in At(dest, host.Keys);
    }
    forall n | n in previous.Keys - host.Keys ensures InWorkspace(dest, n) !in full {
      assert InWorkspace(dest, n) in At(dest, previous.Keys);
      assert InWorkspace(dest, n) !in At(dest, host.Keys);
    }
    forall l | l !in At(dest, previous.Keys + host.Keys)
      ensures (l in full <==> l in fs) && (l in fs ==> full[l] == fs[l])
    {
      if l.InWorkspace? && l.dest == dest { assert l.name !in previous.Keys + host.Keys; }
      assert l !in At(dest, previous.Keys) && l !in At(dest, host.Keys);
    }
  }

  /**
   A command that ran: the mode of its container, the mode its policy asked for, whether an earlier
   command had changed synced files, the container's files when it started, the tree they should
   hold, and how it ended: in time, too late, or with an exception.
   */
  datatype Ran = Ran(
    containerMode: Mode, policyMode: Mode, tampered: bool,
    start: FileSystem, dest: nat, lost: set<Name>, host: map<Name, Content>, outcome: Option<bool>)

  /** It ran under its policy's mode and, unless an earlier one had tampered, on the host's tree. */
  ghost predicate RanSafely(command: Ran) {
    && command.containerMode == command.policyMode
    && (!command.tampered ==> Matches(command.start, command.dest, command.lost, command.host))
  }

  /** `SetupError` is the result with an error code, whatever raised. */
  datatype CommandResult = Completed(timedOut: bool) | SetupError

  datatype Removal = Removed | Refused | Unexpected

  /** `close` returns, reports Docker errors as one, or passes another exception on. */
  datatype CloseEnd = Closed | CleanupFailed | Escaped

  class Session {
    const settings: Settings
    const requestedMode: Option<string>
    const digest: Content -> Digest
    var client: bool
    var container: Container?
    var mode: Option<Mode>
    var image: FileSystem
    var images: seq<ImageId>
    var workspaces: map<Root, Workspace>
    var closed: bool

    // What happened, for the specification.
    ghost var ran: seq<Ran>
    /** Snapshot images that exist in the engine, and those whose removal failed and was reported. */
    ghost var snapshots: set<ImageId>
    ghost var leaked: set<ImageId>
    /** Some command changed a file that had been synced. */
    ghost var tampered: bool
    /** How many requests Docker refused or broke off, and how many removals, for a Docker reason and for another one. */
    ghost var failures: nat
    ghost var refusals: nat
    ghost var surprises: nat

    constructor (settings: Settings, requestedMode: Option<string>, digest: Content -> Digest, baseImage: FileSystem)
      ensures Valid() && !closed && container == null && ran == [] && snapshots == {} && !tampered
      ensures this.settings == settings && this.requestedMode == requestedMode && this.digest == digest
    {
      this.settings, this.requestedMode, this.digest := settings, requestedMode, digest;
      client, container, mode, image, images, workspaces, closed := false, null, None, baseImage, [], map[], false;
      ran, snapshots, leaked, tampered := [], {}, {}, false;
      failures, refusals, surprises := 0, 0, 0;
    }

    /** The file system commands see, or the one the next container starts from. */
    ghost function Visible(): FileSystem
      reads this, container
    {
      if container == null then image else container.fs
    }

    ghost predicate Valid()
      reads this, container
    {
      && Safe()
      && (!closed && container != null ==> mode == Some(container.mode))
      && (!closed && !tampered ==> Mirrored(digest, workspaces, Visible()))
    }

    /** Docker may refuse or break off any request. */
    method Request() returns (ok: bool)
      modifies this`failures
      ensures failures == old(failures) + if ok then 0 else 1
    {
      ok := *;
      failures := failures + if ok then 0 else 1;
    }

    /** What holds of a session even after a request broke off halfway. */
    ghost predicate Safe()
      reads this
    {
      && (forall i | 0 <= i < |ran| :: RanSafely(ran[i]))
      && snapshots <= (set id | id in images) + leaked
      && (images != [] ==> client)
    }

    /** The Docker client, checked to run Linux containers and to have the image. */
    method Connect() returns (ok: bool)
      modifies this`client, this`failures
      ensures ok ==> client
      ensures if ok then failures == old(failures) else failures > old(failures)
      ensures old(client) ==> client
    {
      ok := true;
      if !client {
        ok := Request();
        if ok {
          client := true;
          ok := Request();
        }
      }
    }

    /** Carries the file system of a container with another network mode into a snapshot image. */
    method Retire() returns (ok: bool)
      requires Safe() && client && container != null
      modifies this`images, this`snapshots, this`image, this`container, this`failures
      ensures Safe()
      ensures if ok then failures == old(failures) else failures > old(failures)
      ensures ok ==> container == null && image == old(container.fs)
      ensures !ok ==> container == old(container)
    {
      ok := Request();
      if !ok {
        return;
      }
      var snapshot: ImageId := *;
      assert forall id | id in images :: id in images + [snapshot];
      assert (images + [snapshot])[|images|] == snapshot;
      images := images + [snapshot];
      snapshots := snapshots + {snapshot};
      image := container.fs;
      ok := Request();
      if ok {
        container := null;
      }
    }

    method EnsureContainer(wanted: Mode) returns (ok: bool)
      requires Valid() && !closed
      modifies this`client, this`images, this`snapshots, this`image, this`container, this`mode, this`failures
      ensures Safe()
      ensures if ok then failures == old(failures) else failures > old(failures)
      ensures ok && old(container) != null && old(container).mode == wanted ==> container == old(container) && images == old(images)
      ensures ok ==> Valid() && container != null && container.mode == wanted && Visible() == old(Visible())
      ensures container != null ==> container == old(container) || fresh(container)
    {
      ok := Connect();
      if !ok {
        return;
      }
      if container != null && mode != Some(wanted) {
        ok := Retire();
        if !ok {
          return;
        }
      }
      if container == null {
        ok := Launch(wanted);
      }
    }

    /** A new container on the current image; it exists even if it does not start. */
    method Launch(wanted: Mode) returns (ok: bool)
      requires container == null
      modifies this`container, this`mode, this`failures
      ensures if ok then failures == old(failures) else failures > old(failures)
      ensures container != null ==> fresh(container) && container.mode == wanted && container.fs == image
      ensures ok ==> container != null && mode == Some(wanted)
    {
      ok := Request();
      if !ok {
        return;
      }
      container := new Container(wanted, image);
      ok := Request();
      if ok {
        mode := Some(wanted);
      }
    }

    /** The digests of the host tree, one file at a time. */
    method DigestTree(host: map<Name, Content>) returns (current: map<Name, Digest>)
      ensures current == Digests(digest, host)
    {
      current := map[];
      var names := host.Keys;
      while names != {}
        invariant names <= host.Keys
        invariant current == map n | n in host && n !in names :: digest(host[n])
        decreases |names|
      {
        var name :| name in names;
        current := current[name := digest(host[name])];
        names := names - {name};
      }
    }

    /** Deletes the files the host lost and uploads those the cache says changed. */
    method Transfer(dest: nat, previous: map<Name, Digest>, current: map<Name, Digest>, host: map<Name, Content>)
      returns (ok: bool)
      requires container != null && current == Digests(digest, host)
      modifies container, this`failures
      ensures if ok then failures == old(failures) else failures > old(failures)
      ensures ok ==> container.fs == Synced(digest, old(container.fs), dest, previous, host)
    {
      SentNames(digest, previous, host);
      var removed := previous.Keys - current.Keys;
      if removed != {} {
        ok := Request();
        if !ok {
          container.fs := *;
          return;
        }
        container.fs := container.fs - At(dest, removed);
      }
      assert container.fs == old(container.fs) - At(dest, removed);
      ok := Request();
      if !ok {
        container.fs := *;
        return;
      }
      var sent := set n | n in current && !(n in previous && previous[n] == current[n]);
      container.fs := container.fs + Placed(dest, sent, host);
    }

    /** A directory no synced workspace uses. */
    method FreshDestination() returns (dest: nat)
      ensures Unused(workspaces, dest)
    {
      FreshDestExists(workspaces);
      dest :| Unused(workspaces, dest);
    }

    /**
     `host` is `None` when the workspace is a link, contains one, or is no directory. The result
     is that of a full copy exactly when the files skipped are intact, which is so unless some
     command changed a synced file.
     */
    method Synchronize(root: Root, host: Option<map<Name, Content>>) returns (ok: bool)
      requires Valid() && !closed && container != null && CollisionFree(digest)
      modifies this`workspaces, this`failures, container
      ensures if ok then failures == old(failures) else host.None? || failures > old(failures)
      ensures ok ==>
                && host.Some? && root in workspaces
                && workspaces == old(workspaces)[root := Workspace(workspaces[root].dest, Digests(digest, host.value))]
                && (root in old(workspaces) ==> workspaces[root].dest == old(workspaces)[root].dest)
                && (container.fs == FullCopy(old(container.fs), workspaces[root].dest, SentBefore(old(workspaces), root), host.value)
                    <==> SkipsAreSafe(digest, old(container.fs), workspaces[root].dest, SentBefore(old(workspaces), root), host.value))
      ensures ok && !tampered ==>
                && Mirrored(digest, workspaces, container.fs)
                && container.fs == FullCopy(old(container.fs), workspaces[root].dest, SentBefore(old(workspaces), root), host.value)
      ensures ok && !tampered ==>
                var names := SentBefore(old(workspaces), root).Keys;
                && Matches(container.fs, workspaces[root].dest, names - host.value.Keys, host.value)
                && OthersUntouched(old(container.fs), container.fs, workspaces[root].dest, names + host.value.Keys)
    {
      if host.None? {
        return false;
      }
      var dest, previous := 0, map[];
      if root in workspaces {
        dest, previous := workspaces[root].dest, workspaces[root].digests;
      } else {
        dest := FreshDestination();
      }
      var current := DigestTree(host.value);
      ghost var fs := container.fs;
      ok := Transfer(dest, previous, current, host.value);
      if ok {
        IncrementalEqualsFullCopyIff(digest, fs, dest, previous, host.value);
        if !tampered { SyncedFully(digest, workspaces, fs, root, dest, previous, host.value); }
        workspaces := workspaces[root := Workspace(dest, current)];
      }
    }

    /** The command itself: any effect on the container's files, any outcome; `None` is an exception. */
    method RunCommand() returns (timedOut: Option<bool>)
      requires container != null
      modifies container, this`tampered
      ensures tampered == (old(tampered) || AnyOverwritten(workspaces, old(container.fs), container.fs))
    {
      ghost var before := container.fs;
      container.fs := *;
      tampered := tampered || AnyOverwritten(workspaces, before, container.fs);
      var raised: bool, late: bool := *, *;
      return if raised then None else Some(late);
    }

    /** A container with the wanted network mode whose copy of the workspace is the host's tree. */
    method Prepare(root: Root, host: Option<map<Name, Content>>, wanted: Mode) returns (ready: bool)
      requires Valid() && !closed && CollisionFree(digest)
      modifies this`client, this`images, this`snapshots, this`image, this`container, this`mode, this`workspaces
      modifies this`failures, container
      ensures Safe()
      ensures !ready ==> host.None? || failures > old(failures)
      ensures container != null ==> container == old(container) || fresh(container)
      ensures ready ==> Valid() && container != null && container.mode == wanted && host.Some? && root in workspaces
                         && workspaces[root].digests.Keys == host.value.Keys
      ensures ready && !tampered ==>
                && container.fs == FullCopy(old(Visible()), workspaces[root].dest, SentBefore(old(workspaces), root), host.value)
                && Matches(container.fs, workspaces[root].dest, SentBefore(old(workspaces), root).Keys - host.value.Keys, host.value)
    {
      ready := EnsureContainer(wanted);
      if ready {
        ready := Synchronize(root, host);
      }
    }

    /** Runs the command in the prepared container; a timeout or an exception closes the session. */
    method RunReady(root: Root, host: map<Name, Content>, wanted: Mode, ghost lost: set<Name>) returns (timedOut: Option<bool>)
      requires Valid() && !closed && container != null && container.mode == wanted
      requires root in workspaces && workspaces[root].digests.Keys == host.Keys
      requires !tampered ==> Matches(container.fs, workspaces[root].dest, lost, host)
      modifies this`ran, this`tampered, this`closed, container
      ensures Valid()
      ensures ran == old(ran) + [Ran(wanted, wanted, old(tampered), old(container.fs), workspaces[root].dest, lost, host, timedOut)]
      ensures closed <==> timedOut.None? || timedOut.value
      ensures !tampered ==> !old(tampered) && HasTree(container.fs, workspaces[root].dest, host)
    {
      ghost var synced, before := container.fs, tampered;
      timedOut := RunCommand();
      if !tampered {
        UntouchedStaysMirrored(digest, workspaces, synced, container.fs);
        UntouchedTreeStays(workspaces, synced, container.fs, root, host);
      }
      ran := ran + [Ran(container.mode, wanted, before, synced, workspaces[root].dest, lost, host, timedOut)];
      closed := timedOut.None? || timedOut.value;
    }

    /** The command ran, started on these files, for this tree. */
    ghost predicate RanOn(before: seq<Ran>, root: Root, host: map<Name, Content>, sent: map<Name, Digest>, files: FileSystem)
      reads this, container
    {
      && container != null && root in workspaces && |ran| == |before| + 1 && ran == before + [ran[|before|]]
      && var command := ran[|before|];
         && command.containerMode == container.mode && command.host == host && command.dest == workspaces[root].dest
         && command.lost == sent.Keys - host.Keys
         && (!command.tampered ==> command.start == FullCopy(files, command.dest, sent, host))
    }

    /**
     Runs a command in a container whose network mode is the one the policy asks for, and which is
     a full copy of the host's tree over the files that were there, unless an earlier command
     changed synced files; after a timeout or an error the session is closed, and a closed
     session runs nothing.
     */
    method Execute(root: Root, host: Option<map<Name, Content>>, phase: string) returns (result: CommandResult)
      requires Valid() && CollisionFree(digest)
      modifies this, container
      ensures Valid()
      ensures container != null ==> container == old(container) || fresh(container)
      ensures closed <==> result.SetupError? || result.timedOut
      ensures old(closed) ==> ran == old(ran)
      ensures ran == old(ran) ==>
                old(closed) || EffectiveMode(settings, phase, requestedMode).None? || host.None? || failures > old(failures)
      ensures leaked == old(leaked)
      ensures result == if |ran| <= |old(ran)| || ran[|old(ran)|].outcome.None? then SetupError
                        else Completed(ran[|old(ran)|].outcome.value)
      ensures ran != old(ran) ==>
                && !old(closed) && host.Some? && RanOn(old(ran), root, host.value, SentBefore(old(workspaces), root), old(Visible()))
                && ran[|old(ran)|].tampered == old(tampered)
                && Some(container.mode) == EffectiveMode(settings, phase, requestedMode)
      ensures result.Completed? && !tampered ==>
                host.Some? && root in workspaces && HasTree(container.fs, workspaces[root].dest, host.value)
    {
      var policy := EffectiveMode(settings, phase, requestedMode);
      if policy.None? || closed {
        closed := true;
        return SetupError;
      }
      ghost var sent := SentBefore(workspaces, root);
      var ready := Prepare(root, host, policy.value);
      if !ready {
        closed := true;
        return SetupError;
      }
      var timedOut := RunReady(root, host.value, policy.value, sent.Keys - host.value.Keys);
      if timedOut.None? {
        return SetupError;
      }
      return Completed(timedOut.value);
    }

    /** Docker removes a container or an image, refuses, or the call raises something else. */
    method Remove() returns (outcome: Removal)
      modifies this`refusals, this`surprises
      ensures refusals == old(refusals) + if outcome.Refused? then 1 else 0
      ensures surprises == old(surprises) + if outcome.Unexpected? then 1 else 0
    {
      outcome := *;
      refusals := refusals + if outcome.Refused? then 1 else 0;
      surprises := surprises + if outcome.Unexpected? then 1 else 0;
    }

    /**
     Removes the container and every snapshot image. Unless an image removal raised something other
     than a Docker error, each image the session ever made is gone afterwards, or its removal
     failed and the failure is reported; after such an exception the images are still listed and
     the client is kept, so that closing again tries again.
     */
    method Close() returns (end: CloseEnd)
      requires Valid()
      modifies this
      ensures Valid() && closed && ran == old(ran)
      ensures end.Closed? ==> snapshots <= old(leaked) && leaked == old(leaked) && container == null
      ensures end.Escaped? <==> surprises > old(surprises)
      ensures end.CleanupFailed? <==> surprises == old(surprises) && refusals > old(refusals)
      ensures !end.Escaped? ==> images == []
      ensures images == [] ==> snapshots <= leaked && !(old(client) && client)
      ensures images != [] ==> images == old(images) && client && snapshots <= (set id | id in images) + leaked
      ensures old(leaked) <= leaked && |leaked| <= |old(leaked)| + refusals - old(refusals)
    {
      closed := true;
      var removed := RemoveContainer();
      var failed := removed == Refused;
      if client {
        var some, escaped := RemoveImages();
        if escaped {
          return Escaped;
        }
        failed := failed || some;
        images := [];
        client := false;
      }
      return if removed == Unexpected then Escaped else if failed then CleanupFailed else Closed;
    }

    method RemoveContainer() returns (removed: Removal)
      modifies this`container, this`refusals, this`surprises
      ensures removed.Removed? <==> container == null
      ensures refusals == old(refusals) + if removed.Refused? then 1 else 0
      ensures surprises == old(surprises) + if removed.Unexpected? then 1 else 0
    {
      if container == null {
        return Removed;
      }
      removed := Remove();
      if removed == Removed {
        container := null;
      }
    }

    /** The snapshot images, newest first: whether Docker refused some, and whether another exception ended the loop. */
    method RemoveImages() returns (failed: bool, escaped: bool)
      requires snapshots <= (set id | id in images) + leaked
      modifies this`snapshots, this`leaked, this`refusals, this`surprises
      ensures snapshots <= (set id | id in images) + leaked
      ensures !escaped ==> snapshots <= leaked && surprises == old(surprises)
      ensures escaped ==> surprises > old(surprises) && images != []
      ensures refusals >= old(refusals) && (failed <==> refusals > old(refusals)) && (!failed ==> leaked == old(leaked))
      ensures old(leaked) <= leaked && |leaked| <= |old(leaked)| + refusals - old(refusals)
    {
      var i := |images|;
      failed := false;
      assert images[..i] == images;
      while i > 0
        invariant 0 <= i <= |images|
        invariant snapshots <= (set id | id in images[..i]) + leaked
        invariant snapshots <= (set id | id in images) + leaked
        invariant surprises == old(surprises) && refusals >= old(refusals)
        invariant (failed <==> refusals > old(refusals)) && (!failed ==> leaked == old(leaked))
        invariant old(leaked) <= leaked && |leaked| <= |old(leaked)| + refusals - old(refusals)
      {
        i := i - 1;
        assert images[..i + 1] == images[..i] + [images[i]];
        var removed := Remove();
        match removed
        case Removed => snapshots := snapshots - {images[i]};
        case Refused =>
          leaked := leaked + {images[i]};
          failed := true;
        case Unexpected => return failed, true;
      }
      return failed, false;
    }
  }

  predicate Unused(workspaces: map<Root, Workspace>, dest: nat) {
    forall r | r in workspaces :: workspaces[r].dest != dest
  }

  ghost function LargestDest(ws: set<Workspace>): (n: nat)
    ensures forall w | w in ws :: w.dest <= n
  {
    if ws == {} then 0
    else
      var w: Workspace :| w in ws;
      var rest := LargestDest(ws - {w});
      if w.dest > rest then w.dest else rest
  }

  lemma FreshDestExists(workspaces: map<Root, Workspace>)
    ensures exists dest: nat :: Unused(workspaces, dest)
  {
    var dest := LargestDest(workspaces.Values) + 1;
    forall r | r in workspaces ensures workspaces[r].dest != dest {
      assert workspaces[r] in workspaces.Values;
    }
    assert Unused(workspaces, dest);
  }
}
