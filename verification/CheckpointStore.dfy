/** Checkpoint publication (`checkpoints/store.py`, `checkpoints/_files.py`) as steps of racing writers
    over a file system that a crash can interrupt between any two of them.

    A bundle directory is a node. A node has one place at a time (staging, committed under an id, or
    gone), so a rename is atomic; the place a crash returns it to is the last one synced, or the
    current one. A node is stable once its files and directories are synced: a crash leaves a stable
    node as it is and may leave anything in another. */
module CheckpointStore {
  import opened Util

  type Id = string
  type Digest = string
  type Path = seq<string>

  /** What a manifest declares: the checkpoint's id, its files by size and digest, and the rest. */
  datatype Manifest = Manifest(id: Id, files: map<Path, (nat, Digest)>, rest: string)

  /** Reading and digesting: `manifest.json` as text, a file's digest, and a manifest's own digest. */
  datatype Format = Format(
    render: Manifest -> string, parse: string -> Option<Manifest>, hash: string -> Digest, fingerprint: Manifest -> Digest)

  ghost predicate Faithful(fmt: Format) {
    && (forall m :: fmt.parse(fmt.render(m)) == Some(m))
    && (forall m, n :: fmt.fingerprint(m) == fmt.fingerprint(n) ==> m == n)
  }

  // ---- bundles ---------------------------------------------------------------------------------

  datatype File = File(content: string, synced: bool)

  /** A bundle directory: its files, its `manifest.json`, and the directories whose entries are not yet durable. */
  datatype Node = Node(files: map<Path, File>, manifest: Option<File>, unsynced: set<Path>)

  const EMPTY_NODE := Node(map[], None, {[]})

  predicate Stable(n: Node) {
    && (forall p :: p in n.files ==> n.files[p].synced)
    && (n.manifest.Some? ==> n.manifest.value.synced)
    && n.unsynced == {}
  }

  /** `_manifest(directory)`. */
  function ManifestOf(fmt: Format, n: Node): Option<Manifest> {
    if n.manifest.None? then None else fmt.parse(n.manifest.value.content)
  }

  /** `verify(directory, manifest)`: the files there are exactly those declared, with their sizes and digests. */
  predicate Verifies(fmt: Format, n: Node, m: Manifest) {
    && n.files.Keys == m.files.Keys
    && forall p :: p in n.files ==> m.files[p] == (|n.files[p].content|, fmt.hash(n.files[p].content))
  }

  /** A complete bundle: its manifest is readable, names *id* and describes what is there. */
  predicate Complete(fmt: Format, n: Node, id: Id) {
    && ManifestOf(fmt, n).Some?
    && ManifestOf(fmt, n).value.id == id
    && Verifies(fmt, n, ManifestOf(fmt, n).value)
  }

  function DigestOf(fmt: Format, n: Node): Digest
    requires ManifestOf(fmt, n).Some?
  {
    fmt.fingerprint(ManifestOf(fmt, n).value)
  }

  /** The directories a file's path goes through, the bundle's own first. */
  function Ancestors(p: Path): set<Path> {
    set k | 0 <= k < |p| :: p[..k]
  }

  // ---- the state -------------------------------------------------------------------------------

  datatype Place = Staged | Committed(id: Id) | Gone

  /** A staging reference: what `put_staging` returns and `commit` takes. */
  datatype Ref = Ref(node: nat, id: Id, digest: Digest)

  datatype PutPhase =
    | Copying(todo: set<Path>)
    | Flushing(todo: set<Path>, path: Path)
    | FlushingManifest
    | Verifying
    | SyncingDirs(dirs: set<Path>)
    | SyncingStaging
    | Clearing

  datatype CommitPhase =
    | Checking
    | Inspecting
    | Renaming
    | SyncingCommitted
    | SyncingSource
    | Existing
    | SyncingExisting
    | Discarding
    | Removing
    | SyncingRemoval

  /** Where a writer is: nowhere, in `put_staging`, or in `commit`. */
  datatype Writer = Idle | Putting(node: nat, m: Manifest, put: PutPhase) | Committing(ref: Ref, commit: CommitPhase)

  /** *now* is where each node is, *disk* where a crash may return it. *doomed* are the nodes a replay
      is discarding. *refs* are the references callers hold and *acks* the ids and digests `commit` returned. */
  datatype State = State(
    nodes: map<nat, Node>, now: map<nat, Place>, disk: map<nat, Place>, writers: map<nat, Writer>,
    refs: set<Ref>, acks: set<(Id, Digest)>, doomed: map<nat, Id>)

  const INITIAL := State(map[], map[], map[], map[], {}, {}, map[])

  function At(s: State, w: nat): Writer {
    if w in s.writers then s.writers[w] else Idle
  }

  predicate Taken(s: State, id: Id) {
    exists y :: y in s.now && s.now[y] == Committed(id)
  }

  /** A live writer is building or clearing the node. */
  ghost predicate Owned(s: State, x: nat) {
    exists w :: w in s.writers && s.writers[w].Putting? && s.writers[w].node == x
  }

  // ---- steps -----------------------------------------------------------------------------------

  /** What happens next, with what the step cannot decide for itself. */
  datatype Action =
    | BeginPut(m: Manifest, node: nat)
    | Copy(path: Path, content: string)
    | Flush
    | WriteManifest
    | FlushManifest
    | VerifyStaged
    | SyncDir(dir: Path)
    | SyncRoot
    | ReturnStaged
    | FailPut
    | ClearFile(path: Path)
    | ClearManifest
    | ClearDirectory
    | Adopt(ref: Ref)
    | BeginCommit(ref: Ref)
    | Check
    | Inspect
    | Rename
    | SyncCommitted
    | ReturnCommitted
    | ReadExisting(dest: nat)
    | SyncExisting
    | Discard
    | RemoveFile(path: Path)
    | RemoveManifest
    | RemoveDirectory
    | ReturnReplayed
    | Die

  function SetWriter(s: State, w: nat, wr: Writer): State {
    s.(writers := s.writers[w := wr])
  }

  function SetNode(s: State, x: nat, n: Node): State {
    s.(nodes := s.nodes[x := n])
  }

  /** `sync_directory(committed)`: what is, or was, in it is where it is for good. */
  function SyncCommittedDir(s: State): State {
    s.(disk := map x | x in s.disk && x in s.now ::
                 if s.now[x].Committed? || s.disk[x].Committed? then s.now[x] else s.disk[x])
  }

  /** `sync_directory(staging)`. */
  function SyncStagingDir(s: State): State {
    s.(disk := map x | x in s.disk && x in s.now ::
                 if s.now[x].Staged? || s.disk[x].Staged? then s.now[x] else s.disk[x])
  }

  function AddFile(n: Node, p: Path, content: string): Node {
    n.(files := n.files[p := File(content, false)], unsynced := n.unsynced + Ancestors(p))
  }

  function DropFile(n: Node, p: Path): Node {
    n.(files := n.files - {p}, unsynced := n.unsynced + Ancestors(p))
  }

  /** The nested directories of a bundle. */
  function Directories(n: Node): set<Path> {
    set p, k | p in n.files && 0 < k < |p| :: p[..k]
  }

  /** What one step of `put_staging` makes of its bundle, and where it is then. */
  function Build(fmt: Format, n: Node, m: Manifest, phase: PutPhase, a: Action): Option<(Node, PutPhase)> {
    match (a, phase)
    case (Copy(p, content), Copying(todo)) =>
      if p !in todo || p in n.files then None else Some((AddFile(n, p, content), Flushing(todo, p)))
    case (Flush, Flushing(todo, p)) =>
      if p !in n.files then None
      else Some((n.(files := n.files[p := n.files[p].(synced := true)]), Copying(todo - {p})))
    case (WriteManifest, Copying(todo)) =>
      if todo != {} then None
      else Some((n.(manifest := Some(File(fmt.render(m), false)), unsynced := n.unsynced + {[]}), FlushingManifest))
    case (FlushManifest, FlushingManifest) =>
      if n.manifest.None? then None else Some((n.(manifest := Some(n.manifest.value.(synced := true))), Verifying))
    case (VerifyStaged, Verifying) => Some((n, if Verifies(fmt, n, m) then SyncingDirs(Directories(n)) else Clearing))
    case (SyncDir(d), SyncingDirs(dirs)) =>
      if d !in dirs then None else Some((n.(unsynced := n.unsynced - {d}), SyncingDirs(dirs - {d})))
    case (SyncRoot, SyncingDirs(dirs)) =>
      if dirs != {} then None else Some((n.(unsynced := n.unsynced - {[]}), SyncingStaging))
    case (FailPut, _) => if phase.Clearing? then None else Some((n, Clearing))
    case (ClearFile(p), Clearing) => Some((DropFile(n, p), Clearing))
    case (ClearManifest, Clearing) => Some((n.(manifest := None, unsynced := n.unsynced + {[]}), Clearing))
    case _ => None
  }

  /** One step of *w* inside `put_staging`. */
  function PutStep(fmt: Format, s: State, w: nat, x: nat, m: Manifest, phase: PutPhase, a: Action): Option<State>
    requires x in s.nodes && x in s.now
  {
    match (a, phase)
    case (ReturnStaged, SyncingStaging) =>
      Some(SetWriter(SyncStagingDir(s).(refs := s.refs + {Ref(x, m.id, fmt.fingerprint(m))}), w, Idle))
    case (ClearDirectory, Clearing) => Some(SetWriter(s.(now := s.now[x := Gone]), w, Idle))
    case _ =>
      match Build(fmt, s.nodes[x], m, phase, a)
      case None => None
      case Some((n, next)) => Some(SetWriter(SetNode(s, x, n), w, Putting(x, m, next)))
  }

  /** `commit` up to the rename, and reading a destination that exists. */
  function DecideStep(fmt: Format, s: State, w: nat, r: Ref, phase: CommitPhase, a: Action): Option<State>
    requires r.node in s.nodes && r.node in s.now
  {
    match (a, phase)
    case (Check, Checking) => Some(SetWriter(s, w, Committing(r, if Taken(s, r.id) then Existing else Inspecting)))
    case (Inspect, Inspecting) =>
      var n := s.nodes[r.node];
      var ok := s.now[r.node].Staged? && Complete(fmt, n, r.id) && DigestOf(fmt, n) == r.digest;
      Some(SetWriter(s, w, if ok then Committing(r, Renaming) else Idle))
    case (ReadExisting(y), Existing) =>
      if y !in s.now || y !in s.nodes || s.now[y] != Committed(r.id) then None
      else
        var ok := Complete(fmt, s.nodes[y], r.id) && DigestOf(fmt, s.nodes[y]) == r.digest;
        Some(SetWriter(s, w, if ok then Committing(r, SyncingExisting) else Idle))
    case _ => None
  }

  /** The rename and the syncs after it; the sync after reading a destination that exists. */
  function PublishStep(fmt: Format, s: State, w: nat, r: Ref, phase: CommitPhase, a: Action): Option<State>
    requires r.node in s.nodes && r.node in s.now
  {
    match (a, phase)
    case (Rename, Renaming) =>
      // No replacement: a published directory is not empty, so the rename onto it fails. A source that
      // is gone is another error, whatever the destination, and is raised.
      if !s.now[r.node].Staged? then Some(SetWriter(s, w, Idle))
      else if Taken(s, r.id) then Some(SetWriter(s, w, Committing(r, Existing)))
      else Some(SetWriter(s.(now := s.now[r.node := Committed(r.id)]), w, Committing(r, SyncingCommitted)))
    case (SyncCommitted, SyncingCommitted) => Some(SetWriter(SyncCommittedDir(s), w, Committing(r, SyncingSource)))
    case (SyncExisting, SyncingExisting) => Some(SetWriter(SyncCommittedDir(s), w, Committing(r, Discarding)))
    case (ReturnCommitted, SyncingSource) => Some(Acknowledge(SyncStagingDir(s), w, r))
    case (ReturnReplayed, SyncingRemoval) => Some(Acknowledge(SyncStagingDir(s), w, r))
    case _ => None
  }

  function Acknowledge(s: State, w: nat, r: Ref): State {
    SetWriter(s.(acks := s.acks + {(r.id, r.digest)}), w, Idle)
  }

  /** `_discard_replay`. */
  function DiscardStep(fmt: Format, s: State, w: nat, r: Ref, phase: CommitPhase, a: Action): Option<State>
    requires r.node in s.nodes && r.node in s.now
  {
    var x, n := r.node, s.nodes[r.node];
    if phase.Discarding? then
      if !a.Discard? then None
      else if !s.now[x].Staged? then Some(Acknowledge(s, w, r))
      else if ManifestOf(fmt, n).Some? && DigestOf(fmt, n) == r.digest && Verifies(fmt, n, ManifestOf(fmt, n).value)
      then Some(SetWriter(s.(doomed := s.doomed[x := r.id]), w, Committing(r, Removing)))
      else Some(SetWriter(s, w, Idle))
    else if !phase.Removing? then None
    else if !s.now[x].Staged? then Some(SetWriter(s, w, Idle))
    else
      match a
      case RemoveFile(p) => Some(SetNode(s, x, DropFile(n, p)))
      case RemoveManifest => Some(SetNode(s, x, n.(manifest := None, unsynced := n.unsynced + {[]})))
      case RemoveDirectory => Some(SetWriter(s.(now := s.now[x := Gone]), w, Committing(r, SyncingRemoval)))
      case _ => None
  }

  /** One step of *w* inside `commit`. */
  function CommitStep(fmt: Format, s: State, w: nat, r: Ref, phase: CommitPhase, a: Action): Option<State>
    requires r.node in s.nodes && r.node in s.now
  {
    match phase
    case Checking | Inspecting | Existing => DecideStep(fmt, s, w, r, phase, a)
    case Discarding | Removing => DiscardStep(fmt, s, w, r, phase, a)
    case _ => PublishStep(fmt, s, w, r, phase, a)
  }

  /** A step of *w* when it is in neither method. */
  ghost function Enter(s: State, w: nat, a: Action): Option<State> {
    match a
    case BeginPut(m, x) =>
      // mkdtemp: a fresh directory, not yet durable.
      if x in s.nodes then None
      else Some(SetWriter(s.(nodes := s.nodes[x := EMPTY_NODE], now := s.now[x := Staged], disk := s.disk[x := Gone]),
                          w, Putting(x, m, Copying(m.files.Keys))))
    case Adopt(r) =>
      // A caller may hold a reference to a staging directory an earlier session left durable.
      if r.node in s.nodes && r.node in s.now && s.now[r.node].Staged? && Stable(s.nodes[r.node]) && !Owned(s, r.node)
      then Some(SetWriter(s.(refs := s.refs + {r}), w, Idle))
      else None
    case BeginCommit(r) => if r in s.refs then Some(SetWriter(s, w, Committing(r, Checking))) else None
    case _ => None
  }

  /** The state after *w* takes the step, if it can. A writer can die anywhere. */
  ghost function Do(fmt: Format, s: State, w: nat, a: Action): Option<State> {
    if a.Die? then Some(SetWriter(s, w, Idle))
    else
      match At(s, w)
      case Idle => Enter(s, w, a)
      case Putting(x, m, phase) => if x in s.nodes && x in s.now then PutStep(fmt, s, w, x, m, phase, a) else None
      case Committing(r, phase) => if r.node in s.nodes && r.node in s.now then CommitStep(fmt, s, w, r, phase, a) else None
  }

  /** The machine stops at any moment. Every writer is gone; each node is where it was last synced or
      where it is now; a stable node is unchanged, and anything may be left of another. */
  ghost predicate Crash(s: State, s': State) {
    && s'.nodes.Keys == s.nodes.Keys && s'.now.Keys == s.now.Keys && s'.disk == s'.now
    && (forall x :: x in s.nodes ==> Stable(s'.nodes[x]) && (Stable(s.nodes[x]) ==> s'.nodes[x] == s.nodes[x]))
    && (forall x :: x in s.now && x in s.disk ==> s'.now[x] == s.now[x] || s'.now[x] == s.disk[x])
    && s'.writers == map[] && s'.refs == s.refs && s'.acks == s.acks && s'.doomed == map[]
  }

  ghost predicate Next(fmt: Format, s: State, s': State) {
    Crash(s, s') || exists w: nat, a :: Do(fmt, s, w, a) == Some(s')
  }
}
