/** What every step of publishing checkpoints keeps, and every crash. */
module CheckpointInvariant {
  import opened Util
  import opened CheckpointStore

  // ---- the invariant ---------------------------------------------------------------------------

  /** A published bundle: stable, complete, and under its own id. */
  predicate Sealed(fmt: Format, s: State, x: nat, id: Id) {
    x in s.nodes && Stable(s.nodes[x]) && Complete(fmt, s.nodes[x], id)
  }

  /** *id* is published for good, with this digest. */
  ghost predicate Durable(fmt: Format, s: State, id: Id, digest: Digest) {
    exists y :: y in s.disk && s.disk[y] == Committed(id) && Sealed(fmt, s, y, id) && DigestOf(fmt, s.nodes[y]) == digest
  }

  ghost predicate DurableId(s: State, id: Id) {
    exists y :: y in s.disk && s.disk[y] == Committed(id)
  }

  predicate SameKeys(s: State) {
    s.nodes.Keys == s.now.Keys == s.disk.Keys
  }

  /** Everything committed is sealed, once per id, and what is durably committed is committed. */
  predicate CommittedOk(fmt: Format, s: State) {
    && (forall x :: x in s.now && s.now[x].Committed? ==> Sealed(fmt, s, x, s.now[x].id))
    && (forall x, y :: x in s.now && y in s.now && s.now[x].Committed? && s.now[x] == s.now[y] ==> x == y)
    && (forall x :: x in s.disk && x in s.now && s.disk[x].Committed? ==> s.now[x] == s.disk[x])
  }

  ghost predicate AcksOk(fmt: Format, s: State) {
    forall ack :: ack in s.acks ==> Durable(fmt, s, ack.0, ack.1)
  }

  /** A node a caller can commit is stable, or a replay is discarding it. */
  predicate RefsOk(s: State) {
    forall r :: r in s.refs ==> r.node in s.nodes && r.node in s.now
                                && (s.now[r.node].Staged? && r.node !in s.doomed ==> Stable(s.nodes[r.node]))
  }

  /** A node being discarded: whatever is left of it, its id is published by another node for good. */
  ghost predicate DoomedOk(fmt: Format, s: State) {
    forall x :: x in s.doomed ==>
                  && x in s.nodes && x in s.now && !s.now[x].Committed?
                  && DurableId(s, s.doomed[x])
                  && (ManifestOf(fmt, s.nodes[x]).Some? ==> ManifestOf(fmt, s.nodes[x]).value.id == s.doomed[x])
  }

  /** What a node under construction has so far. */
  predicate PutOk(fmt: Format, n: Node, m: Manifest, phase: PutPhase) {
    && (phase.Clearing? || n.unsynced <= {[]} + Directories(n))
    && match phase
       case Copying(todo) => forall p :: p in n.files ==> n.files[p].synced
       case Flushing(todo, path) => forall p :: p in n.files && p != path ==> n.files[p].synced
       case FlushingManifest =>
         (forall p :: p in n.files ==> n.files[p].synced) && n.manifest.Some? && n.manifest.value.content == fmt.render(m)
       case Verifying =>
         (forall p :: p in n.files ==> n.files[p].synced) && n.manifest == Some(File(fmt.render(m), true))
       case SyncingDirs(dirs) =>
         && (forall p :: p in n.files ==> n.files[p].synced) && n.manifest == Some(File(fmt.render(m), true))
         && Verifies(fmt, n, m) && n.unsynced <= {[]} + dirs
       case SyncingStaging => Stable(n) && n.manifest == Some(File(fmt.render(m), true)) && Verifies(fmt, n, m)
       case Clearing => true
  }

  ghost predicate CommitOk(fmt: Format, s: State, r: Ref, phase: CommitPhase)
    requires r.node in s.nodes && r.node in s.now
  {
    match phase
    case Checking | Inspecting | Existing => true
    case Renaming => Taken(s, r.id) || (Sealed(fmt, s, r.node, r.id) && DigestOf(fmt, s.nodes[r.node]) == r.digest)
                     || !s.now[r.node].Staged?
    case SyncingCommitted => s.now[r.node] == Committed(r.id) && DigestIs(fmt, s, r.node, r.digest)
    case SyncingSource => Durable(fmt, s, r.id, r.digest)
    case SyncingExisting => exists y :: y in s.now && s.now[y] == Committed(r.id) && DigestIs(fmt, s, y, r.digest)
    case Discarding | SyncingRemoval => Durable(fmt, s, r.id, r.digest)
    case Removing => Durable(fmt, s, r.id, r.digest) && r.node in s.doomed
  }

  predicate DigestIs(fmt: Format, s: State, x: nat, digest: Digest) {
    x in s.nodes && ManifestOf(fmt, s.nodes[x]).Some? && DigestOf(fmt, s.nodes[x]) == digest
  }

  predicate Publishable(fmt: Format, s: State, r: Ref) {
    Sealed(fmt, s, r.node, r.id) && DigestOf(fmt, s.nodes[r.node]) == r.digest
  }

  /** What a writer's place in the code promises. */
  ghost predicate WriterOk(fmt: Format, s: State, wr: Writer) {
    match wr
    case Idle => true
    case Putting(x, m, phase) =>
      && x in s.nodes && x in s.now && s.now[x].Staged? && x !in s.doomed
      && (forall r :: r in s.refs ==> r.node != x)
      && PutOk(fmt, s.nodes[x], m, phase)
    case Committing(r, phase) => r in s.refs && r.node in s.nodes && r.node in s.now && CommitOk(fmt, s, r, phase)
  }

  /** Every writer is in order, and no two build the same node. */
  ghost predicate WritersOk(fmt: Format, s: State) {
    && (forall w :: w in s.writers ==> WriterOk(fmt, s, s.writers[w]))
    && (forall v, w :: v in s.writers && w in s.writers && v != w && s.writers[v].Putting? && s.writers[w].Putting? ==>
          s.writers[v].node != s.writers[w].node)
  }

  ghost predicate Inv(fmt: Format, s: State) {
    SameKeys(s) && CommittedOk(fmt, s) && AcksOk(fmt, s) && RefsOk(s) && DoomedOk(fmt, s) && WritersOk(fmt, s)
  }

  // ---- every step keeps the invariant --------------------------------------------------------------

  /** What is durably committed stays so, untouched. */
  ghost predicate Kept(s: State, s': State) {
    forall y :: y in s.disk && s.disk[y].Committed? ==>
                  && y in s'.disk && s'.disk[y] == s.disk[y]
                  && (y in s.nodes ==> y in s'.nodes && s'.nodes[y] == s.nodes[y])
  }

  lemma KeptDurable(fmt: Format, s: State, s': State, id: Id, digest: Digest)
    requires Kept(s, s') && Durable(fmt, s, id, digest)
    ensures Durable(fmt, s', id, digest)
  {
    var y :| y in s.disk && s.disk[y] == Committed(id) && Sealed(fmt, s, y, id) && DigestOf(fmt, s.nodes[y]) == digest;
    assert Sealed(fmt, s', y, id);
  }

  lemma KeptAcks(fmt: Format, s: State, s': State)
    requires Kept(s, s') && AcksOk(fmt, s) && s'.acks == s.acks
    ensures AcksOk(fmt, s')
  {
    forall ack | ack in s'.acks ensures Durable(fmt, s', ack.0, ack.1) { KeptDurable(fmt, s, s', ack.0, ack.1); }
  }

  /** Nothing but node *x* changed, and not even that if it is committed. */
  ghost predicate Undisturbed(s: State, s': State, x: nat) {
    && Kept(s, s') && s.refs <= s'.refs && s.doomed.Keys <= s'.doomed.Keys
    && (forall y :: y in s.nodes ==> y in s'.nodes && (y != x ==> s'.nodes[y] == s.nodes[y]))
    && (forall y :: y in s.now ==> y in s'.now && (y != x ==> s'.now[y] == s.now[y]))
    && (x in s.now && s.now[x].Committed? ==> s'.now[x] == s.now[x] && (x in s.nodes ==> s'.nodes[x] == s.nodes[x]))
  }

  /** Nothing but node *x*, uncommitted before and after, was written or moved. */
  predicate OnlyNode(s: State, s': State, x: nat) {
    && x in s.now && !s.now[x].Committed? && x in s'.nodes && x in s'.now && !s'.now[x].Committed?
    && s'.nodes == s.nodes[x := s'.nodes[x]] && s'.now == s.now[x := s'.now[x]]
    && (s'.disk == s.disk || s'.disk == SyncStagingDir(s).disk)
  }

  lemma OnlyNodeKept(fmt: Format, s: State, s': State, x: nat)
    requires SameKeys(s) && CommittedOk(fmt, s) && OnlyNode(s, s', x)
    ensures Kept(s, s') && SameKeys(s')
  {
    forall y | y in s.disk && s.disk[y].Committed? ensures y in s'.disk && s'.disk[y] == s.disk[y] && y != x {
      assert s.now[y] == s.disk[y];
    }
  }

  lemma OnlyNodeCommitted(fmt: Format, s: State, s': State, x: nat)
    requires SameKeys(s) && CommittedOk(fmt, s) && OnlyNode(s, s', x) && SameKeys(s')
    ensures CommittedOk(fmt, s')
  {
    forall y | y in s'.now && s'.now[y].Committed? ensures Sealed(fmt, s', y, s'.now[y].id) && y != x {
      assert Sealed(fmt, s, y, s.now[y].id);
    }
    forall y | y in s'.disk && y in s'.now && s'.disk[y].Committed? ensures s'.now[y] == s'.disk[y] {
      assert y in s.disk && y in s.now;
    }
  }

  lemma OnlyNodeUndisturbed(s: State, s': State, x: nat)
    requires OnlyNode(s, s', x) && Kept(s, s') && s.refs <= s'.refs && s'.doomed == s.doomed
    ensures Undisturbed(s, s', x)
  {
  }

  /** Changing an uncommitted node, and where it is, leaves the committed ones alone. */
  lemma OneNodeChanged(fmt: Format, s: State, s': State, x: nat)
    requires SameKeys(s) && CommittedOk(fmt, s) && OnlyNode(s, s', x)
    requires s.refs <= s'.refs && s'.doomed == s.doomed
    ensures Undisturbed(s, s', x) && SameKeys(s') && CommittedOk(fmt, s')
  {
    OnlyNodeKept(fmt, s, s', x);
    OnlyNodeCommitted(fmt, s, s', x);
    OnlyNodeUndisturbed(s, s', x);
  }

  predicate IsRenaming(wr: Writer, x: nat) {
    wr.Committing? && wr.commit.Renaming? && wr.ref.node == x
  }

  lemma OtherWriterOk(fmt: Format, s: State, s': State, x: nat, wr: Writer)
    requires SameKeys(s) && Undisturbed(s, s', x) && WriterOk(fmt, s, wr)
    requires wr.Putting? ==> wr.node != x && wr.node !in s'.doomed && forall r :: r in s'.refs ==> r.node != wr.node
    requires IsRenaming(wr, x) ==> CommitOk(fmt, s', wr.ref, Renaming)
    ensures WriterOk(fmt, s', wr)
  {
    if wr.Committing? {
      var r := wr.ref;
      match wr.commit {
        case Renaming =>
          if Taken(s, r.id) { var y :| y in s.now && s.now[y] == Committed(r.id); assert s'.now[y] == Committed(r.id); }
        case SyncingExisting =>
          var y :| y in s.now && s.now[y] == Committed(r.id) && DigestIs(fmt, s, y, r.digest);
          assert s'.now[y] == Committed(r.id) && DigestIs(fmt, s', y, r.digest);
        case SyncingSource | Discarding | SyncingRemoval | Removing => KeptDurable(fmt, s, s', r.id, r.digest);
        case _ =>
      }
    }
  }

  lemma BuildOk(fmt: Format, n: Node, m: Manifest, phase: PutPhase, a: Action, n': Node, next: PutPhase)
    requires PutOk(fmt, n, m, phase) && Build(fmt, n, m, phase, a) == Some((n', next))
    ensures PutOk(fmt, n', m, next)
  {
    match a
    case Copy(p, _) =>
      forall d | d in n'.unsynced ensures d == [] || d in Directories(n') {
        if d in Ancestors(p) { var k :| 0 <= k < |p| && p[..k] == d; }
      }
    case Flush => assert Directories(n') == Directories(n);
    case WriteManifest => assert Directories(n') == Directories(n);
    case FlushManifest => assert Directories(n') == Directories(n);
    case SyncDir(_) => assert Directories(n') == Directories(n);
    case SyncRoot => assert Directories(n') == Directories(n);
    case _ =>
  }

  /** No writer but *w* builds node *x* or one that is referred to or being discarded now, and those that are
      about to rename *x* still may. */
  ghost predicate OthersClear(fmt: Format, s: State, s': State, w: nat, x: nat)
    requires SameKeys(s')
  {
    && (forall v :: v in s.writers && v != w && s.writers[v].Putting? ==>
          && s.writers[v].node != x && s.writers[v].node !in s'.doomed
          && forall r :: r in s'.refs ==> r.node != s.writers[v].node)
    && (forall v :: v in s.writers && v != w && IsRenaming(s.writers[v], x) ==>
          x in s'.nodes && CommitOk(fmt, s', s.writers[v].ref, Renaming))
  }

  /** The writers' invariant, when one writer moved and touched node *x* only. */
  lemma WritersKept(fmt: Format, s: State, s': State, w: nat, x: nat, wr: Writer)
    requires SameKeys(s) && SameKeys(s') && Undisturbed(s, s', x) && WritersOk(fmt, s) && OthersClear(fmt, s, s', w, x)
    requires s'.writers == s.writers[w := wr] && WriterOk(fmt, s', wr)
    requires wr.Putting? ==> wr.node == x
    ensures WritersOk(fmt, s')
  {
    forall v | v in s'.writers ensures WriterOk(fmt, s', s'.writers[v]) {
      if v != w { OtherWriterOk(fmt, s, s', x, s.writers[v]); }
    }
  }

  lemma DoomedKept(fmt: Format, s: State, s': State, x: nat)
    requires SameKeys(s) && Undisturbed(s, s', x) && DoomedOk(fmt, s) && s'.doomed == s.doomed
    requires x in s.doomed ==>
               && x in s'.now && !s'.now[x].Committed?
               && (ManifestOf(fmt, s'.nodes[x]).Some? ==> ManifestOf(fmt, s'.nodes[x]) == ManifestOf(fmt, s.nodes[x]))
    ensures DoomedOk(fmt, s')
  {
    forall y | y in s'.doomed ensures DurableId(s', s'.doomed[y]) {
      var z :| z in s.disk && s.disk[z] == Committed(s.doomed[y]);
      assert s'.disk[z] == s.disk[z];
    }
  }

  /** What a writer in `put_staging` may rely on. */
  lemma PutWriter(fmt: Format, s: State, w: nat, x: nat, m: Manifest, phase: PutPhase)
    requires WritersOk(fmt, s) && At(s, w) == Putting(x, m, phase)
    ensures x in s.nodes && x in s.now && s.now[x].Staged? && x !in s.doomed && PutOk(fmt, s.nodes[x], m, phase)
    ensures forall r :: r in s.refs ==> r.node != x
  {
    assert WriterOk(fmt, s, s.writers[w]);
  }

  lemma PutOthers(fmt: Format, s: State, s': State, w: nat, x: nat, m: Manifest, phase: PutPhase)
    requires WritersOk(fmt, s) && At(s, w) == Putting(x, m, phase) && SameKeys(s')
    requires s'.doomed == s.doomed && forall r :: r in s'.refs ==> r in s.refs || r.node == x
    ensures OthersClear(fmt, s, s', w, x)
  {
    PutWriter(fmt, s, w, x, m, phase);
    forall v | v in s.writers && v != w && s.writers[v].Putting?
      ensures s.writers[v].node != x && s.writers[v].node !in s'.doomed
      ensures forall r :: r in s'.refs ==> r.node != s.writers[v].node
    {
      assert WriterOk(fmt, s, s.writers[v]);
    }
    forall v | v in s.writers && v != w && s.writers[v].Committing? ensures s.writers[v].ref.node != x {
      assert WriterOk(fmt, s, s.writers[v]);
    }
  }

  lemma PutRefs(s: State, s': State, x: nat)
    requires SameKeys(s') && RefsOk(s) && Undisturbed(s, s', x) && s'.doomed == s.doomed && x in s'.nodes
    requires forall r :: r in s.refs ==> r.node != x
    requires forall r :: r in s'.refs ==> r in s.refs || (r.node == x && Stable(s'.nodes[x]))
    ensures RefsOk(s')
  {
  }

  /** A step in `put_staging` changed the writer's own node at most, and may have handed it out, stable. */
  predicate PutStepped(fmt: Format, s: State, s': State, w: nat, x: nat, wr: Writer) {
    && OnlyNode(s, s', x) && s'.acks == s.acks && s'.doomed == s.doomed && s'.writers == s.writers[w := wr]
    && s.refs <= s'.refs && (forall r :: r in s'.refs ==> r in s.refs || (r.node == x && Stable(s'.nodes[x])))
    && (wr.Idle? || (wr.Putting? && wr.node == x && s'.now[x].Staged? && s'.refs == s.refs && PutOk(fmt, s'.nodes[x], wr.m, wr.put)))
  }

  lemma PutSteppedKeepsInv(fmt: Format, s: State, w: nat, x: nat, m: Manifest, phase: PutPhase, wr: Writer, s': State)
    requires Inv(fmt, s) && At(s, w) == Putting(x, m, phase) && PutStepped(fmt, s, s', w, x, wr)
    ensures Inv(fmt, s') && Kept(s, s') && s.acks <= s'.acks
  {
    PutWriter(fmt, s, w, x, m, phase);
    OneNodeChanged(fmt, s, s', x);
    PutRefs(s, s', x);
    KeptAcks(fmt, s, s');
    DoomedKept(fmt, s, s', x);
    PutOthers(fmt, s, s', w, x, m, phase);
    WritersKept(fmt, s, s', w, x, wr);
  }

  lemma BuildKeepsInv(fmt: Format, s: State, w: nat, x: nat, m: Manifest, phase: PutPhase, a: Action, s': State)
    requires Inv(fmt, s) && At(s, w) == Putting(x, m, phase) && x in s.nodes && x in s.now
    requires !(a.ReturnStaged? && phase.SyncingStaging?) && !(a.ClearDirectory? && phase.Clearing?)
    requires PutStep(fmt, s, w, x, m, phase, a) == Some(s')
    ensures Inv(fmt, s') && Kept(s, s') && s.acks <= s'.acks
  {
    PutWriter(fmt, s, w, x, m, phase);
    var wr := BuildStepped(fmt, s, w, x, m, phase, a, s');
    PutSteppedKeepsInv(fmt, s, w, x, m, phase, wr, s');
  }

  lemma BuildStepped(fmt: Format, s: State, w: nat, x: nat, m: Manifest, phase: PutPhase, a: Action, s': State) returns (wr: Writer)
    requires x in s.nodes && x in s.now && s.now[x].Staged? && PutOk(fmt, s.nodes[x], m, phase)
    requires !(a.ReturnStaged? && phase.SyncingStaging?) && !(a.ClearDirectory? && phase.Clearing?)
    requires PutStep(fmt, s, w, x, m, phase, a) == Some(s')
    ensures PutStepped(fmt, s, s', w, x, wr)
  {
    var (n, next) := Build(fmt, s.nodes[x], m, phase, a).value;
    BuildOk(fmt, s.nodes[x], m, phase, a, n, next);
    wr := Putting(x, m, next);
    assert s.now == s.now[x := s.now[x]];
  }

  lemma ReturnStagedKeepsInv(fmt: Format, s: State, w: nat, x: nat, m: Manifest, s': State)
    requires Inv(fmt, s) && At(s, w) == Putting(x, m, SyncingStaging)
    requires x in s.nodes && x in s.now && PutStep(fmt, s, w, x, m, SyncingStaging, ReturnStaged) == Some(s')
    ensures Inv(fmt, s') && Kept(s, s') && s.acks <= s'.acks
  {
    PutWriter(fmt, s, w, x, m, SyncingStaging);
    ReturnStagedStepped(fmt, s, w, x, m, s');
    PutSteppedKeepsInv(fmt, s, w, x, m, SyncingStaging, Idle, s');
  }

  lemma ReturnStagedStepped(fmt: Format, s: State, w: nat, x: nat, m: Manifest, s': State)
    requires x in s.nodes && x in s.now && s.now[x].Staged? && Stable(s.nodes[x])
    requires s' == SetWriter(SyncStagingDir(s).(refs := s.refs + {Ref(x, m.id, fmt.fingerprint(m))}), w, Idle)
    ensures PutStepped(fmt, s, s', w, x, Idle)
  {
    assert s.now == s.now[x := s.now[x]] && s.nodes == s.nodes[x := s.nodes[x]];
  }

  lemma ClearKeepsInv(fmt: Format, s: State, w: nat, x: nat, m: Manifest, s': State)
    requires Inv(fmt, s) && At(s, w) == Putting(x, m, Clearing) && x in s.nodes && x in s.now
    requires PutStep(fmt, s, w, x, m, Clearing, ClearDirectory) == Some(s')
    ensures Inv(fmt, s') && Kept(s, s') && s.acks <= s'.acks
  {
    PutWriter(fmt, s, w, x, m, Clearing);
    assert s.nodes == s.nodes[x := s.nodes[x]];
    PutSteppedKeepsInv(fmt, s, w, x, m, Clearing, Idle, s');
  }

  lemma PutKeepsInv(fmt: Format, s: State, w: nat, x: nat, m: Manifest, phase: PutPhase, a: Action, s': State)
    requires Inv(fmt, s) && At(s, w) == Putting(x, m, phase)
    requires x in s.nodes && x in s.now && PutStep(fmt, s, w, x, m, phase, a) == Some(s')
    ensures Inv(fmt, s') && Kept(s, s') && s.acks <= s'.acks
  {
    if a.ReturnStaged? && phase.SyncingStaging? {
      ReturnStagedKeepsInv(fmt, s, w, x, m, s');
    } else if a.ClearDirectory? && phase.Clearing? {
      ClearKeepsInv(fmt, s, w, x, m, s');
    } else {
      BuildKeepsInv(fmt, s, w, x, m, phase, a, s');
    }
  }

  /** Nothing moved and no bundle changed; at most, places became durable. */
  predicate Still(s: State, s': State) {
    && s'.nodes == s.nodes && s'.now == s.now && s'.refs == s.refs && s.doomed.Keys <= s'.doomed.Keys
    && s'.disk.Keys == s.disk.Keys
    && forall y :: y in s.disk && y in s.now ==> s'.disk[y] == s.disk[y] || s'.disk[y] == s.now[y]
  }

  lemma StillKept(fmt: Format, s: State, s': State)
    requires SameKeys(s) && CommittedOk(fmt, s) && Still(s, s')
    ensures Kept(s, s') && CommittedOk(fmt, s') && SameKeys(s')
  {
    forall y | y in s'.now && s'.now[y].Committed? ensures Sealed(fmt, s', y, s'.now[y].id) {
      assert Sealed(fmt, s, y, s.now[y].id);
    }
  }

  lemma StillDoomed(fmt: Format, s: State, s': State)
    requires DoomedOk(fmt, s) && Still(s, s') && Kept(s, s') && s'.doomed == s.doomed
    ensures DoomedOk(fmt, s')
  {
    forall x | x in s'.doomed ensures DurableId(s', s'.doomed[x]) {
      var z :| z in s.disk && s.disk[z] == Committed(s.doomed[x]);
      assert s'.disk[z] == s.disk[z];
    }
  }

  /** What a writer in `commit` may rely on. */
  lemma CommitWriter(fmt: Format, s: State, w: nat, r: Ref, phase: CommitPhase)
    requires WritersOk(fmt, s) && At(s, w) == Committing(r, phase)
    ensures r in s.refs && r.node in s.nodes && r.node in s.now && CommitOk(fmt, s, r, phase)
  {
    assert WriterOk(fmt, s, s.writers[w]);
  }

  /** No writer in `put_staging` builds a node that is referred to or being discarded. */
  lemma PuttersClear(fmt: Format, s: State, s': State, r: Ref)
    requires WritersOk(fmt, s) && r in s.refs && s'.refs == s.refs && forall x :: x in s'.doomed ==> x in s.doomed || x == r.node
    ensures forall v :: v in s.writers && s.writers[v].Putting? ==>
                          && s.writers[v].node != r.node && s.writers[v].node !in s'.doomed
                          && forall q :: q in s'.refs ==> q.node != s.writers[v].node
  {
    forall v | v in s.writers && s.writers[v].Putting?
      ensures s.writers[v].node != r.node && s.writers[v].node !in s'.doomed
      ensures forall q :: q in s'.refs ==> q.node != s.writers[v].node
    {
      assert WriterOk(fmt, s, s.writers[v]);
    }
  }

  lemma StillOthers(fmt: Format, s: State, s': State, w: nat, r: Ref)
    requires SameKeys(s) && SameKeys(s') && WritersOk(fmt, s) && r in s.refs && Still(s, s')
    requires forall x :: x in s'.doomed ==> x in s.doomed || x == r.node
    ensures OthersClear(fmt, s, s', w, r.node)
  {
    PuttersClear(fmt, s, s', r);
    forall v | v in s.writers && v != w && IsRenaming(s.writers[v], r.node)
      ensures r.node in s'.nodes && CommitOk(fmt, s', s.writers[v].ref, Renaming)
    {
      assert WriterOk(fmt, s, s.writers[v]);
      SameRenaming(fmt, s, s', s.writers[v].ref);
    }
  }

  lemma StillWriters(fmt: Format, s: State, s': State, w: nat, r: Ref, phase: CommitPhase, wr: Writer)
    requires SameKeys(s) && SameKeys(s') && WritersOk(fmt, s) && Still(s, s') && Kept(s, s')
    requires At(s, w) == Committing(r, phase) && s'.writers == s.writers[w := wr]
    requires WriterOk(fmt, s', wr) && !wr.Putting?
    requires forall x :: x in s'.doomed ==> x in s.doomed || x == r.node
    ensures WritersOk(fmt, s')
  {
    CommitWriter(fmt, s, w, r, phase);
    StillOthers(fmt, s, s', w, r);
    WritersKept(fmt, s, s', w, r.node, wr);
  }

  lemma SameRenaming(fmt: Format, s: State, s': State, r: Ref)
    requires r.node in s.nodes && r.node in s.now && CommitOk(fmt, s, r, Renaming)
    requires s'.nodes == s.nodes && s'.now == s.now
    ensures CommitOk(fmt, s', r, Renaming)
  {
    if Taken(s, r.id) { var y :| y in s.now && s.now[y] == Committed(r.id); assert y in s'.now; }
  }

  /** What is left to show of a step in `commit` that moved no node. */
  lemma StillInv(fmt: Format, s: State, s': State, w: nat, r: Ref, phase: CommitPhase, wr: Writer)
    requires Inv(fmt, s) && At(s, w) == Committing(r, phase) && s'.writers == s.writers[w := wr]
    requires Still(s, s') && AcksOk(fmt, s') && DoomedOk(fmt, s') && WriterOk(fmt, s', wr) && !wr.Putting?
    requires forall x :: x in s'.doomed ==> x in s.doomed || x == r.node
    ensures Inv(fmt, s') && Kept(s, s')
  {
    StillKept(fmt, s, s');
    StillWriters(fmt, s, s', w, r, phase, wr);
  }

  /** A writer moves on without touching the disk. */
  lemma MoveKeepsInv(fmt: Format, s: State, w: nat, r: Ref, phase: CommitPhase, wr: Writer, s': State)
    requires Inv(fmt, s) && At(s, w) == Committing(r, phase)
    requires s' == SetWriter(s, w, wr) && WriterOk(fmt, s, wr) && !wr.Putting?
    ensures Inv(fmt, s') && Kept(s, s')
  {
    StillKept(fmt, s, s');
    KeptAcks(fmt, s, s');
    StillDoomed(fmt, s, s');
    MovedWriterOk(fmt, s, s', wr);
    StillInv(fmt, s, s', w, r, phase, wr);
  }

  lemma MovedWriterOk(fmt: Format, s: State, s': State, wr: Writer)
    requires SameKeys(s) && Still(s, s') && Kept(s, s') && WriterOk(fmt, s, wr) && !wr.Putting?
    ensures WriterOk(fmt, s', wr)
  {
    if wr.Committing? {
      if wr.commit.Renaming? { SameRenaming(fmt, s, s', wr.ref); }
      OtherWriterOk(fmt, s, s', wr.ref.node, wr);
    }
  }

  /** The rename publishes a sealed bundle under an id nothing was published under. */
  lemma RenameKeepsInv(fmt: Format, s: State, w: nat, r: Ref, s': State)
    requires Inv(fmt, s) && At(s, w) == Committing(r, Renaming)
    requires r.node in s.now && s.now[r.node].Staged? && !Taken(s, r.id)
    requires s' == SetWriter(s.(now := s.now[r.node := Committed(r.id)]), w, Committing(r, SyncingCommitted))
    ensures Inv(fmt, s') && Kept(s, s')
  {
    CommitWriter(fmt, s, w, r, Renaming);
    RenamedDoomed(fmt, s, s', r);
    KeptAcks(fmt, s, s');
    RenamedCommitted(fmt, s, s', r);
    RenamedWriters(fmt, s, s', w, r);
  }

  /** The id of a node being discarded is published. */
  lemma DoomedTaken(fmt: Format, s: State)
    requires SameKeys(s) && CommittedOk(fmt, s) && DoomedOk(fmt, s)
    ensures forall x :: x in s.doomed ==> Taken(s, s.doomed[x])
  {
    forall x | x in s.doomed ensures Taken(s, s.doomed[x]) {
      var z :| z in s.disk && s.disk[z] == Committed(s.doomed[x]);
      assert s.now[z] == Committed(s.doomed[x]);
    }
  }

  lemma RenamedDoomed(fmt: Format, s: State, s': State, r: Ref)
    requires SameKeys(s) && CommittedOk(fmt, s) && DoomedOk(fmt, s) && Publishable(fmt, s, r) && !Taken(s, r.id)
    requires s'.nodes == s.nodes && s'.disk == s.disk && s'.now == s.now[r.node := Committed(r.id)] && s'.doomed == s.doomed
    ensures DoomedOk(fmt, s')
  {
    DoomedTaken(fmt, s);
    forall x | x in s'.doomed ensures DurableId(s', s'.doomed[x]) {
      var z :| z in s.disk && s.disk[z] == Committed(s.doomed[x]);
      assert s'.disk[z] == s.disk[z];
    }
  }

  lemma RenamedOthers(fmt: Format, s: State, s': State, w: nat, r: Ref)
    requires SameKeys(s') && WritersOk(fmt, s) && r in s.refs && r.node in s'.nodes && s'.now[r.node].Committed?
    requires s'.refs == s.refs && s'.doomed == s.doomed
    ensures OthersClear(fmt, s, s', w, r.node)
  {
    PuttersClear(fmt, s, s', r);
  }

  lemma RenamedUndisturbed(fmt: Format, s: State, s': State, r: Ref)
    requires SameKeys(s) && CommittedOk(fmt, s) && r.node in s.now && s.now[r.node].Staged?
    requires s'.nodes == s.nodes && s'.disk == s.disk && s'.now == s.now[r.node := Committed(r.id)]
    requires s'.refs == s.refs && s'.doomed == s.doomed
    ensures Undisturbed(s, s', r.node) && SameKeys(s')
  {
  }

  lemma RenamedWriters(fmt: Format, s: State, s': State, w: nat, r: Ref)
    requires SameKeys(s) && CommittedOk(fmt, s) && WritersOk(fmt, s) && At(s, w) == Committing(r, Renaming)
    requires r.node in s.now && s.now[r.node].Staged? && Publishable(fmt, s, r)
    requires s' == SetWriter(s.(now := s.now[r.node := Committed(r.id)]), w, Committing(r, SyncingCommitted))
    ensures WritersOk(fmt, s')
  {
    CommitWriter(fmt, s, w, r, Renaming);
    RenamedUndisturbed(fmt, s, s', r);
    RenamedOthers(fmt, s, s', w, r);
    WritersKept(fmt, s, s', w, r.node, Committing(r, SyncingCommitted));
  }

  lemma RenamedCommitted(fmt: Format, s: State, s': State, r: Ref)
    requires SameKeys(s) && CommittedOk(fmt, s) && r.node in s.now && s.now[r.node].Staged? && !Taken(s, r.id)
    requires Sealed(fmt, s, r.node, r.id)
    requires s'.nodes == s.nodes && s'.disk == s.disk && s'.now == s.now[r.node := Committed(r.id)]
    ensures CommittedOk(fmt, s')
  {
    forall y | y in s'.now && s'.now[y].Committed? ensures Sealed(fmt, s', y, s'.now[y].id) {
      if y != r.node { assert Sealed(fmt, s, y, s.now[y].id); }
    }
  }

  lemma SyncStill(fmt: Format, s: State, w: nat, r: Ref, y: nat, wr: Writer, s': State)
    requires SameKeys(s) && CommittedOk(fmt, s) && y in s.now && s.now[y] == Committed(r.id) && DigestIs(fmt, s, y, r.digest)
    requires s' == SetWriter(SyncCommittedDir(s), w, wr)
    ensures Still(s, s') && Durable(fmt, s', r.id, r.digest)
  {
    assert Sealed(fmt, s, y, r.id) && s'.disk[y] == Committed(r.id);
    assert Sealed(fmt, s', y, r.id) && DigestOf(fmt, s'.nodes[y]) == r.digest;
  }

  /** Syncing the committed directory makes a published bundle durable. */
  lemma SyncKeepsInv(fmt: Format, s: State, w: nat, r: Ref, phase: CommitPhase, y: nat, wr: Writer, s': State)
    requires Inv(fmt, s) && At(s, w) == Committing(r, phase)
    requires y in s.now && s.now[y] == Committed(r.id) && DigestIs(fmt, s, y, r.digest)
    requires s' == SetWriter(SyncCommittedDir(s), w, wr)
    requires wr == Committing(r, SyncingSource) || wr == Committing(r, Discarding)
    ensures Inv(fmt, s') && Kept(s, s')
  {
    CommitWriter(fmt, s, w, r, phase);
    SyncStill(fmt, s, w, r, y, wr, s');
    StillKept(fmt, s, s');
    KeptAcks(fmt, s, s');
    StillDoomed(fmt, s, s');
    StillInv(fmt, s, s', w, r, phase, wr);
  }

  lemma MoreAcks(fmt: Format, s: State, s': State, r: Ref)
    requires AcksOk(fmt, s) && Kept(s, s') && Durable(fmt, s, r.id, r.digest) && s'.acks == s.acks + {(r.id, r.digest)}
    ensures AcksOk(fmt, s')
  {
    forall ack | ack in s'.acks ensures Durable(fmt, s', ack.0, ack.1) { KeptDurable(fmt, s, s', ack.0, ack.1); }
  }

  lemma AckStill(s: State, w: nat, r: Ref, s': State)
    requires SameKeys(s) && (s' == Acknowledge(SyncStagingDir(s), w, r) || s' == Acknowledge(s, w, r))
    ensures Still(s, s') && s'.acks == s.acks + {(r.id, r.digest)} && s'.doomed == s.doomed && s'.writers == s.writers[w := Idle]
  {
  }

  /** An id and digest are acknowledged only once they are durable. */
  lemma AckKeepsInv(fmt: Format, s: State, w: nat, r: Ref, phase: CommitPhase, s': State)
    requires Inv(fmt, s) && At(s, w) == Committing(r, phase)
    requires phase == SyncingSource || phase == Discarding || phase == SyncingRemoval
    requires Still(s, s') && s'.acks == s.acks + {(r.id, r.digest)} && s'.doomed == s.doomed && s'.writers == s.writers[w := Idle]
    ensures Inv(fmt, s') && Kept(s, s')
  {
    CommitWriter(fmt, s, w, r, phase);
    StillKept(fmt, s, s');
    MoreAcks(fmt, s, s', r);
    StillDoomed(fmt, s, s');
    StillInv(fmt, s, s', w, r, phase, Idle);
  }

  /** A replay's bundle is discarded only when the same manifest is published for good. */
  lemma DoomKeepsInv(fmt: Format, s: State, w: nat, r: Ref, s': State)
    requires Faithful(fmt) && Inv(fmt, s) && At(s, w) == Committing(r, Discarding)
    requires r.node in s.now && r.node in s.nodes && s.now[r.node].Staged? && DigestIs(fmt, s, r.node, r.digest)
    requires s' == SetWriter(s.(doomed := s.doomed[r.node := r.id]), w, Committing(r, Removing))
    ensures Inv(fmt, s') && Kept(s, s')
  {
    CommitWriter(fmt, s, w, r, Discarding);
    StillKept(fmt, s, s');
    KeptAcks(fmt, s, s');
    KeptDurable(fmt, s, s', r.id, r.digest);
    DoomedMore(fmt, s, s', r);
    RemoveWriterOk(fmt, s', r, Committing(r, Removing));
    StillInv(fmt, s, s', w, r, Discarding, Committing(r, Removing));
  }

  lemma DoomedMore(fmt: Format, s: State, s': State, r: Ref)
    requires Faithful(fmt) && DoomedOk(fmt, s) && Durable(fmt, s, r.id, r.digest)
    requires r.node in s.now && r.node in s.nodes && s.now[r.node].Staged? && DigestIs(fmt, s, r.node, r.digest)
    requires s'.nodes == s.nodes && s'.now == s.now && s'.disk == s.disk && s'.doomed == s.doomed[r.node := r.id]
    ensures DoomedOk(fmt, s')
  {
    var y :| y in s.disk && s.disk[y] == Committed(r.id) && Sealed(fmt, s, y, r.id) && DigestOf(fmt, s.nodes[y]) == r.digest;
    assert ManifestOf(fmt, s.nodes[r.node]) == ManifestOf(fmt, s.nodes[y]);
    forall x | x in s'.doomed ensures DurableId(s', s'.doomed[x]) {
      if x == r.node { assert s'.disk[y] == Committed(r.id); }
      else { var z :| z in s.disk && s.disk[z] == Committed(s.doomed[x]); assert s'.disk[z] == s.disk[z]; }
    }
  }

  /** Whatever is removed of a doomed node, no racing writer can publish it: its id is taken. */
  lemma DoomedRenaming(fmt: Format, s: State, s': State, r: Ref)
    requires SameKeys(s) && CommittedOk(fmt, s) && DoomedOk(fmt, s)
    requires r.node in s.doomed && r.node in s.nodes && r.node in s.now && CommitOk(fmt, s, r, Renaming)
    requires Undisturbed(s, s', r.node) && r.node in s'.now
    requires s.now[r.node].Staged? || !s'.now[r.node].Staged?
    ensures CommitOk(fmt, s', r, Renaming)
  {
    if s.now[r.node].Staged? {
      DoomedTaken(fmt, s);
      var y :| y in s.now && s.now[y] == Committed(r.id);
      assert s'.now[y] == Committed(r.id);
    }
  }

  lemma RemoveKeepsInv(fmt: Format, s: State, w: nat, r: Ref, n: Node, place: Place, wr: Writer, s': State)
    requires Inv(fmt, s) && At(s, w) == Committing(r, Removing)
    requires r.node in s.nodes && r.node in s.now && s.now[r.node].Staged? && (place.Staged? || place.Gone?)
    requires ManifestOf(fmt, n).Some? ==> ManifestOf(fmt, n) == ManifestOf(fmt, s.nodes[r.node])
    requires wr == Committing(r, Removing) || wr == Committing(r, SyncingRemoval)
    requires s' == SetWriter(SetNode(s, r.node, n).(now := s.now[r.node := place]), w, wr)
    ensures Inv(fmt, s') && Kept(s, s')
  {
    RemovingHas(fmt, s, w, r);
    RemovedOnly(fmt, s, w, r, n, place, wr, s');
    RemoveRest(fmt, s, s', r);
    RemoveRefs(s, s', r);
    RemoveWriters(fmt, s, s', w, r, wr);
  }

  lemma RemoveWriters(fmt: Format, s: State, s': State, w: nat, r: Ref, wr: Writer)
    requires SameKeys(s) && CommittedOk(fmt, s) && DoomedOk(fmt, s) && WritersOk(fmt, s)
    requires SameKeys(s') && r in s.refs && r.node in s.doomed && r.node in s.now && s.now[r.node].Staged?
    requires Undisturbed(s, s', r.node) && s'.refs == s.refs && s'.doomed == s.doomed && s'.writers == s.writers[w := wr]
    requires Durable(fmt, s', r.id, r.digest) && (wr == Committing(r, Removing) || wr == Committing(r, SyncingRemoval))
    ensures WritersOk(fmt, s')
  {
    RemoveWriterOk(fmt, s', r, wr);
    RemoveOthers(fmt, s, s', w, r);
    WritersKept(fmt, s, s', w, r.node, wr);
  }

  lemma RemovingHas(fmt: Format, s: State, w: nat, r: Ref)
    requires WritersOk(fmt, s) && At(s, w) == Committing(r, Removing)
    ensures r in s.refs && r.node in s.doomed && Durable(fmt, s, r.id, r.digest)
  {
    assert WriterOk(fmt, s, s.writers[w]);
  }

  lemma RemovedOnly(fmt: Format, s: State, w: nat, r: Ref, n: Node, place: Place, wr: Writer, s': State)
    requires SameKeys(s) && CommittedOk(fmt, s) && r.node in s.nodes && r.node in s.now && s.now[r.node].Staged?
    requires place.Staged? || place.Gone?
    requires s' == SetWriter(SetNode(s, r.node, n).(now := s.now[r.node := place]), w, wr)
    ensures Undisturbed(s, s', r.node) && SameKeys(s') && CommittedOk(fmt, s')
  {
    OneNodeChanged(fmt, s, s', r.node);
  }

  lemma RemoveWriterOk(fmt: Format, s: State, r: Ref, wr: Writer)
    requires r in s.refs && r.node in s.nodes && r.node in s.now && r.node in s.doomed && Durable(fmt, s, r.id, r.digest)
    requires wr == Committing(r, Removing) || wr == Committing(r, SyncingRemoval)
    ensures WriterOk(fmt, s, wr)
  {
  }

  lemma RemoveRefs(s: State, s': State, r: Ref)
    requires RefsOk(s) && Undisturbed(s, s', r.node) && s'.refs == s.refs && s'.doomed == s.doomed && r.node in s.doomed
    ensures RefsOk(s')
  {
    forall q | q in s'.refs
      ensures q.node in s'.nodes && q.node in s'.now && (s'.now[q.node].Staged? && q.node !in s'.doomed ==> Stable(s'.nodes[q.node]))
    {
      assert q in s.refs;
    }
  }

  lemma RemoveRest(fmt: Format, s: State, s': State, r: Ref)
    requires SameKeys(s) && AcksOk(fmt, s) && DoomedOk(fmt, s) && Durable(fmt, s, r.id, r.digest) && r.node in s.doomed
    requires Undisturbed(s, s', r.node) && s'.acks == s.acks && s'.doomed == s.doomed
    requires r.node in s'.now && !s'.now[r.node].Committed?
    requires ManifestOf(fmt, s'.nodes[r.node]).Some? ==> ManifestOf(fmt, s'.nodes[r.node]) == ManifestOf(fmt, s.nodes[r.node])
    ensures AcksOk(fmt, s') && DoomedOk(fmt, s') && Durable(fmt, s', r.id, r.digest)
  {
    KeptAcks(fmt, s, s');
    KeptDurable(fmt, s, s', r.id, r.digest);
    DoomedKept(fmt, s, s', r.node);
  }

  lemma RemoveOthers(fmt: Format, s: State, s': State, w: nat, r: Ref)
    requires SameKeys(s) && CommittedOk(fmt, s) && DoomedOk(fmt, s) && WritersOk(fmt, s)
    requires SameKeys(s') && r in s.refs && r.node in s.doomed
    requires Undisturbed(s, s', r.node) && r.node in s.now && s.now[r.node].Staged?
    requires s'.refs == s.refs && s'.doomed == s.doomed
    ensures OthersClear(fmt, s, s', w, r.node)
  {
    PuttersClear(fmt, s, s', r);
    forall v | v in s.writers && v != w && IsRenaming(s.writers[v], r.node)
      ensures r.node in s'.nodes && CommitOk(fmt, s', s.writers[v].ref, Renaming)
    {
      CommitWriter(fmt, s, v, s.writers[v].ref, Renaming);
      DoomedRenaming(fmt, s, s', s.writers[v].ref);
    }
  }

  /** Steps before the outcome is decided. */
  lemma DecidingKeepsInv(fmt: Format, s: State, w: nat, r: Ref, phase: CommitPhase, a: Action, s': State)
    requires Inv(fmt, s) && At(s, w) == Committing(r, phase) && (phase.Checking? || phase.Inspecting? || phase.Existing?)
    requires r.node in s.nodes && r.node in s.now && DecideStep(fmt, s, w, r, phase, a) == Some(s')
    ensures Inv(fmt, s') && Kept(s, s')
  {
    CommitWriter(fmt, s, w, r, phase);
    var wr := Decided(fmt, s, w, r, phase, a, s');
    MoveKeepsInv(fmt, s, w, r, phase, wr, s');
  }

  lemma Decided(fmt: Format, s: State, w: nat, r: Ref, phase: CommitPhase, a: Action, s': State) returns (wr: Writer)
    requires SameKeys(s) && CommittedOk(fmt, s) && RefsOk(s) && DoomedOk(fmt, s) && r in s.refs
    requires r.node in s.nodes && r.node in s.now && DecideStep(fmt, s, w, r, phase, a) == Some(s')
    ensures s' == SetWriter(s, w, wr) && WriterOk(fmt, s, wr) && !wr.Putting?
  {
    wr := s'.writers[w];
    if phase.Existing? && wr.Committing? { assert DigestIs(fmt, s, a.dest, r.digest); }
  }

  /** Steps that throw a replay's bundle away. */
  lemma DiscardingKeepsInv(fmt: Format, s: State, w: nat, r: Ref, phase: CommitPhase, a: Action, s': State)
    requires Faithful(fmt) && Inv(fmt, s) && At(s, w) == Committing(r, phase) && (phase.Discarding? || phase.Removing?)
    requires r.node in s.nodes && r.node in s.now && DiscardStep(fmt, s, w, r, phase, a) == Some(s')
    ensures Inv(fmt, s') && Kept(s, s') && s.acks <= s'.acks
  {
    if phase.Discarding? {
      if !s.now[r.node].Staged? { AckStill(s, w, r, s'); AckKeepsInv(fmt, s, w, r, phase, s'); }
      else if s'.writers[w].Committing? { DoomKeepsInv(fmt, s, w, r, s'); }
      else { MoveKeepsInv(fmt, s, w, r, phase, Idle, s'); }
    } else if !s.now[r.node].Staged? {
      MoveKeepsInv(fmt, s, w, r, phase, Idle, s');
    } else {
      RemovingKeepsInv(fmt, s, w, r, a, s');
    }
  }

  lemma CommitKeepsInv(fmt: Format, s: State, w: nat, r: Ref, phase: CommitPhase, a: Action, s': State)
    requires Faithful(fmt) && Inv(fmt, s) && At(s, w) == Committing(r, phase)
    requires r.node in s.nodes && r.node in s.now && CommitStep(fmt, s, w, r, phase, a) == Some(s')
    ensures Inv(fmt, s') && Kept(s, s') && s.acks <= s'.acks
  {
    match phase {
      case Renaming => RenamingKeepsInv(fmt, s, w, r, a, s');
      case SyncingCommitted | SyncingExisting => SyncingKeepsInv(fmt, s, w, r, phase, a, s');
      case SyncingSource | SyncingRemoval => ReturningKeepsInv(fmt, s, w, r, phase, a, s');
      case Discarding | Removing => DiscardingKeepsInv(fmt, s, w, r, phase, a, s');
      case Checking | Inspecting | Existing => DecidingKeepsInv(fmt, s, w, r, phase, a, s');
    }
  }

  lemma ReturningKeepsInv(fmt: Format, s: State, w: nat, r: Ref, phase: CommitPhase, a: Action, s': State)
    requires Inv(fmt, s) && At(s, w) == Committing(r, phase) && (phase.SyncingSource? || phase.SyncingRemoval?)
    requires r.node in s.nodes && r.node in s.now && PublishStep(fmt, s, w, r, phase, a) == Some(s')
    ensures Inv(fmt, s') && Kept(s, s') && s.acks <= s'.acks
  {
    AckStill(s, w, r, s');
    AckKeepsInv(fmt, s, w, r, phase, s');
  }

  lemma SyncingKeepsInv(fmt: Format, s: State, w: nat, r: Ref, phase: CommitPhase, a: Action, s': State)
    requires Inv(fmt, s) && At(s, w) == Committing(r, phase) && (phase.SyncingCommitted? || phase.SyncingExisting?)
    requires r.node in s.nodes && r.node in s.now && PublishStep(fmt, s, w, r, phase, a) == Some(s')
    ensures Inv(fmt, s') && Kept(s, s') && s.acks <= s'.acks
  {
    assert WriterOk(fmt, s, s.writers[w]);
    if phase.SyncingCommitted? {
      SyncKeepsInv(fmt, s, w, r, phase, r.node, Committing(r, SyncingSource), s');
    } else {
      var y :| y in s.now && s.now[y] == Committed(r.id) && DigestIs(fmt, s, y, r.digest);
      SyncKeepsInv(fmt, s, w, r, phase, y, Committing(r, Discarding), s');
    }
  }

  lemma RenamingKeepsInv(fmt: Format, s: State, w: nat, r: Ref, a: Action, s': State)
    requires Inv(fmt, s) && At(s, w) == Committing(r, Renaming)
    requires r.node in s.nodes && r.node in s.now && PublishStep(fmt, s, w, r, Renaming, a) == Some(s')
    ensures Inv(fmt, s') && Kept(s, s') && s.acks <= s'.acks
  {
    assert WriterOk(fmt, s, s.writers[w]);
    if !Taken(s, r.id) && s.now[r.node].Staged? { RenameKeepsInv(fmt, s, w, r, s'); }
    else { MoveKeepsInv(fmt, s, w, r, Renaming, s'.writers[w], s'); }
  }

  lemma RemovingKeepsInv(fmt: Format, s: State, w: nat, r: Ref, a: Action, s': State)
    requires Inv(fmt, s) && At(s, w) == Committing(r, Removing)
    requires r.node in s.nodes && r.node in s.now && s.now[r.node].Staged?
    requires DiscardStep(fmt, s, w, r, Removing, a) == Some(s')
    ensures Inv(fmt, s') && Kept(s, s') && s.acks <= s'.acks
  {
    if a.RemoveDirectory? {
      assert s.nodes[r.node := s.nodes[r.node]] == s.nodes;
      RemoveKeepsInv(fmt, s, w, r, s.nodes[r.node], Gone, Committing(r, SyncingRemoval), s');
    } else {
      var n := RemovedInside(fmt, s, w, r, a, s');
      RemovingInsideKeepsInv(fmt, s, w, r, n, s');
    }
  }

  lemma RemovedInside(fmt: Format, s: State, w: nat, r: Ref, a: Action, s': State) returns (n: Node)
    requires r.node in s.nodes && r.node in s.now && s.now[r.node].Staged? && !a.RemoveDirectory?
    requires DiscardStep(fmt, s, w, r, Removing, a) == Some(s')
    ensures s' == SetNode(s, r.node, n)
    ensures ManifestOf(fmt, n).Some? ==> ManifestOf(fmt, n) == ManifestOf(fmt, s.nodes[r.node])
  {
    n := s'.nodes[r.node];
  }

  /** Something in the directory is removed. */
  lemma RemovingInsideKeepsInv(fmt: Format, s: State, w: nat, r: Ref, n: Node, s': State)
    requires Inv(fmt, s) && At(s, w) == Committing(r, Removing)
    requires r.node in s.nodes && r.node in s.now && s.now[r.node].Staged?
    requires ManifestOf(fmt, n).Some? ==> ManifestOf(fmt, n) == ManifestOf(fmt, s.nodes[r.node])
    requires s' == SetNode(s, r.node, n)
    ensures Inv(fmt, s') && Kept(s, s') && s.acks <= s'.acks
  {
    assert s.now[r.node := s.now[r.node]] == s.now;
    assert s.writers[w := Committing(r, Removing)] == s.writers;
    RemoveKeepsInv(fmt, s, w, r, n, s.now[r.node], Committing(r, Removing), s');
  }

  /** Nothing there changed; an uncommitted node or a reference may be new. */
  ghost predicate Grown(s: State, s': State)
    requires SameKeys(s) && SameKeys(s')
  {
    && s'.doomed == s.doomed && s'.acks == s.acks && s.refs <= s'.refs
    && (forall y :: y in s.now ==> y in s'.now && s'.now[y] == s.now[y] && s'.nodes[y] == s.nodes[y] && s'.disk[y] == s.disk[y])
    && (forall y :: y in s'.now && y !in s.now ==> s'.now[y].Staged? && s'.disk[y].Gone?)
    && (forall r :: r in s'.refs && r !in s.refs ==> r.node in s.now && s.now[r.node].Staged? && Stable(s.nodes[r.node]) && !Owned(s, r.node))
  }

  lemma GrownCommitted(fmt: Format, s: State, s': State)
    requires SameKeys(s) && CommittedOk(fmt, s) && RefsOk(s) && SameKeys(s') && Grown(s, s')
    ensures CommittedOk(fmt, s') && Kept(s, s') && RefsOk(s')
  {
    forall y | y in s'.now && s'.now[y].Committed? ensures y in s.now && Sealed(fmt, s', y, s'.now[y].id) {
      assert Sealed(fmt, s, y, s.now[y].id);
    }
  }

  lemma GrownDoomed(fmt: Format, s: State, s': State)
    requires SameKeys(s) && SameKeys(s') && DoomedOk(fmt, s) && Grown(s, s')
    ensures DoomedOk(fmt, s')
  {
    forall x | x in s'.doomed ensures DurableId(s', s'.doomed[x]) {
      var z :| z in s.disk && s.disk[z] == Committed(s.doomed[x]);
      assert s'.disk[z] == s.disk[z];
    }
  }

  lemma GrownWriter(fmt: Format, s: State, s': State, v: nat)
    requires SameKeys(s) && SameKeys(s') && Kept(s, s') && Grown(s, s') && v in s.writers && WriterOk(fmt, s, s.writers[v])
    ensures WriterOk(fmt, s', s.writers[v])
  {
    var wr := s.writers[v];
    if wr.Committing? {
      OtherWriterOk(fmt, s, s', wr.ref.node, wr) by {
        if wr.commit.Renaming? && Taken(s, wr.ref.id) {
          var y :| y in s.now && s.now[y] == Committed(wr.ref.id);
          assert s'.now[y] == Committed(wr.ref.id);
        }
      }
    } else if wr.Putting? {
      assert Owned(s, wr.node);
    }
  }

  /** Starting, adopting a leftover directory, and dying. */
  lemma GrownKeepsInv(fmt: Format, s: State, s': State, w: nat, wr: Writer)
    requires Inv(fmt, s) && SameKeys(s') && Grown(s, s') && s'.writers == s.writers[w := wr]
    requires wr == At(s, w) || WriterOk(fmt, s', wr)
    requires wr.Putting? && wr != At(s, w) ==> wr.node !in s.nodes
    ensures Inv(fmt, s') && Kept(s, s') && s.acks <= s'.acks
  {
    GrownCommitted(fmt, s, s');
    KeptAcks(fmt, s, s');
    GrownDoomed(fmt, s, s');
    GrownWriters(fmt, s, s', w, wr);
  }

  lemma GrownWriters(fmt: Format, s: State, s': State, w: nat, wr: Writer)
    requires SameKeys(s) && WritersOk(fmt, s) && Kept(s, s') && SameKeys(s') && Grown(s, s') && s'.writers == s.writers[w := wr]
    requires wr == At(s, w) || WriterOk(fmt, s', wr)
    requires wr.Putting? && wr != At(s, w) ==> wr.node !in s.nodes
    ensures WritersOk(fmt, s')
  {
    forall v | v in s'.writers ensures WriterOk(fmt, s', s'.writers[v]) {
      if v in s.writers && s'.writers[v] == s.writers[v] {
        assert WriterOk(fmt, s, s.writers[v]);
        GrownWriter(fmt, s, s', v);
      }
    }
    forall v | v in s.writers && s.writers[v].Putting? ensures s.writers[v].node in s.nodes {
      assert WriterOk(fmt, s, s.writers[v]);
    }
  }

  lemma StartGrown(s: State, w: nat, m: Manifest, x: nat, s': State)
    requires SameKeys(s) && Enter(s, w, BeginPut(m, x)) == Some(s')
    ensures SameKeys(s') && Grown(s, s') && x !in s.nodes && x in s'.nodes && s'.nodes[x] == EMPTY_NODE && s'.now[x].Staged?
    ensures s'.refs == s.refs && s'.writers == s.writers[w := Putting(x, m, Copying(m.files.Keys))]
  {
  }

  lemma StartKeepsInv(fmt: Format, s: State, w: nat, m: Manifest, x: nat, s': State)
    requires Inv(fmt, s) && At(s, w).Idle? && Enter(s, w, BeginPut(m, x)) == Some(s')
    ensures Inv(fmt, s') && Kept(s, s') && s.acks <= s'.acks
  {
    var wr := Putting(x, m, Copying(m.files.Keys));
    StartGrown(s, w, m, x, s');
    StartWriterOk(fmt, s, s', x, wr);
    GrownKeepsInv(fmt, s, s', w, wr);
  }

  lemma StartWriterOk(fmt: Format, s: State, s': State, x: nat, wr: Writer)
    requires SameKeys(s) && SameKeys(s') && RefsOk(s) && DoomedOk(fmt, s) && Grown(s, s') && s'.refs == s.refs
    requires wr.Putting? && wr.node == x && wr.put.Copying?
    requires x !in s.nodes && x in s'.nodes && s'.nodes[x] == EMPTY_NODE && s'.now[x].Staged?
    ensures WriterOk(fmt, s', wr)
  {
  }

  lemma OutsideKeepsInv(fmt: Format, s: State, w: nat, a: Action, s': State)
    requires Inv(fmt, s) && At(s, w).Idle? && Enter(s, w, a) == Some(s')
    ensures Inv(fmt, s') && Kept(s, s') && s.acks <= s'.acks
  {
    match a
    case BeginPut(m, x) => StartKeepsInv(fmt, s, w, m, x, s');
    case BeginCommit(r) => BeginCommitKeepsInv(fmt, s, w, r, s');
    case Adopt(r) => AdoptKeepsInv(fmt, s, w, r, s');
    case _ =>
  }

  lemma BeginCommitKeepsInv(fmt: Format, s: State, w: nat, r: Ref, s': State)
    requires Inv(fmt, s) && At(s, w).Idle? && Enter(s, w, BeginCommit(r)) == Some(s')
    ensures Inv(fmt, s') && Kept(s, s') && s.acks <= s'.acks
  {
    GrownKeepsInv(fmt, s, s', w, Committing(r, Checking));
  }

  lemma AdoptKeepsInv(fmt: Format, s: State, w: nat, r: Ref, s': State)
    requires Inv(fmt, s) && At(s, w).Idle? && Enter(s, w, Adopt(r)) == Some(s')
    ensures Inv(fmt, s') && Kept(s, s') && s.acks <= s'.acks
  {
    GrownKeepsInv(fmt, s, s', w, Idle);
  }

  lemma CrashKept(fmt: Format, s: State, s': State)
    requires SameKeys(s) && CommittedOk(fmt, s) && Crash(s, s')
    ensures SameKeys(s') && Kept(s, s')
  {
    forall y | y in s.disk && s.disk[y].Committed? ensures s'.nodes[y] == s.nodes[y] && s'.disk[y] == s.disk[y] {
      assert Sealed(fmt, s, y, s.now[y].id);
    }
  }

  lemma CrashStays(fmt: Format, s: State, s': State, y: nat)
    requires SameKeys(s) && CommittedOk(fmt, s) && Crash(s, s') && y in s'.now && s'.now[y].Committed?
    ensures y in s.now && s.now[y] == s'.now[y]
  {
  }

  lemma CrashCommitted(fmt: Format, s: State, s': State)
    requires SameKeys(s) && SameKeys(s') && CommittedOk(fmt, s) && Crash(s, s')
    ensures CommittedOk(fmt, s')
  {
    forall y | y in s'.now && s'.now[y].Committed? ensures y in s.now && s.now[y] == s'.now[y] && Sealed(fmt, s', y, s'.now[y].id) {
      CrashStays(fmt, s, s', y);
      assert Sealed(fmt, s, y, s.now[y].id);
    }
  }

  lemma CrashRest(fmt: Format, s: State, s': State)
    requires SameKeys(s) && RefsOk(s) && DoomedOk(fmt, s) && Crash(s, s')
    ensures RefsOk(s') && DoomedOk(fmt, s') && WritersOk(fmt, s') && s'.acks == s.acks
  {
  }

  lemma CrashKeepsInv(fmt: Format, s: State, s': State)
    requires Inv(fmt, s) && Crash(s, s')
    ensures Inv(fmt, s') && Kept(s, s') && s.acks <= s'.acks
  {
    CrashKept(fmt, s, s');
    CrashCommitted(fmt, s, s');
    CrashRest(fmt, s, s');
    KeptAcks(fmt, s, s');
  }

  lemma NextKeepsInv(fmt: Format, s: State, s': State)
    requires Faithful(fmt) && Inv(fmt, s) && Next(fmt, s, s')
    ensures Inv(fmt, s') && Kept(s, s') && s.acks <= s'.acks
  {
    if Crash(s, s') {
      CrashKeepsInv(fmt, s, s');
    } else {
      var w: nat, a :| Do(fmt, s, w, a) == Some(s');
      if a.Die? {
        GrownKeepsInv(fmt, s, s', w, Idle);
      } else {
        match At(s, w)
        case Idle => OutsideKeepsInv(fmt, s, w, a, s');
        case Putting(x, m, phase) => PutKeepsInv(fmt, s, w, x, m, phase, a, s');
        case Committing(r, phase) => CommitKeepsInv(fmt, s, w, r, phase, a, s');
      }
    }
  }
}
