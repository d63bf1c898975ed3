/** What publishing checkpoints does when nothing disturbs it: staging hands out a stable bundle, committing
    publishes it, and what cannot be published is refused or cleared away. */
module CheckpointProgress {
  import opened Util
  import opened CheckpointStore
  import opened CheckpointInvariant
  import opened CheckpointSafety

  // ---- traces ------------------------------------------------------------------------------------

  lemma OneStep(fmt: Format, s: State, w: nat, a: Action, t: State)
    requires Do(fmt, s, w, a) == Some(t)
    ensures Trace(fmt, [s, t], w, [a])
  {
  }

  lemma ThreeInOrder(fmt: Format, s0: State, s1: State, s2: State, s3: State, w: nat, a: Action, b: Action, c: Action)
    requires Do(fmt, s0, w, a) == Some(s1) && Do(fmt, s1, w, b) == Some(s2) && Do(fmt, s2, w, c) == Some(s3)
    ensures Trace(fmt, [s0, s1, s2, s3], w, [a, b, c])
  {
  }

  /** One step more in front. */
  lemma StepThen(fmt: Format, s: State, w: nat, a: Action, rest: seq<State>, actions: seq<Action>)
    requires rest != [] && Do(fmt, s, w, a) == Some(rest[0]) && Trace(fmt, rest, w, actions)
    ensures Trace(fmt, [s] + rest, w, [a] + actions)
  {
    var states, all := [s] + rest, [a] + actions;
    forall i | 0 <= i < |all| ensures Do(fmt, states[i], w, all[i]) == Some(states[i + 1]) {
      if i > 0 { assert Do(fmt, rest[i - 1], w, actions[i - 1]) == Some(rest[i]); }
    }
  }

  lemma TwoThen(fmt: Format, s: State, t: State, w: nat, a: Action, b: Action, rest: seq<State>, actions: seq<Action>)
    returns (states: seq<State>, all: seq<Action>)
    requires Do(fmt, s, w, a) == Some(t) && rest != [] && Do(fmt, t, w, b) == Some(rest[0]) && Trace(fmt, rest, w, actions)
    ensures Trace(fmt, states, w, all) && states[0] == s && |all| == |actions| + 2 && states[|all|] == rest[|actions|]
  {
    StepThen(fmt, t, w, b, rest, actions);
    StepThen(fmt, s, w, a, [t] + rest, [b] + actions);
    states, all := [s] + ([t] + rest), [a] + ([b] + actions);
  }

  // ---- put_staging -------------------------------------------------------------------------------

  /** The content a manifest describes. */
  predicate Describes(fmt: Format, m: Manifest, contents: map<Path, string>) {
    && contents.Keys == m.files.Keys
    && forall p :: p in contents ==> m.files[p] == (|contents[p]|, fmt.hash(contents[p]))
  }

  /** What a bundle holds. */
  function Contents(n: Node): map<Path, string> {
    map p | p in n.files :: n.files[p].content
  }

  /** Main result: a bundle is complete exactly if its manifest can be read, names the id, and describes what it holds:
      no file more or less, each by its size and digest. */
  lemma CompleteExactly(fmt: Format, n: Node, id: Id)
    ensures Complete(fmt, n, id) <==>
            n.manifest.Some? && exists m :: fmt.parse(n.manifest.value.content) == Some(m) && m.id == id && Describes(fmt, m, Contents(n))
  {
    if n.manifest.Some? && fmt.parse(n.manifest.value.content).Some? {
      VerifiesExactly(fmt, n, fmt.parse(n.manifest.value.content).value);
    }
  }

  lemma VerifiesExactly(fmt: Format, n: Node, m: Manifest)
    ensures Verifies(fmt, n, m) <==> Describes(fmt, m, Contents(n))
  {
  }

  /** Node *x* is all that differs, but for where writer *w* is. */
  predicate OnlyBuilt(s: State, t: State, w: nat, x: nat) {
    && x in s.nodes && x in t.nodes && t.nodes == s.nodes[x := t.nodes[x]] && t.now == s.now && t.disk == s.disk
    && t.refs == s.refs && t.acks == s.acks && t.doomed == s.doomed
    && w in t.writers && t.writers == s.writers[w := t.writers[w]]
  }

  lemma BuiltThrough(s: State, t: State, u: State, w: nat, x: nat)
    requires OnlyBuilt(s, t, w, x) && OnlyBuilt(t, u, w, x)
    ensures OnlyBuilt(s, u, w, x)
  {
    assert s.nodes[x := t.nodes[x]][x := u.nodes[x]] == s.nodes[x := u.nodes[x]];
    assert s.writers[w := t.writers[w]][w := u.writers[w]] == s.writers[w := u.writers[w]];
  }

  lemma NothingBuilt(s: State, w: nat, x: nat)
    requires x in s.nodes && w in s.writers
    ensures OnlyBuilt(s, s, w, x)
  {
    assert s.nodes == s.nodes[x := s.nodes[x]] && s.writers == s.writers[w := s.writers[w]];
  }

  /** What has been copied of *contents*, all of it synced. */
  predicate Copied(n: Node, contents: map<Path, string>, todo: set<Path>) {
    && n.files.Keys == contents.Keys - todo
    && forall p :: p in n.files ==> p in contents && n.files[p] == File(contents[p], true)
  }

  lemma CopyOne(fmt: Format, s: State, w: nat, x: nat, m: Manifest, contents: map<Path, string>, todo: set<Path>, p: Path)
    returns (t: State, u: State)
    requires At(s, w) == Putting(x, m, Copying(todo)) && x in s.nodes && x in s.now && p in todo && todo <= contents.Keys
    requires Copied(s.nodes[x], contents, todo) && PutOk(fmt, s.nodes[x], m, Copying(todo))
    ensures Do(fmt, s, w, Copy(p, contents[p])) == Some(t) && Do(fmt, t, w, Flush) == Some(u)
    ensures At(u, w) == Putting(x, m, Copying(todo - {p})) && OnlyBuilt(s, u, w, x)
    ensures Copied(u.nodes[x], contents, todo - {p}) && PutOk(fmt, u.nodes[x], m, Copying(todo - {p}))
    ensures u.nodes[x].manifest == s.nodes[x].manifest
  {
    var n1 := AddFile(s.nodes[x], p, contents[p]);
    var n2 := n1.(files := n1.files[p := n1.files[p].(synced := true)]);
    t := SetWriter(SetNode(s, x, n1), w, Putting(x, m, Flushing(todo, p)));
    u := SetWriter(SetNode(t, x, n2), w, Putting(x, m, Copying(todo - {p})));
    BuildOk(fmt, s.nodes[x], m, Copying(todo), Copy(p, contents[p]), n1, Flushing(todo, p));
    BuildOk(fmt, n1, m, Flushing(todo, p), Flush, n2, Copying(todo - {p}));
  }

  lemma {:induction false} CopyAll(fmt: Format, s: State, w: nat, x: nat, m: Manifest, contents: map<Path, string>, todo: set<Path>)
    returns (states: seq<State>, actions: seq<Action>)
    requires At(s, w) == Putting(x, m, Copying(todo)) && x in s.nodes && x in s.now && todo <= contents.Keys
    requires Copied(s.nodes[x], contents, todo) && PutOk(fmt, s.nodes[x], m, Copying(todo))
    ensures Trace(fmt, states, w, actions) && states[0] == s
    ensures var t := states[|actions|];
            && At(t, w) == Putting(x, m, Copying({})) && OnlyBuilt(s, t, w, x)
            && Copied(t.nodes[x], contents, {}) && PutOk(fmt, t.nodes[x], m, Copying({})) && t.nodes[x].manifest == s.nodes[x].manifest
    decreases todo
  {
    if todo == {} {
      states, actions := [s], [];
      NothingBuilt(s, w, x);
    } else {
      var p :| p in todo;
      var t, u := CopyOne(fmt, s, w, x, m, contents, todo, p);
      var rest, more := CopyAll(fmt, u, w, x, m, contents, todo - {p});
      states, actions := TwoThen(fmt, s, t, w, Copy(p, contents[p]), Flush, rest, more);
      BuiltThrough(s, u, rest[|more|], w, x);
    }
  }

  lemma {:induction false} SyncAll(fmt: Format, s: State, w: nat, x: nat, m: Manifest, dirs: set<Path>)
    returns (states: seq<State>, actions: seq<Action>)
    requires At(s, w) == Putting(x, m, SyncingDirs(dirs)) && x in s.nodes && x in s.now && PutOk(fmt, s.nodes[x], m, SyncingDirs(dirs))
    ensures Trace(fmt, states, w, actions) && states[0] == s
    ensures var t := states[|actions|];
            && At(t, w) == Putting(x, m, SyncingDirs({})) && OnlyBuilt(s, t, w, x) && PutOk(fmt, t.nodes[x], m, SyncingDirs({}))
            && t.nodes[x].files == s.nodes[x].files && t.nodes[x].manifest == s.nodes[x].manifest
    decreases dirs
  {
    if dirs == {} {
      states, actions := [s], [];
      NothingBuilt(s, w, x);
    } else {
      var d :| d in dirs;
      var n := s.nodes[x].(unsynced := s.nodes[x].unsynced - {d});
      var t := SetWriter(SetNode(s, x, n), w, Putting(x, m, SyncingDirs(dirs - {d})));
      BuildOk(fmt, s.nodes[x], m, SyncingDirs(dirs), SyncDir(d), n, SyncingDirs(dirs - {d}));
      var rest, more := SyncAll(fmt, t, w, x, m, dirs - {d});
      StepThen(fmt, s, w, SyncDir(d), rest, more);
      BuiltThrough(s, t, rest[|more|], w, x);
      states, actions := [s] + rest, [SyncDir(d)] + more;
    }
  }

  /** The bundle as it is once staged. */
  predicate Staging(fmt: Format, n: Node, m: Manifest, contents: map<Path, string>) {
    && Copied(n, contents, {}) && n.manifest == Some(File(fmt.render(m), true)) && Stable(n)
  }

  /** What was copied of the content a manifest describes verifies. */
  lemma CopiedVerifies(fmt: Format, n: Node, m: Manifest, contents: map<Path, string>)
    requires Describes(fmt, m, contents) && Copied(n, contents, {})
    ensures Verifies(fmt, n, m)
  {
  }

  /** The manifest is written, and what was copied verifies. */
  lemma Writes(fmt: Format, s: State, w: nat, x: nat, m: Manifest, contents: map<Path, string>)
    returns (states: seq<State>, actions: seq<Action>)
    requires Describes(fmt, m, contents) && At(s, w) == Putting(x, m, Copying({})) && x in s.nodes && x in s.now
    requires Copied(s.nodes[x], contents, {}) && PutOk(fmt, s.nodes[x], m, Copying({}))
    ensures Trace(fmt, states, w, actions) && states[0] == s
    ensures var t := states[|actions|]; var dirs := Directories(s.nodes[x]);
            && At(t, w) == Putting(x, m, SyncingDirs(dirs)) && OnlyBuilt(s, t, w, x) && PutOk(fmt, t.nodes[x], m, SyncingDirs(dirs))
            && t.nodes[x].files == s.nodes[x].files && t.nodes[x].manifest == Some(File(fmt.render(m), true))
  {
    var n0 := s.nodes[x];
    var n1 := n0.(manifest := Some(File(fmt.render(m), false)), unsynced := n0.unsynced + {[]});
    var n2 := n1.(manifest := Some(File(fmt.render(m), true)));
    var dirs := Directories(n0);
    assert Directories(n1) == dirs && Directories(n2) == dirs;
    var s1 := SetWriter(SetNode(s, x, n1), w, Putting(x, m, FlushingManifest));
    var s2 := SetWriter(SetNode(s1, x, n2), w, Putting(x, m, Verifying));
    var s3 := SetWriter(SetNode(s2, x, n2), w, Putting(x, m, SyncingDirs(dirs)));
    BuildOk(fmt, n0, m, Copying({}), WriteManifest, n1, FlushingManifest);
    BuildOk(fmt, n1, m, FlushingManifest, FlushManifest, n2, Verifying);
    CopiedVerifies(fmt, n2, m, contents);
    BuildOk(fmt, n2, m, Verifying, VerifyStaged, n2, SyncingDirs(dirs));
    states, actions := [s, s1, s2, s3], [WriteManifest, FlushManifest, VerifyStaged];
    ThreeInOrder(fmt, s, s1, s2, s3, w, WriteManifest, FlushManifest, VerifyStaged);
  }

  /** The root and the staging directory are synced, and the reference is handed out. */
  lemma Returns(fmt: Format, s: State, w: nat, x: nat, m: Manifest) returns (t: State, u: State)
    requires At(s, w) == Putting(x, m, SyncingDirs({})) && x in s.nodes && x in s.now && s.now[x].Staged? && x in s.disk
    requires PutOk(fmt, s.nodes[x], m, SyncingDirs({}))
    ensures Do(fmt, s, w, SyncRoot) == Some(t) && Do(fmt, t, w, ReturnStaged) == Some(u)
    ensures At(u, w).Idle? && u.now == s.now && x in u.disk && u.disk[x] == Staged
    ensures u.refs == s.refs + {Ref(x, m.id, fmt.fingerprint(m))} && u.acks == s.acks && u.doomed == s.doomed
    ensures x in u.nodes && Stable(u.nodes[x]) && u.nodes == s.nodes[x := u.nodes[x]]
    ensures u.nodes[x].files == s.nodes[x].files && u.nodes[x].manifest == s.nodes[x].manifest
  {
    var n := s.nodes[x].(unsynced := s.nodes[x].unsynced - {[]});
    t := SetWriter(SetNode(s, x, n), w, Putting(x, m, SyncingStaging));
    u := SetWriter(SyncStagingDir(t).(refs := t.refs + {Ref(x, m.id, fmt.fingerprint(m))}), w, Idle);
    BuildOk(fmt, s.nodes[x], m, SyncingDirs({}), SyncRoot, n, SyncingStaging);
  }

  /** A fresh directory, to copy everything into. */
  lemma Begins(fmt: Format, s: State, w: nat, x: nat, m: Manifest) returns (t: State)
    requires At(s, w).Idle? && SameKeys(s) && x !in s.nodes
    ensures Do(fmt, s, w, BeginPut(m, x)) == Some(t) && At(t, w) == Putting(x, m, Copying(m.files.Keys))
    ensures t.nodes == s.nodes[x := EMPTY_NODE] && t.now == s.now[x := Staged] && t.disk == s.disk[x := Gone]
    ensures t.refs == s.refs && t.acks == s.acks && t.doomed == s.doomed
    ensures PutOk(fmt, EMPTY_NODE, m, Copying(m.files.Keys))
  {
    t := SetWriter(s.(nodes := s.nodes[x := EMPTY_NODE], now := s.now[x := Staged], disk := s.disk[x := Gone]),
                   w, Putting(x, m, Copying(m.files.Keys)));
  }

  /** From a fresh directory to a bundle with only its own root left to sync. */
  lemma Fills(fmt: Format, s: State, w: nat, x: nat, m: Manifest, contents: map<Path, string>)
    returns (states: seq<State>, actions: seq<Action>)
    requires At(s, w) == Putting(x, m, Copying(m.files.Keys)) && x in s.nodes && x in s.now && s.nodes[x] == EMPTY_NODE
    requires Describes(fmt, m, contents) && PutOk(fmt, EMPTY_NODE, m, Copying(m.files.Keys))
    ensures Trace(fmt, states, w, actions) && states[0] == s
    ensures var t := states[|actions|];
            && At(t, w) == Putting(x, m, SyncingDirs({})) && OnlyBuilt(s, t, w, x) && PutOk(fmt, t.nodes[x], m, SyncingDirs({}))
            && Copied(t.nodes[x], contents, {}) && t.nodes[x].manifest == Some(File(fmt.render(m), true))
  {
    var copied, copies := CopyAll(fmt, s, w, x, m, contents, m.files.Keys);
    var s1 := copied[|copies|];
    var written, writes := Writes(fmt, s1, w, x, m, contents);
    var s2 := written[|writes|];
    var synced, syncs := SyncAll(fmt, s2, w, x, m, Directories(s1.nodes[x]));
    BuiltThrough(s, s1, s2, w, x);
    BuiltThrough(s, s2, synced[|syncs|], w, x);
    TraceJoin(fmt, written, synced, w, writes, syncs);
    states, actions := written + synced[1..], writes + syncs;
    TraceJoin(fmt, copied, states, w, copies, actions);
    states, actions := copied + states[1..], copies + actions;
  }

  /** Main result: staging content its manifest describes, undisturbed, hands out a reference to a durable bundle
      of exactly this content, and changes nothing else. */
  lemma PutStages(fmt: Format, s: State, w: nat, x: nat, m: Manifest, contents: map<Path, string>)
    returns (states: seq<State>, actions: seq<Action>)
    requires At(s, w).Idle? && SameKeys(s) && x !in s.nodes && Describes(fmt, m, contents)
    ensures actions != [] && actions[0] == BeginPut(m, x) && Trace(fmt, states, w, actions) && states[0] == s
    ensures var t := states[|actions|];
            && At(t, w).Idle? && t.refs == s.refs + {Ref(x, m.id, fmt.fingerprint(m))} && t.acks == s.acks && t.doomed == s.doomed
            && x in t.nodes && Staging(fmt, t.nodes[x], m, contents) && t.nodes == s.nodes[x := t.nodes[x]]
            && t.now == s.now[x := Staged] && x in t.disk && t.disk[x] == Staged
  {
    var s0 := Begins(fmt, s, w, x, m);
    var filled, fills, s2, s3 := FillsAndReturns(fmt, s0, w, x, m, contents);
    states, actions := Joined(fmt, s, s0, w, BeginPut(m, x), filled, fills, s2, s3);
    assert s.nodes[x := EMPTY_NODE][x := s3.nodes[x]] == s.nodes[x := s3.nodes[x]];
  }

  lemma FillsAndReturns(fmt: Format, s: State, w: nat, x: nat, m: Manifest, contents: map<Path, string>)
    returns (filled: seq<State>, fills: seq<Action>, t: State, u: State)
    requires At(s, w) == Putting(x, m, Copying(m.files.Keys)) && x in s.nodes && x in s.now && s.now[x].Staged? && x in s.disk
    requires s.nodes[x] == EMPTY_NODE && Describes(fmt, m, contents) && PutOk(fmt, EMPTY_NODE, m, Copying(m.files.Keys))
    ensures Trace(fmt, filled, w, fills) && filled[0] == s
    ensures Do(fmt, filled[|fills|], w, SyncRoot) == Some(t) && Do(fmt, t, w, ReturnStaged) == Some(u)
    ensures At(u, w).Idle? && u.refs == s.refs + {Ref(x, m.id, fmt.fingerprint(m))} && u.acks == s.acks && u.doomed == s.doomed
    ensures x in u.nodes && Staging(fmt, u.nodes[x], m, contents) && u.nodes == s.nodes[x := u.nodes[x]]
    ensures u.now == s.now && x in u.disk && u.disk[x] == Staged
  {
    filled, fills := Fills(fmt, s, w, x, m, contents);
    t, u := Returns(fmt, filled[|fills|], w, x, m);
    assert s.nodes[x := filled[|fills|].nodes[x]][x := u.nodes[x]] == s.nodes[x := u.nodes[x]];
  }

  lemma Joined(fmt: Format, s: State, s0: State, w: nat, begin: Action, filled: seq<State>, fills: seq<Action>, s2: State, s3: State)
    returns (states: seq<State>, actions: seq<Action>)
    requires Do(fmt, s, w, begin) == Some(s0) && Trace(fmt, filled, w, fills) && filled[0] == s0
    requires Do(fmt, filled[|fills|], w, SyncRoot) == Some(s2) && Do(fmt, s2, w, ReturnStaged) == Some(s3)
    ensures actions != [] && actions[0] == begin && Trace(fmt, states, w, actions) && states[0] == s && states[|actions|] == s3
  {
    OneStep(fmt, s2, w, ReturnStaged, s3);
    StepThen(fmt, filled[|fills|], w, SyncRoot, [s2, s3], [ReturnStaged]);
    var last, end := [filled[|fills|]] + [s2, s3], [SyncRoot] + [ReturnStaged];
    TraceJoin(fmt, filled, last, w, fills, end);
    var tail, rest := filled + last[1..], fills + end;
    StepThen(fmt, s, w, begin, tail, rest);
    states, actions := [s] + tail, [begin] + rest;
  }

  /** What does not verify is cleared away: no reference is handed out and the directory is gone. */
  lemma MismatchCleared(fmt: Format, s: State, w: nat, x: nat, m: Manifest) returns (states: seq<State>)
    requires At(s, w) == Putting(x, m, Verifying) && x in s.nodes && x in s.now && !Verifies(fmt, s.nodes[x], m)
    ensures Trace(fmt, states, w, [VerifyStaged, ClearDirectory]) && states[0] == s
    ensures states[2] == s.(now := s.now[x := Gone], writers := s.writers[w := Idle])
  {
    var s1 := SetWriter(s, w, Putting(x, m, Clearing));
    Refused(fmt, s, w, x, m);
    var s2 := SetWriter(s1.(now := s1.now[x := Gone]), w, Idle);
    assert s.writers[w := Putting(x, m, Clearing)][w := Idle] == s.writers[w := Idle];
    OneStep(fmt, s1, w, ClearDirectory, s2);
    StepThen(fmt, s, w, VerifyStaged, [s1, s2], [ClearDirectory]);
    states := [s] + [s1, s2];
    assert [VerifyStaged] + [ClearDirectory] == [VerifyStaged, ClearDirectory];
  }

  lemma Refused(fmt: Format, s: State, w: nat, x: nat, m: Manifest)
    requires At(s, w) == Putting(x, m, Verifying) && x in s.nodes && x in s.now && !Verifies(fmt, s.nodes[x], m)
    ensures Do(fmt, s, w, VerifyStaged) == Some(SetWriter(s, w, Putting(x, m, Clearing)))
  {
    assert s.nodes == s.nodes[x := s.nodes[x]];
    assert Do(fmt, s, w, VerifyStaged) == PutStep(fmt, s, w, x, m, Verifying, VerifyStaged);
  }

  // ---- commit ------------------------------------------------------------------------------------

  /** The reference's bundle is staged, whole, and under its own digest. */
  predicate Committable(fmt: Format, s: State, r: Ref) {
    && r in s.refs && r.node in s.nodes && r.node in s.now && s.now[r.node].Staged?
    && Complete(fmt, s.nodes[r.node], r.id) && DigestOf(fmt, s.nodes[r.node]) == r.digest
  }

  /** A commit that finds no destination goes on to look at the staging directory. */
  lemma FindsFree(fmt: Format, s: State, w: nat, r: Ref) returns (t: State, u: State)
    requires At(s, w).Idle? && r in s.refs && r.node in s.nodes && r.node in s.now && !Taken(s, r.id)
    ensures Do(fmt, s, w, BeginCommit(r)) == Some(t) && Do(fmt, t, w, Check) == Some(u)
    ensures u == SetWriter(s, w, Committing(r, Inspecting))
  {
    t := SetWriter(s, w, Committing(r, Checking));
    u := SetWriter(s, w, Committing(r, Inspecting));
    assert !Taken(t, r.id);
    assert t.writers[w := Committing(r, Inspecting)] == u.writers;
    assert Do(fmt, t, w, Check) == DecideStep(fmt, t, w, r, Checking, Check);
  }

  lemma Inspects(fmt: Format, s: State, w: nat, r: Ref)
    requires At(s, w) == Committing(r, Inspecting) && r in s.refs && r.node in s.nodes && r.node in s.now
    ensures Do(fmt, s, w, Inspect) == Some(SetWriter(s, w, if Committable(fmt, s, r) then Committing(r, Renaming) else Idle))
  {
    assert Do(fmt, s, w, Inspect) == DecideStep(fmt, s, w, r, Inspecting, Inspect);
  }

  lemma Renames(fmt: Format, s: State, w: nat, r: Ref)
    requires At(s, w) == Committing(r, Renaming) && r.node in s.nodes && r.node in s.now && s.now[r.node].Staged? && !Taken(s, r.id)
    ensures Do(fmt, s, w, Rename) == Some(SetWriter(s.(now := s.now[r.node := Committed(r.id)]), w, Committing(r, SyncingCommitted)))
  {
    assert Do(fmt, s, w, Rename) == PublishStep(fmt, s, w, r, Renaming, Rename);
  }

  /** The syncs that make the rename durable, before the answer. */
  lemma Answers(fmt: Format, s: State, w: nat, r: Ref) returns (t: State, u: State)
    requires At(s, w) == Committing(r, SyncingCommitted) && r.node in s.nodes && SameKeys(s) && s.now[r.node] == Committed(r.id)
    ensures Do(fmt, s, w, SyncCommitted) == Some(t) && Do(fmt, t, w, ReturnCommitted) == Some(u)
    ensures At(u, w).Idle? && u.now == s.now && r.node in u.disk && u.disk[r.node] == Committed(r.id)
    ensures u.nodes == s.nodes && u.acks == s.acks + {(r.id, r.digest)} && u.refs == s.refs && u.doomed == s.doomed
  {
    t := SetWriter(SyncCommittedDir(s), w, Committing(r, SyncingSource));
    u := Acknowledge(SyncStagingDir(t), w, r);
    assert Do(fmt, s, w, SyncCommitted) == PublishStep(fmt, s, w, r, SyncingCommitted, SyncCommitted);
    ReturnsCommitted(fmt, t, w, r);
  }

  lemma ReturnsCommitted(fmt: Format, s: State, w: nat, r: Ref)
    requires At(s, w) == Committing(r, SyncingSource) && r.node in s.nodes && r.node in s.now
    ensures Do(fmt, s, w, ReturnCommitted) == Some(Acknowledge(SyncStagingDir(s), w, r))
  {
    assert Do(fmt, s, w, ReturnCommitted) == PublishStep(fmt, s, w, r, SyncingSource, ReturnCommitted);
  }

  /** Main result: committing a staged bundle under a free id, undisturbed, publishes it for good and is
      acknowledged. */
  lemma CommitPublishes(fmt: Format, s: State, w: nat, r: Ref) returns (states: seq<State>)
    requires SameKeys(s) && At(s, w).Idle? && Committable(fmt, s, r) && !Taken(s, r.id)
    ensures Trace(fmt, states, w, [BeginCommit(r), Check, Inspect, Rename, SyncCommitted, ReturnCommitted]) && states[0] == s
    ensures var t := states[6];
            && At(t, w).Idle? && t.now == s.now[r.node := Committed(r.id)] && r.node in t.disk && t.disk[r.node] == Committed(r.id)
            && t.nodes == s.nodes && t.acks == s.acks + {(r.id, r.digest)} && t.refs == s.refs
  {
    var s1, s2, s3 := Inspected(fmt, s, w, r);
    var s4, s5, s6 := Published(fmt, s3, w, r);
    states := [s, s1, s2, s3, s4, s5, s6];
    SixSteps(fmt, s, s1, s2, s3, s4, s5, s6, w, BeginCommit(r), Check, Inspect, Rename, SyncCommitted, ReturnCommitted);
  }

  lemma Inspected(fmt: Format, s: State, w: nat, r: Ref) returns (t: State, u: State, v: State)
    requires At(s, w).Idle? && Committable(fmt, s, r) && !Taken(s, r.id)
    ensures Do(fmt, s, w, BeginCommit(r)) == Some(t) && Do(fmt, t, w, Check) == Some(u) && Do(fmt, u, w, Inspect) == Some(v)
    ensures v == SetWriter(s, w, Committing(r, Renaming)) && !Taken(v, r.id)
  {
    t, u := FindsFree(fmt, s, w, r);
    Inspects(fmt, u, w, r);
    v := SetWriter(u, w, Committing(r, Renaming));
    assert v.writers == s.writers[w := Committing(r, Renaming)];
  }

  lemma Published(fmt: Format, s: State, w: nat, r: Ref) returns (t: State, u: State, v: State)
    requires At(s, w) == Committing(r, Renaming) && SameKeys(s) && r.node in s.now && s.now[r.node].Staged? && !Taken(s, r.id)
    ensures Do(fmt, s, w, Rename) == Some(t) && Do(fmt, t, w, SyncCommitted) == Some(u) && Do(fmt, u, w, ReturnCommitted) == Some(v)
    ensures At(v, w).Idle? && v.now == s.now[r.node := Committed(r.id)] && r.node in v.disk && v.disk[r.node] == Committed(r.id)
    ensures v.nodes == s.nodes && v.acks == s.acks + {(r.id, r.digest)} && v.refs == s.refs
  {
    Renames(fmt, s, w, r);
    t := SetWriter(s.(now := s.now[r.node := Committed(r.id)]), w, Committing(r, SyncingCommitted));
    u, v := Answers(fmt, t, w, r);
  }

  lemma SixSteps(fmt: Format, s0: State, s1: State, s2: State, s3: State, s4: State, s5: State, s6: State, w: nat,
                 a: Action, b: Action, c: Action, d: Action, e: Action, f: Action)
    requires Do(fmt, s0, w, a) == Some(s1) && Do(fmt, s1, w, b) == Some(s2) && Do(fmt, s2, w, c) == Some(s3)
    requires Do(fmt, s3, w, d) == Some(s4) && Do(fmt, s4, w, e) == Some(s5) && Do(fmt, s5, w, f) == Some(s6)
    ensures Trace(fmt, [s0, s1, s2, s3, s4, s5, s6], w, [a, b, c, d, e, f])
  {
    ThreeInOrder(fmt, s0, s1, s2, s3, w, a, b, c);
    ThreeInOrder(fmt, s3, s4, s5, s6, w, d, e, f);
    TraceJoin(fmt, [s0, s1, s2, s3], [s3, s4, s5, s6], w, [a, b, c], [d, e, f]);
    assert [s0, s1, s2, s3] + [s3, s4, s5, s6][1..] == [s0, s1, s2, s3, s4, s5, s6];
    assert [a, b, c] + [d, e, f] == [a, b, c, d, e, f];
  }

  /** What is not a whole bundle of the reference's id and digest is refused, and nothing changes. */
  lemma CommitRefuses(fmt: Format, s: State, w: nat, r: Ref) returns (states: seq<State>)
    requires At(s, w).Idle? && r in s.refs && r.node in s.nodes && r.node in s.now && !Taken(s, r.id) && !Committable(fmt, s, r)
    ensures Trace(fmt, states, w, [BeginCommit(r), Check, Inspect]) && states[0] == s
    ensures states[3] == s.(writers := s.writers[w := Idle])
  {
    var s1, s2 := FindsFree(fmt, s, w, r);
    Inspects(fmt, s2, w, r);
    var s3 := s.(writers := s.writers[w := Idle]);
    assert s2.writers[w := Idle] == s3.writers;
    states := [s, s1, s2, s3];
    ThreeInOrder(fmt, s, s1, s2, s3, w, BeginCommit(r), Check, Inspect);
  }

  /** A bundle staged again under an id that has it already is discarded, and the commit is acknowledged. */
  lemma ReplayDiscarded(fmt: Format, s: State, w: nat, r: Ref, y: nat) returns (states: seq<State>)
    requires SameKeys(s) && At(s, w).Idle? && Committable(fmt, s, r)
    requires y in s.now && s.now[y] == Committed(r.id) && Complete(fmt, s.nodes[y], r.id) && DigestOf(fmt, s.nodes[y]) == r.digest
    ensures Trace(fmt, states, w, [BeginCommit(r), Check, ReadExisting(y), SyncExisting, Discard, RemoveDirectory, ReturnReplayed])
    ensures states[0] == s
    ensures var t := states[7]; At(t, w).Idle? && t.now == s.now[r.node := Gone] && t.nodes == s.nodes && t.acks == s.acks + {(r.id, r.digest)}
  {
    var s1, s2 := SeesDestination(fmt, s, w, r, y);
    ExistingRead(fmt, s2, w, r, y);
    var s3 := SetWriter(s2, w, Committing(r, SyncingExisting));
    ExistingSynced(fmt, s3, w, r);
    var s4 := SetWriter(SyncCommittedDir(s3), w, Committing(r, Discarding));
    var s5, s6, s7 := Discards(fmt, s4, w, r);
    ThreeInOrder(fmt, s, s1, s2, s3, w, BeginCommit(r), Check, ReadExisting(y));
    StepThen(fmt, s3, w, SyncExisting, [s4, s5, s6, s7], [Discard, RemoveDirectory, ReturnReplayed]);
    states := SevenJoin(fmt, [s, s1, s2, s3], [s3] + [s4, s5, s6, s7], w, BeginCommit(r), Check, ReadExisting(y), SyncExisting, Discard, RemoveDirectory, ReturnReplayed);
  }

  lemma SevenJoin(fmt: Format, x: seq<State>, y: seq<State>, w: nat, a: Action, b: Action, c: Action, d: Action, e: Action, f: Action, g: Action)
    returns (states: seq<State>)
    requires Trace(fmt, x, w, [a, b, c]) && Trace(fmt, y, w, [d] + [e, f, g]) && x[3] == y[0]
    ensures Trace(fmt, states, w, [a, b, c, d, e, f, g]) && states[0] == x[0] && states[7] == y[4]
  {
    TraceJoin(fmt, x, y, w, [a, b, c], [d] + [e, f, g]);
    states := x + y[1..];
    assert [a, b, c] + ([d] + [e, f, g]) == [a, b, c, d, e, f, g];
  }

  lemma Discards(fmt: Format, s: State, w: nat, r: Ref) returns (t: State, u: State, v: State)
    requires At(s, w) == Committing(r, Discarding) && Committable(fmt, s, r)
    ensures Trace(fmt, [s, t, u, v], w, [Discard, RemoveDirectory, ReturnReplayed])
    ensures At(v, w).Idle? && v.now == s.now[r.node := Gone] && v.nodes == s.nodes && v.acks == s.acks + {(r.id, r.digest)}
  {
    t := SetWriter(s.(doomed := s.doomed[r.node := r.id]), w, Committing(r, Removing));
    u := SetWriter(t.(now := t.now[r.node := Gone]), w, Committing(r, SyncingRemoval));
    v := Acknowledge(SyncStagingDir(u), w, r);
    DiscardDooms(fmt, s, w, r);
    RemovesDirectory(fmt, t, w, r);
    ReturnsReplayed(fmt, u, w, r);
    ThreeInOrder(fmt, s, t, u, v, w, Discard, RemoveDirectory, ReturnReplayed);
  }

  lemma DiscardDooms(fmt: Format, s: State, w: nat, r: Ref)
    requires At(s, w) == Committing(r, Discarding) && Committable(fmt, s, r)
    ensures Do(fmt, s, w, Discard) == Some(SetWriter(s.(doomed := s.doomed[r.node := r.id]), w, Committing(r, Removing)))
  {
    assert Do(fmt, s, w, Discard) == DiscardStep(fmt, s, w, r, Discarding, Discard);
  }

  lemma ReturnsReplayed(fmt: Format, s: State, w: nat, r: Ref)
    requires At(s, w) == Committing(r, SyncingRemoval) && r.node in s.nodes && r.node in s.now
    ensures Do(fmt, s, w, ReturnReplayed) == Some(Acknowledge(SyncStagingDir(s), w, r))
  {
    assert Do(fmt, s, w, ReturnReplayed) == PublishStep(fmt, s, w, r, SyncingRemoval, ReturnReplayed);
  }

  lemma RemovesDirectory(fmt: Format, s: State, w: nat, r: Ref)
    requires At(s, w) == Committing(r, Removing) && r.node in s.nodes && r.node in s.now && s.now[r.node].Staged?
    ensures Do(fmt, s, w, RemoveDirectory) == Some(SetWriter(s.(now := s.now[r.node := Gone]), w, Committing(r, SyncingRemoval)))
  {
    assert Do(fmt, s, w, RemoveDirectory) == DiscardStep(fmt, s, w, r, Removing, RemoveDirectory);
  }

  /** A writer that loses the rename to another moves nothing, and compares with the winner. */
  lemma LostRename(fmt: Format, s: State, w: nat, r: Ref)
    requires At(s, w) == Committing(r, Renaming) && r.node in s.nodes && r.node in s.now && s.now[r.node].Staged? && Taken(s, r.id)
    ensures Do(fmt, s, w, Rename) == Some(s.(writers := s.writers[w := Committing(r, Existing)]))
  {
    assert Do(fmt, s, w, Rename) == PublishStep(fmt, s, w, r, Renaming, Rename);
  }

  // ---- whole histories ---------------------------------------------------------------------------

  /** Whatever directories a crash returns to where they were last synced, and whatever it leaves of what is
      not stable, is one of the crashes. */
  lemma CrashMay(fmt: Format, s: State, back: set<nat>, left: map<nat, Node>) returns (t: State)
    requires SameKeys(s) && left.Keys == s.nodes.Keys && forall x :: x in left ==> Stable(left[x])
    ensures Crash(s, t) && Next(fmt, s, t)
    ensures forall x :: x in s.now ==> t.now[x] == (if x in back then s.disk[x] else s.now[x])
    ensures forall x :: x in s.nodes ==> t.nodes[x] == (if Stable(s.nodes[x]) then s.nodes[x] else left[x])
  {
    var now := map x | x in s.now :: if x in back then s.disk[x] else s.now[x];
    var nodes := map x | x in s.nodes :: if Stable(s.nodes[x]) then s.nodes[x] else left[x];
    t := State(nodes, now, now, map[], s.refs, s.acks, map[]);
  }

  /** Until a file, the manifest and every directory of it is synced, a crash may leave anything of a bundle. */
  lemma UnsyncedLost(fmt: Format, s: State, x: nat, left: Node) returns (t: State)
    requires SameKeys(s) && x in s.nodes && Stable(left)
    requires (exists p :: p in s.nodes[x].files && !s.nodes[x].files[p].synced)
             || (s.nodes[x].manifest.Some? && !s.nodes[x].manifest.value.synced) || s.nodes[x].unsynced != {}
    ensures Next(fmt, s, t) && x in t.nodes && t.nodes[x] == left
  {
    t := CrashMay(fmt, s, {}, map y | y in s.nodes :: if y == x then left else EMPTY_NODE.(unsynced := {}));
  }

  lemma {:induction false} TraceRuns(fmt: Format, run: seq<State>, states: seq<State>, w: nat, actions: seq<Action>)
    requires IsRun(fmt, run) && Trace(fmt, states, w, actions) && states[0] == run[|run| - 1]
    ensures IsRun(fmt, run + states[1..])
  {
    var all := run + states[1..];
    forall i | 0 <= i < |all| - 1 ensures StepAt(fmt, all, i) {
      if i < |run| - 1 {
        assert StepAt(fmt, run, i) && all[i] == run[i] && all[i + 1] == run[i + 1];
      } else {
        var k := i - (|run| - 1);
        assert all[i] == states[k] && all[i + 1] == states[k + 1];
        assert Do(fmt, states[k], w, actions[k]) == Some(states[k + 1]);
      }
    }
  }

  /** Main result: any bundle whose manifest describes it can be published, durably, from the empty store. */
  lemma AnythingPublished(fmt: Format, m: Manifest, contents: map<Path, string>, w: nat) returns (run: seq<State>)
    requires Faithful(fmt) && Describes(fmt, m, contents)
    ensures IsRun(fmt, run)
    ensures var t := run[|run| - 1];
            && (m.id, fmt.fingerprint(m)) in t.acks && 0 in t.disk && t.disk[0] == Committed(m.id)
            && 0 in t.nodes && Staging(fmt, t.nodes[0], m, contents)
  {
    var staged, puts := PutStages(fmt, INITIAL, w, 0, m, contents);
    TraceRuns(fmt, [INITIAL], staged, w, puts);
    run := [INITIAL] + staged[1..];
    var s, r := staged[|puts|], Ref(0, m.id, fmt.fingerprint(m));
    assert run[|run| - 1] == s;
    RunInv(fmt, run, |run| - 1);
    StagingWhole(fmt, s.nodes[0], m, contents);
    assert !Taken(s, m.id);
    var committed := CommitPublishes(fmt, s, w, r);
    TraceRuns(fmt, run, committed, w, [BeginCommit(r), Check, Inspect, Rename, SyncCommitted, ReturnCommitted]);
    run := run + committed[1..];
  }

  lemma StagingWhole(fmt: Format, n: Node, m: Manifest, contents: map<Path, string>)
    requires Faithful(fmt) && Describes(fmt, m, contents) && Staging(fmt, n, m, contents)
    ensures Complete(fmt, n, m.id) && DigestOf(fmt, n) == fmt.fingerprint(m)
  {
    CopiedVerifies(fmt, n, m, contents);
  }
}
