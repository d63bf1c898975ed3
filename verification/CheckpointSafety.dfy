/** What publishing checkpoints guarantees, over every run of racing writers and crashes. */
module CheckpointSafety {
  import opened Util
  import opened CheckpointStore
  import opened CheckpointInvariant

  // ---- whole runs --------------------------------------------------------------------------------------

  ghost predicate StepAt(fmt: Format, run: seq<State>, i: nat)
    requires i + 1 < |run|
  {
    Next(fmt, run[i], run[i + 1])
  }

  ghost predicate IsRun(fmt: Format, run: seq<State>) {
    && run != [] && run[0] == INITIAL
    && forall i :: 0 <= i < |run| - 1 ==> StepAt(fmt, run, i)
  }

  lemma {:induction false} RunInv(fmt: Format, run: seq<State>, i: nat)
    requires Faithful(fmt) && IsRun(fmt, run) && i < |run|
    ensures Inv(fmt, run[i])
  {
    if i > 0 {
      RunInv(fmt, run, i - 1);
      assert StepAt(fmt, run, i - 1);
      NextKeepsInv(fmt, run[i - 1], run[i]);
    }
  }

  lemma KeptThrough(fmt: Format, s: State, t: State, u: State)
    requires SameKeys(s) && SameKeys(t) && Kept(s, t) && Kept(t, u)
    ensures Kept(s, u)
  {
    forall y | y in s.disk && s.disk[y].Committed?
      ensures y in u.disk && u.disk[y] == s.disk[y] && (y in s.nodes ==> y in u.nodes && u.nodes[y] == s.nodes[y])
    {
      assert y in t.disk && t.disk[y] == s.disk[y];
    }
  }

  lemma StepKeeps(fmt: Format, run: seq<State>, i: nat)
    requires Faithful(fmt) && IsRun(fmt, run) && i + 1 < |run|
    ensures Kept(run[i], run[i + 1]) && run[i].acks <= run[i + 1].acks && SameKeys(run[i]) && SameKeys(run[i + 1])
  {
    RunInv(fmt, run, i);
    assert StepAt(fmt, run, i);
    NextKeepsInv(fmt, run[i], run[i + 1]);
  }

  lemma {:induction false} RunKeeps(fmt: Format, run: seq<State>, i: nat, j: nat)
    requires Faithful(fmt) && IsRun(fmt, run) && i <= j < |run| && SameKeys(run[i])
    ensures Kept(run[i], run[j]) && run[i].acks <= run[j].acks
    decreases j - i
  {
    if i < j {
      RunKeeps(fmt, run, i, j - 1);
      StepKeeps(fmt, run, j - 1);
      KeptThrough(fmt, run[i], run[j - 1], run[j]);
    }
  }

  /** Main result: in every run of racing writers with crashes anywhere, whatever is in the committed
      directory is a complete bundle that matches its own manifest, under its own id, once per id. */
  lemma CommittedIsComplete(fmt: Format, run: seq<State>, i: nat, x: nat)
    requires Faithful(fmt) && IsRun(fmt, run) && i < |run|
    requires x in run[i].now && run[i].now[x].Committed?
    ensures x in run[i].nodes && Stable(run[i].nodes[x]) && Complete(fmt, run[i].nodes[x], run[i].now[x].id)
    ensures forall y :: y in run[i].now && run[i].now[y] == run[i].now[x] ==> y == x
  {
    RunInv(fmt, run, i);
    assert Sealed(fmt, run[i], x, run[i].now[x].id);
  }

  /** `get`: the bundle committed under an id, if its directory is there and verifies. */
  ghost predicate Gets(fmt: Format, s: State, id: Id, digest: Digest) {
    exists x :: x in s.now && x in s.nodes && s.now[x] == Committed(id)
                && Complete(fmt, s.nodes[x], id) && DigestOf(fmt, s.nodes[x]) == digest
  }

  /** Main result: a reference `commit` returned survives everything after it. At every later moment,
      crashes included, the bundle is durably committed, unchanged, and `get` finds it. */
  lemma AcknowledgedSurvives(fmt: Format, run: seq<State>, i: nat, j: nat, id: Id, digest: Digest)
    requires Faithful(fmt) && IsRun(fmt, run) && i <= j < |run|
    requires (id, digest) in run[i].acks
    ensures Durable(fmt, run[j], id, digest) && Gets(fmt, run[j], id, digest)
    ensures exists x :: x in run[i].disk && x in run[j].disk && x in run[i].nodes && x in run[j].nodes
                        && run[i].disk[x] == Committed(id) && run[j].disk[x] == Committed(id)
                        && run[j].nodes[x] == run[i].nodes[x]
  {
    RunInv(fmt, run, i);
    RunInv(fmt, run, j);
    RunKeeps(fmt, run, i, j);
    assert Durable(fmt, run[i], id, digest);
    var x :| x in run[i].disk && run[i].disk[x] == Committed(id) && Sealed(fmt, run[i], x, id) && DigestOf(fmt, run[i].nodes[x]) == digest;
    KeptDurable(fmt, run[i], run[j], id, digest);
    assert run[j].now[x] == Committed(id);
  }

  /** Committing is idempotent and never replaces: all acknowledgements of one id, in any session, name
      one digest. */
  lemma OneDigestPerId(fmt: Format, run: seq<State>, i: nat, id: Id, digest: Digest, digest': Digest)
    requires Faithful(fmt) && IsRun(fmt, run) && i < |run|
    requires (id, digest) in run[i].acks && (id, digest') in run[i].acks
    ensures digest == digest'
  {
    RunInv(fmt, run, i);
    assert Durable(fmt, run[i], id, digest) && Durable(fmt, run[i], id, digest');
  }

  /** *w* takes the steps one after another, through these states. */
  ghost predicate Trace(fmt: Format, states: seq<State>, w: nat, actions: seq<Action>) {
    && |states| == |actions| + 1
    && forall i :: 0 <= i < |actions| ==> Do(fmt, states[i], w, actions[i]) == Some(states[i + 1])
  }

  /** The same, from where the destination was seen to exist. */
  lemma ExistingAcknowledged(fmt: Format, s: State, w: nat, r: Ref, y: nat) returns (states: seq<State>)
    requires At(s, w) == Committing(r, Existing) && r.node in s.nodes && r.node in s.now && y in s.nodes
    requires SameKeys(s) && y in s.now && s.now[y] == Committed(r.id) && !s.now[r.node].Staged?
    requires Complete(fmt, s.nodes[y], r.id) && DigestOf(fmt, s.nodes[y]) == r.digest
    ensures Trace(fmt, states, w, [ReadExisting(y), SyncExisting, Discard]) && states[0] == s
    ensures (r.id, r.digest) in states[3].acks && At(states[3], w).Idle?
  {
    var s3 := SetWriter(s, w, Committing(r, SyncingExisting));
    ExistingRead(fmt, s, w, r, y);
    var s4, s5 := SyncedAcknowledged(fmt, s3, w, r);
    states := [s, s3, s4, s5];
    ThreeSteps(fmt, states, w, ReadExisting(y), SyncExisting, Discard);
  }

  lemma SyncedAcknowledged(fmt: Format, s: State, w: nat, r: Ref) returns (s1: State, s2: State)
    requires At(s, w) == Committing(r, SyncingExisting) && r.node in s.nodes && r.node in s.now && !s.now[r.node].Staged?
    ensures Do(fmt, s, w, SyncExisting) == Some(s1) && Do(fmt, s1, w, Discard) == Some(s2)
    ensures (r.id, r.digest) in s2.acks && At(s2, w).Idle?
  {
    s1 := SetWriter(SyncCommittedDir(s), w, Committing(r, Discarding));
    s2 := Acknowledge(s1, w, r);
    ExistingSynced(fmt, s, w, r);
    NothingToDiscard(fmt, s1, w, r);
  }

  lemma ThreeSteps(fmt: Format, states: seq<State>, w: nat, a: Action, b: Action, c: Action)
    requires |states| == 4 && Do(fmt, states[0], w, a) == Some(states[1])
    requires Do(fmt, states[1], w, b) == Some(states[2]) && Do(fmt, states[2], w, c) == Some(states[3])
    ensures Trace(fmt, states, w, [a, b, c])
  {
  }

  lemma ExistingRead(fmt: Format, s: State, w: nat, r: Ref, y: nat)
    requires At(s, w) == Committing(r, Existing) && r.node in s.nodes && r.node in s.now && y in s.nodes
    requires y in s.now && s.now[y] == Committed(r.id) && Complete(fmt, s.nodes[y], r.id) && DigestOf(fmt, s.nodes[y]) == r.digest
    ensures Do(fmt, s, w, ReadExisting(y)) == Some(SetWriter(s, w, Committing(r, SyncingExisting)))
  {
  }

  lemma ExistingSynced(fmt: Format, s: State, w: nat, r: Ref)
    requires At(s, w) == Committing(r, SyncingExisting) && r.node in s.nodes && r.node in s.now
    ensures Do(fmt, s, w, SyncExisting) == Some(SetWriter(SyncCommittedDir(s), w, Committing(r, Discarding)))
  {
  }

  lemma NothingToDiscard(fmt: Format, s: State, w: nat, r: Ref)
    requires At(s, w) == Committing(r, Discarding) && r.node in s.nodes && r.node in s.now && !s.now[r.node].Staged?
    ensures Do(fmt, s, w, Discard) == Some(Acknowledge(s, w, r))
  {
  }

  lemma SeesDestination(fmt: Format, s: State, w: nat, r: Ref, y: nat) returns (s1: State, s2: State)
    requires At(s, w).Idle? && r in s.refs && r.node in s.nodes && r.node in s.now
    requires y in s.now && s.now[y] == Committed(r.id)
    ensures Do(fmt, s, w, BeginCommit(r)) == Some(s1) && Do(fmt, s1, w, Check) == Some(s2)
    ensures s2 == SetWriter(s, w, Committing(r, Existing))
  {
    s1 := SetWriter(s, w, Committing(r, Checking));
    s2 := SetWriter(s1, w, Committing(r, Existing));
    assert Taken(s1, r.id);
    assert Do(fmt, s1, w, Check) == DecideStep(fmt, s1, w, r, Checking, Check);
    assert s2.writers == s.writers[w := Committing(r, Existing)];
  }

  /** A caller that lost its answer after the rename, to a crash or a racing writer, can repeat the
      identical commit and is acknowledged. */
  lemma RetryAcknowledged(fmt: Format, s: State, w: nat, r: Ref, y: nat) returns (states: seq<State>)
    requires Inv(fmt, s) && At(s, w).Idle? && r in s.refs && r.node in s.nodes && r.node in s.now && !s.now[r.node].Staged?
    requires y in s.now && s.now[y] == Committed(r.id) && DigestIs(fmt, s, y, r.digest)
    ensures Trace(fmt, states, w, [BeginCommit(r), Check, ReadExisting(y), SyncExisting, Discard]) && states[0] == s
    ensures (r.id, r.digest) in states[5].acks && At(states[5], w).Idle?
  {
    assert Sealed(fmt, s, y, r.id);
    states := RetryTrace(fmt, s, w, r, y);
  }

  lemma RetryTrace(fmt: Format, s: State, w: nat, r: Ref, y: nat) returns (states: seq<State>)
    requires SameKeys(s) && At(s, w).Idle? && r in s.refs && r.node in s.nodes && r.node in s.now && !s.now[r.node].Staged?
    requires y in s.nodes && y in s.now && s.now[y] == Committed(r.id)
    requires Complete(fmt, s.nodes[y], r.id) && DigestOf(fmt, s.nodes[y]) == r.digest
    ensures Trace(fmt, states, w, [BeginCommit(r), Check, ReadExisting(y), SyncExisting, Discard]) && states[0] == s
    ensures (r.id, r.digest) in states[5].acks && At(states[5], w).Idle?
  {
    var s1, s2 := SeesDestination(fmt, s, w, r, y);
    var rest := ExistingAcknowledged(fmt, s2, w, r, y);
    states := [s, s1] + rest;
    TraceJoin(fmt, [s, s1, s2], rest, w, [BeginCommit(r), Check], [ReadExisting(y), SyncExisting, Discard]);
    assert [s, s1, s2] + rest[1..] == states;
    assert [BeginCommit(r), Check] + [ReadExisting(y), SyncExisting, Discard] == [BeginCommit(r), Check, ReadExisting(y), SyncExisting, Discard];
  }

  lemma TraceJoin(fmt: Format, a: seq<State>, b: seq<State>, w: nat, before: seq<Action>, after: seq<Action>)
    requires Trace(fmt, a, w, before) && Trace(fmt, b, w, after) && a[|a| - 1] == b[0]
    ensures Trace(fmt, a + b[1..], w, before + after)
  {
    var states, actions := a + b[1..], before + after;
    forall i | 0 <= i < |actions| ensures Do(fmt, states[i], w, actions[i]) == Some(states[i + 1]) {
      if i < |before| {
        assert Do(fmt, a[i], w, before[i]) == Some(a[i + 1]);
      } else {
        assert states[i] == b[i - |before|] && states[i + 1] == b[i - |before| + 1];
        assert Do(fmt, b[i - |before|], w, after[i - |before|]) == Some(b[i - |before| + 1]);
      }
    }
  }

  lemma ConflictRead(fmt: Format, s: State, w: nat, r: Ref, y: nat)
    requires At(s, w) == Committing(r, Existing) && r.node in s.nodes && r.node in s.now && y in s.nodes
    requires y in s.now && s.now[y] == Committed(r.id) && !DigestIs(fmt, s, y, r.digest)
    ensures Do(fmt, s, w, ReadExisting(y)) == Some(SetWriter(s, w, Idle))
  {
  }

  /** A commit of another manifest under a published id is refused, and changes nothing. */
  lemma ConflictRefused(fmt: Format, s: State, w: nat, r: Ref, y: nat) returns (states: seq<State>)
    requires Inv(fmt, s) && At(s, w).Idle? && r in s.refs && r.node in s.nodes && r.node in s.now
    requires y in s.now && s.now[y] == Committed(r.id) && !DigestIs(fmt, s, y, r.digest)
    ensures Trace(fmt, states, w, [BeginCommit(r), Check, ReadExisting(y)]) && states[0] == s
    ensures states[3] == s.(writers := s.writers[w := Idle])
  {
    states := ConflictTrace(fmt, s, w, r, y);
  }

  lemma ConflictTrace(fmt: Format, s: State, w: nat, r: Ref, y: nat) returns (states: seq<State>)
    requires At(s, w).Idle? && r in s.refs && r.node in s.nodes && r.node in s.now && y in s.nodes
    requires y in s.now && s.now[y] == Committed(r.id) && !DigestIs(fmt, s, y, r.digest)
    ensures Trace(fmt, states, w, [BeginCommit(r), Check, ReadExisting(y)]) && states[0] == s
    ensures states[3] == s.(writers := s.writers[w := Idle])
  {
    var s1, s2 := SeesDestination(fmt, s, w, r, y);
    var s3 := s.(writers := s.writers[w := Idle]);
    ConflictRead(fmt, s2, w, r, y);
    assert SetWriter(s2, w, Idle) == s3 by { assert s2.writers[w := Idle] == s.writers[w := Idle]; }
    states := [s, s1, s2, s3];
    ThreeSteps(fmt, states, w, BeginCommit(r), Check, ReadExisting(y));
  }
}
