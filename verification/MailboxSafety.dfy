/** What the daemon's mailbox, lease and rest protocol guarantees, over every interleaving of sessions,
    clients and crashes. */
module MailboxSafety {
  import opened Util
  import opened Mailbox
  import opened MailboxInvariant

  // ---- whole runs ----------------------------------------------------------------------------------------

  ghost predicate Next(sys: System, sys': System) {
    exists id: nat, a :: Do(sys, id, a) == Some(sys')
  }

  ghost predicate NextAt(run: seq<System>, i: nat)
    requires i + 1 < |run|
  {
    Next(run[i], run[i + 1])
  }

  ghost predicate IsRun(run: seq<System>) {
    run != [] && run[0] == EMPTY && forall i :: 0 <= i < |run| - 1 ==> NextAt(run, i)
  }

  lemma {:induction false} RunInv(run: seq<System>, i: nat)
    requires IsRun(run) && i < |run|
    ensures Inv(run[i])
  {
    if i > 0 {
      RunInv(run, i - 1);
      assert NextAt(run, i - 1);
      var id: nat, a :| Do(run[i - 1], id, a) == Some(run[i]);
      DoKeepsInv(run[i - 1], id, a, run[i]);
    }
  }

  lemma GrowsAt(run: seq<System>, i: nat)
    requires IsRun(run) && i + 1 < |run|
    ensures Grows(run[i].store, run[i + 1].store)
  {
    RunInv(run, i);
    assert NextAt(run, i);
    var id: nat, a :| Do(run[i], id, a) == Some(run[i + 1]);
    DoKeepsInv(run[i], id, a, run[i + 1]);
  }

  lemma {:induction false} RunGrows(run: seq<System>, i: nat, j: nat)
    requires IsRun(run) && i <= j < |run|
    ensures Grows(run[i].store, run[j].store)
    decreases j
  {
    if i < j {
      RunGrows(run, i, j - 1);
      GrowsAt(run, j - 1);
      GrowsThrough(run[i].store, run[j - 1].store, run[j].store);
    }
  }

  lemma Extend(run: seq<System>, id: nat, a: Action, sys: System)
    requires IsRun(run) && Do(run[|run| - 1], id, a) == Some(sys)
    ensures IsRun(run + [sys])
  {
    var longer := run + [sys];
    forall i | 0 <= i < |longer| - 1 ensures NextAt(longer, i) {
      if i < |run| - 1 { assert NextAt(run, i); }
    }
  }

  // ---- exactly once ---------------------------------------------------------------------------------------

  /** Main result: a submit request admits at most one experiment, over any number of sessions, and an
      experiment is admitted at most once; so is an intent recorded. */
  lemma AdmittedOnce(run: seq<System>, n: nat, i: nat, j: nat)
    requires IsRun(run) && n < |run| && i < |run[n].store.log| && j < |run[n].store.log| && i != j
    ensures var v, w := run[n].store.log[i].write, run[n].store.log[j].write;
            && (v.Admitted? && w.Admitted? ==> v.req != w.req && v.exp != w.exp)
            && (v.Recorded? && w.Recorded? ==> v.req != w.req && v.intent != w.intent)
  {
    RunInv(run, n);
    var log := run[n].store.log;
    if i < j { assert !Repeats(log[i].write, log[j].write); } else { assert !Repeats(log[j].write, log[i].write); }
  }

  predicate AdmittedFor(st: Store, r: nat) {
    exists i :: 0 <= i < |st.log| && st.log[i].write.Admitted? && st.log[i].write.req == r
  }

  predicate RecordedFor(st: Store, r: nat) {
    exists i :: 0 <= i < |st.log| && st.log[i].write.Recorded? && st.log[i].write.req == r
  }

  /** Main result: what a request's state says about what was done for it. A submission is accepted or
      completed exactly when its experiment was admitted; a failed request admitted nothing, and recorded an
      intent only if it is a proposal; a completed action's intent is on record, with its own content; and a completed request of any kind has
      its experiment. */
  lemma StateTellsEffect(run: seq<System>, n: nat, r: nat)
    requires IsRun(run) && n < |run| && r in run[n].store.requests
    ensures var st := run[n].store; var q := st.requests[r];
            && (AdmittedFor(st, r) <==> q.kind.Submit? && (q.status.Accepted? || q.status.Completed?))
            && (q.status.Failed? ==> !AdmittedFor(st, r) && (RecordedFor(st, r) ==> q.kind.Act? && q.kind.form.Propose?))
            && (q.kind.Act? && q.status.Completed? ==> IsRecorded(st, q))
            && (q.status.Completed? ==> q.exp in st.experiments)
            && (q.status.Accepted? ==> q.kind.Submit? && q.exp in st.experiments)
  {
    RunInv(run, n);
    var st := run[n].store;
    assert RequestOk(st, r);
    if AdmittedFor(st, r) {
      var i :| 0 <= i < |st.log| && st.log[i].write.Admitted? && st.log[i].write.req == r;
      assert EntryOk(st, st.log[i].write);
    }
    if RecordedFor(st, r) {
      var i :| 0 <= i < |st.log| && st.log[i].write.Recorded? && st.log[i].write.req == r;
      assert EntryOk(st, st.log[i].write);
    }
  }

  /** Main result: `FAILED` and `COMPLETED` never change, and `ACCEPTED` never becomes `FAILED` or
      `PENDING`, whatever happens after. */
  lemma TerminalStays(run: seq<System>, i: nat, j: nat, r: nat)
    requires IsRun(run) && i <= j < |run| && r in run[i].store.requests
    ensures r in run[j].store.requests
    ensures !Unfinished(run[i].store.requests[r]) ==> run[j].store.requests[r] == run[i].store.requests[r]
    ensures run[i].store.requests[r].status.Accepted? ==>
              run[j].store.requests[r].status.Accepted? || run[j].store.requests[r].status.Completed?
  {
    RunGrows(run, i, j);
    assert RequestGrows(run[i].store.requests[r], run[j].store.requests[r]);
  }

  // ---- one pass -------------------------------------------------------------------------------------------

  /** Main result: when a pass over the mailbox ends, every request it looked at is finished, or was
      left by an error that says nothing about the request. */
  lemma PassFinishes(run: seq<System>, n: nat, id: nat, r: nat)
    requires IsRun(run) && n < |run| && id in run[n].sessions
    requires var s := run[n].sessions[id]; s.phase.Serving? && s.task.Between? && s.todo == [] && r in s.looked
    ensures r in run[n].store.requests
    ensures Unfinished(run[n].store.requests[r]) ==> r in run[n].sessions[id].left
  {
    RunInv(run, n);
    assert SessionOk(run[n].store, id, run[n].sessions[id]);
    assert Covered(run[n].store, run[n].sessions[id], r);
  }

  /** A request is left only so: while the lease is held, a step leaves one only if it broke, or was
      refused where a refusal cannot fail the request any more. */
  lemma LeftOnlyByError(sys: System, id: nat, a: Action, sys': System)
    requires Inv(sys) && Do(sys, id, a) == Some(sys') && id in sys.sessions && Holds(sys.store, sys.sessions[id])
    requires !(sys'.sessions[id].left <= sys.sessions[id].left)
    ensures a.Step? && sys.sessions[id].task.Working?
    ensures var s := sys.sessions[id]; var q := sys.store.requests[s.task.req];
            && sys'.sessions[id].left == s.left + {s.task.req}
            && (a.outcome.Break? || (a.outcome.Refuse? && (s.task.stage.Carrying? || (s.task.stage.Attaching? && !q.kind.Attach?)))
                || (s.task.stage.Refused? && q.status.Accepted?))
  {
    var s := sys.sessions[id];
    assert SessionOk(sys.store, id, s);
    if a.Step? {
      WorkLeaves(sys.store, id, s, s.task.req, s.task.stage, a.outcome);
    } else if !a.Send? && !a.ForeignAdmit? && !a.ForeignEvent? && !a.Expire? && !a.Acquire? {
      OthersLeaveNone(sys.store, id, s, a);
    }
  }

  lemma WorkLeaves(st: Store, id: nat, s: Session, r: nat, stage: Stage, o: Outcome)
    requires Holds(st, s) && StageStrong(st, s, r, stage) && Work(st, id, s, r, stage, o).Some?
    ensures var s' := Work(st, id, s, r, stage, o).value.1;
            s'.left == s.left || (s'.left == s.left + {r}
              && (o.Break? || (o.Refuse? && (stage.Carrying? || (stage.Attaching? && !st.requests[r].kind.Attach?)))
                  || (stage.Refused? && st.requests[r].status.Accepted?)))
  {
  }

  lemma OthersLeaveNone(st: Store, id: nat, s: Session, a: Action)
    requires !a.Step? && SessionStep(st, id, s, a).Some?
    ensures SessionStep(st, id, s, a).value.1.left <= s.left
  {
  }

  /** A pass looks at exactly the unfinished requests, each once. */
  lemma PassLooksAtAll(st: Store, s: Session, order: seq<nat>, s': Session)
    requires Loop(st, s, Look(order)) == Some(s')
    ensures forall r :: r in s'.looked <==> r in st.requests && Unfinished(st.requests[r])
    ensures |s'.todo| == |s'.looked| && s'.left == {}
  {
    var todo := s'.todo;
    forall r ensures r in s'.looked <==> r in st.requests && Unfinished(st.requests[r]) {
      if r in st.requests && Unfinished(st.requests[r]) {
        var i :| 0 <= i < |order| && order[i] == r;
        assert todo[i].req == r;
      }
    }
    DistinctIds(todo);
  }

  lemma LastId(todo: seq<Ticket>)
    requires todo != []
    ensures Ids(todo) == Ids(todo[..|todo| - 1]) + {todo[|todo| - 1].req}
  {
    var n := |todo| - 1;
    forall r | r in Ids(todo) ensures r in Ids(todo[..n]) + {todo[n].req} {
      var i :| 0 <= i < |todo| && todo[i].req == r;
      if i < n { assert todo[..n][i].req == r; }
    }
    forall r | r in Ids(todo[..n]) ensures r in Ids(todo) {
      var i :| 0 <= i < n && todo[..n][i].req == r;
      assert todo[i].req == r;
    }
  }

  lemma {:induction false} DistinctIds(todo: seq<Ticket>)
    requires forall i, j :: 0 <= i < j < |todo| ==> todo[i].req != todo[j].req
    ensures |Ids(todo)| == |todo|
  {
    if todo != [] {
      var n := |todo| - 1;
      DistinctIds(todo[..n]);
      LastId(todo);
      assert todo[n].req !in Ids(todo[..n]);
    }
  }

  // ---- the lease ------------------------------------------------------------------------------------------

  /** Main result: committed controller writes carry epochs that never go back, and one epoch's writes
      are all one session's. */
  lemma EpochsNeverGoBack(run: seq<System>, n: nat, i: nat, j: nat)
    requires IsRun(run) && n < |run| && i < j < |run[n].store.log|
    ensures var v, w := run[n].store.log[i], run[n].store.log[j];
            v.epoch <= w.epoch <= run[n].store.epoch && (v.epoch == w.epoch ==> v.session == w.session)
  {
    RunInv(run, n);
  }

  /** At most one entry was written, by this session and with the lease. */
  ghost predicate WroteOwn(st: Store, id: nat, s: Session, st': Store, s': Session) {
    && s'.epoch == s.epoch && st'.epoch == st.epoch && (st'.lease.Live? ==> st.lease.Live?)
    && (st'.log == st.log || (Holds(st, s) && exists w :: st'.log == st.log + [Entry(id, s.epoch, w)]))
  }

  lemma WorkLog(st: Store, id: nat, s: Session, r: nat, stage: Stage, o: Outcome)
    requires r in st.requests && Work(st, id, s, r, stage, o).Some?
    ensures var (st', s') := Work(st, id, s, r, stage, o).value; WroteOwn(st, id, s, st', s')
  {
  }

  lemma BesideLog(st: Store, id: nat, s: Session, a: Action)
    requires Beside(st, id, s, a).Some?
    ensures var (st', s') := Beside(st, id, s, a).value; WroteOwn(st, id, s, st', s')
  {
  }

  lemma SessionLog(st: Store, id: nat, s: Session, a: Action)
    requires SessionStep(st, id, s, a).Some?
    ensures var (st', s') := SessionStep(st, id, s, a).value; WroteOwn(st, id, s, st', s')
  {
    if a.Step? { WorkLog(st, id, s, s.task.req, s.task.stage, a.outcome); }
    else if a.Observe? || a.RestLook? || a.RestFails? || a.Renew? { BesideLog(st, id, s, a); }
  }

  /** What was written between two states, none of it by *id*. */
  predicate NoneBy(before: seq<Entry>, after: seq<Entry>, id: nat) {
    before <= after && forall k :: |before| <= k < |after| ==> after[k].session != id
  }

  /** Without the lease a session does not get it back, and what is written is not its own. */
  lemma LostStep(sys: System, o: nat, a: Action, sys': System, id: nat)
    requires Do(sys, o, a) == Some(sys') && id in sys.sessions && !Holds(sys.store, sys.sessions[id])
    requires Weak(sys.store, id, sys.sessions[id]) && (o in sys.sessions ==> Weak(sys.store, o, sys.sessions[o]))
    ensures id in sys'.sessions && !Holds(sys'.store, sys'.sessions[id]) && NoneBy(sys.store.log, sys'.store.log, id)
  {
    if !a.Send? && !a.ForeignAdmit? && !a.ForeignEvent? && !a.Expire? && !a.Acquire? {
      SessionLog(sys.store, o, sys.sessions[o], a);
    }
  }

  lemma LostNext(sys: System, sys': System, id: nat)
    requires Inv(sys) && Next(sys, sys') && id in sys.sessions && !Holds(sys.store, sys.sessions[id])
    ensures id in sys'.sessions && !Holds(sys'.store, sys'.sessions[id]) && NoneBy(sys.store.log, sys'.store.log, id)
  {
    assert SessionOk(sys.store, id, sys.sessions[id]);
    var o: nat, a :| Do(sys, o, a) == Some(sys');
    assert o in sys.sessions ==> SessionOk(sys.store, o, sys.sessions[o]);
    LostStep(sys, o, a, sys', id);
  }

  lemma LostAt(run: seq<System>, j: nat, id: nat)
    requires IsRun(run) && j + 1 < |run| && id in run[j].sessions && !Holds(run[j].store, run[j].sessions[id])
    ensures id in run[j + 1].sessions && !Holds(run[j + 1].store, run[j + 1].sessions[id])
    ensures NoneBy(run[j].store.log, run[j + 1].store.log, id)
  {
    RunInv(run, j);
    assert NextAt(run, j);
    LostNext(run[j], run[j + 1], id);
  }

  /** Main result: once a session's lease is lost, expired or released, nothing it does is written, ever. */
  lemma {:induction false} NoWriteAfterLoss(run: seq<System>, i: nat, j: nat, id: nat)
    requires IsRun(run) && i <= j < |run| && id in run[i].sessions && !Holds(run[i].store, run[i].sessions[id])
    ensures id in run[j].sessions && !Holds(run[j].store, run[j].sessions[id])
    ensures NoneBy(run[i].store.log, run[j].store.log, id)
    decreases j
  {
    if i < j {
      NoWriteAfterLoss(run, i, j - 1, id);
      LostAt(run, j - 1, id);
      LostThrough(run[i].store.log, run[j - 1].store.log, run[j].store.log, id);
    }
  }

  lemma LostThrough(a: seq<Entry>, b: seq<Entry>, c: seq<Entry>, id: nat)
    requires NoneBy(a, b, id) && NoneBy(b, c, id)
    ensures NoneBy(a, c, id)
  {
    forall k | |a| <= k < |c| ensures c[k].session != id {
      if k < |b| { assert c[k] == b[k]; }
    }
  }

  /** Main result: the lease is released only by the session that holds it, after its rest tasks are
      gone and its controller is closed, and never by one that knows it lost it. */
  lemma ReleasedOnlyWhenClosed(sys: System, id: nat, a: Action, sys': System)
    requires Inv(sys) && Do(sys, id, a) == Some(sys') && sys'.store.lease.Released? && sys'.store != sys.store
    requires !sys.store.lease.Released?
    ensures a.Release? && id in sys.sessions && Holds(sys.store, sys.sessions[id])
    ensures var s := sys.sessions[id]; s.phase.Closed? && !s.lost && s.resting == {} && s.task.Between? && s.busy == {}
  {
    if id in sys.sessions {
      assert SessionOk(sys.store, id, sys.sessions[id]);
      if !a.Send? && !a.ForeignAdmit? && !a.ForeignEvent? && !a.Expire? && !a.Acquire? {
        OnlyReleaseReleases(sys.store, id, sys.sessions[id], a);
      }
    }
  }

  lemma OnlyReleaseReleases(st: Store, id: nat, s: Session, a: Action)
    requires SessionStep(st, id, s, a).Some? && SessionStep(st, id, s, a).value.0.lease.Released? && !st.lease.Released?
    ensures a.Release? && Holds(st, s) && s.phase.Closed? && !s.lost
  {
  }

  /** While the lease is released its last holder has stopped, and had not lost it. */
  lemma ReleasedMeansStopped(run: seq<System>, n: nat)
    requires IsRun(run) && n < |run| && run[n].store.lease.Released? && run[n].store.epoch > 0
    ensures var st := run[n].store;
            st.holder in run[n].sessions && run[n].sessions[st.holder].phase.Stopped? && !run[n].sessions[st.holder].lost
  {
    RunInv(run, n);
  }

  /** A new owner comes only when no lease is live, as the next epoch. */
  lemma LiveLeaseIsWaitedOut(sys: System, id: nat, a: Action, sys': System)
    requires Do(sys, id, a) == Some(sys') && sys'.store.epoch != sys.store.epoch
    ensures a.Acquire? && !sys.store.lease.Live? && sys'.store.epoch == sys.store.epoch + 1
    ensures id !in sys.sessions && Holds(sys'.store, sys'.sessions[id])
    ensures forall o :: o in sys.sessions ==> sys'.sessions[o] == sys.sessions[o]
  {
    if id in sys.sessions && !a.Acquire? && !a.Send? && !a.ForeignAdmit? && !a.ForeignEvent? && !a.Expire? {
      SameEpoch(sys.store, id, sys.sessions[id], a);
    }
  }

  lemma SameEpoch(st: Store, id: nat, s: Session, a: Action)
    requires SessionStep(st, id, s, a).Some?
    ensures SessionStep(st, id, s, a).value.0.epoch == st.epoch
  {
  }
}
