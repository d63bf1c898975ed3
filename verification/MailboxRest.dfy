/** When the daemon records that an experiment is at rest, and what a caller's `wait()` may conclude. */
module MailboxRest {
  import opened Util
  import opened Mailbox
  import opened MailboxInvariant
  import opened MailboxSafety

  // ---- rest and wait ---------------------------------------------------------------------------------------

  predicate IsOutside(a: Action) {
    a.Send? || a.ForeignAdmit? || a.ForeignEvent? || a.Expire?
  }

  /** Main result: a rest is recorded only by the lease's holder, at the latest event, and never while it
      is carrying out a request for the experiment or sweeping it. */
  lemma RestNotWhileBusy(sys: System, id: nat, a: Action, sys': System, exp: nat, sequence: nat)
    requires Inv(sys) && Do(sys, id, a) == Some(sys')
    requires |sys'.store.log| == |sys.store.log| + 1 && sys'.store.log[|sys.store.log|].write == Rested(exp, sequence)
    ensures id in sys.sessions && Holds(sys.store, sys.sessions[id])
    ensures var s := sys.sessions[id];
            && exp in s.resting && sequence == Latest(sys.store, exp) == Latest(sys'.store, exp)
            && (s.task.Working? ==> s.task.req in sys.store.requests && sys.store.requests[s.task.req].exp != exp)
            && (s.task.Sweeping? ==> s.task.exp != exp)
            && exp in sys'.store.rests && sys'.store.rests[exp].sequence == sequence
  {
    if id in sys.sessions { assert SessionOk(sys.store, id, sys.sessions[id]); }
    OnlyRestLookRests(sys, id, a, sys', exp, sequence);
  }

  lemma OnlyRestLookRests(sys: System, id: nat, a: Action, sys': System, exp: nat, sequence: nat)
    requires Do(sys, id, a) == Some(sys')
    requires |sys'.store.log| == |sys.store.log| + 1 && sys'.store.log[|sys.store.log|].write == Rested(exp, sequence)
    ensures id in sys.sessions && Holds(sys.store, sys.sessions[id]) && exp in sys.sessions[id].resting && exp !in sys.sessions[id].busy
    ensures exists escalated :: TakeRest(sys.store, id, sys.sessions[id], exp, escalated) == (sys'.store, sys'.sessions[id])
    ensures sequence == Latest(sys.store, exp)
  {
    if !IsOutside(a) && !a.Acquire? {
      var s := sys.sessions[id];
      if a.Step? { WorkRecordsNoRest(sys.store, id, s, s.task.req, s.task.stage, a.outcome); }
      else if !a.RestLook? { OthersRecordNoRest(sys.store, id, s, a); }
      else { assert TakeRest(sys.store, id, s, a.exp, a.escalated) == (sys'.store, sys'.sessions[id]); }
    }
  }

  lemma WorkRecordsNoRest(st: Store, id: nat, s: Session, r: nat, stage: Stage, o: Outcome)
    requires r in st.requests && Work(st, id, s, r, stage, o).Some?
    ensures var st' := Work(st, id, s, r, stage, o).value.0;
            st'.log == st.log || (|st'.log| == |st.log| + 1 && !st'.log[|st.log|].write.Rested?)
  {
  }

  lemma OthersRecordNoRest(st: Store, id: nat, s: Session, a: Action)
    requires SessionStep(st, id, s, a).Some? && !a.Step? && !a.RestLook?
    ensures var st' := SessionStep(st, id, s, a).value.0;
            st'.log == st.log || (|st'.log| == |st.log| + 1 && !st'.log[|st.log|].write.Rested?)
  {
  }

  /** Main result: when a request ends other than by the daemon stopping, a wait for its experiment's
      rest is pending, if there is such an experiment. */
  lemma EndLeavesRestPending(sys: System, id: nat, a: Action, sys': System)
    requires Inv(sys) && Do(sys, id, a) == Some(sys') && id in sys.sessions && sys.sessions[id].task.Working?
    requires sys'.sessions[id].task.Between? && sys'.sessions[id].phase.Serving?
    ensures sys.sessions[id].task.req in sys'.store.requests
    ensures var exp := sys'.store.requests[sys.sessions[id].task.req].exp;
            exp !in sys'.sessions[id].busy && (exp in sys'.store.experiments ==> exp in sys'.sessions[id].resting)
  {
    var st, s := sys.store, sys.sessions[id];
    assert SessionOk(st, id, s);
    if a.Step? { WorkEnds(st, id, s, s.task.req, s.task.stage, a.outcome); } else { BesideStaysAtWork(st, id, s, a); }
  }

  lemma WorkEnds(st: Store, id: nat, s: Session, r: nat, stage: Stage, o: Outcome)
    requires r in st.requests && s.busy == {st.requests[r].exp} && Work(st, id, s, r, stage, o).Some?
    ensures var (st', s') := Work(st, id, s, r, stage, o).value;
            && r in st'.requests && st'.requests[r].exp == st.requests[r].exp
            && var exp := st.requests[r].exp;
               s'.task.Between? && s'.phase.Serving? ==>
                 exp !in s'.busy && (exp in st'.experiments ==> exp in s'.resting)
  {
  }

  lemma BesideStaysAtWork(st: Store, id: nat, s: Session, a: Action)
    requires s.task.Working? && !a.Step? && SessionStep(st, id, s, a).Some?
    ensures var s' := SessionStep(st, id, s, a).value.1; s'.task == s.task || !s'.phase.Serving?
  {
  }

  // ---- is the rest of what was worked on recorded, or still awaited? -------------------------------------

  ghost predicate StepTaken(run: seq<System>, steps: seq<(nat, Action)>, k: nat)
    requires k + 1 < |run| && k < |steps|
  {
    Do(run[k], steps[k].0, steps[k].1) == Some(run[k + 1])
  }

  /** The run, and who took each of its steps. */
  ghost predicate Takes(run: seq<System>, steps: seq<(nat, Action)>) {
    && |run| == |steps| + 1 && run[0] == EMPTY
    && forall k :: 0 <= k < |steps| ==> StepTaken(run, steps, k)
  }

  lemma TakesIsRun(run: seq<System>, steps: seq<(nat, Action)>)
    requires Takes(run, steps)
    ensures IsRun(run)
  {
    forall k | 0 <= k < |run| - 1 ensures NextAt(run, k) { assert StepTaken(run, steps, k); }
  }

  /** The session is carrying out a request for the experiment, or sweeping it. */
  predicate WorksOn(sys: System, id: nat, exp: nat) {
    && id in sys.sessions
    && match sys.sessions[id].task
       case Between => false
       case Sweeping(e) => e == exp
       case Working(r, _) => r in sys.store.requests && sys.store.requests[r].exp == exp
  }

  /** The session serves, and is not working on the experiment. */
  predicate IdleOn(sys: System, id: nat, exp: nat) {
    id in sys.sessions && sys.sessions[id].phase.Serving? && exp !in sys.sessions[id].busy
  }

  /** Step *m* ends the session's work on the experiment, and until *n* it does not take it up again. */
  predicate IdleSince(run: seq<System>, id: nat, exp: nat, m: nat, n: nat)
    requires m < n < |run|
  {
    WorksOn(run[m], id, exp) && forall k :: m < k <= n ==> IdleOn(run[k], id, exp)
  }

  /** Step *m* is a sweep of the experiment that failed, when no wait for its rest was pending. */
  predicate SweepDrops(run: seq<System>, steps: seq<(nat, Action)>, id: nat, exp: nat, m: nat)
    requires m < |run| && m < |steps| && id in run[m].sessions
  {
    steps[m] == (id, SweepEnd(false)) && exp !in run[m].sessions[id].resting
  }

  /** Step *k* is the wait for the rest failing: `_wait()` raised something else, or the lease was gone
      when the rest was to be recorded. */
  predicate WaitFails(run: seq<System>, steps: seq<(nat, Action)>, id: nat, exp: nat, k: nat)
    requires k < |run| && k < |steps| && id in run[k].sessions
  {
    && steps[k].0 == id
    && (steps[k].1 == RestFails(exp) || (steps[k].1.RestLook? && steps[k].1.exp == exp && !Holds(run[k].store, run[k].sessions[id])))
  }

  /** The wait failed between *m* and *n*. */
  predicate WaitFailed(run: seq<System>, steps: seq<(nat, Action)>, id: nat, exp: nat, m: nat, n: nat)
    requires n <= |run| && n <= |steps| && forall k :: m < k < n ==> id in run[k].sessions
  {
    exists k :: m < k < n && WaitFails(run, steps, id, exp, k)
  }

  predicate RestBy(e: Entry, id: nat, exp: nat) {
    e.session == id && e.write.Rested? && e.write.exp == exp
  }

  /** The session recorded a rest of the experiment after step *m*. */
  predicate RestedSince(run: seq<System>, id: nat, exp: nat, m: nat, n: nat)
    requires m < n < |run|
  {
    exists j :: |run[m + 1].store.log| <= j < |run[n].store.log| && RestBy(run[n].store.log[j], id, exp)
  }

  predicate SameButRests(before: seq<Entry>, after: seq<Entry>, id: nat, exp: nat) {
    before <= after && forall j :: |before| <= j < |after| ==> !RestBy(after[j], id, exp)
  }

  /** What one step does to an idle experiment's rest: only its own task touches it. */
  lemma RestStep(sys: System, o: nat, a: Action, sys': System, id: nat, exp: nat)
    requires Do(sys, o, a) == Some(sys') && IdleOn(sys, id, exp) && IdleOn(sys', id, exp) && Weak(sys.store, id, sys.sessions[id])
    requires o in sys.sessions ==> Weak(sys.store, o, sys.sessions[o])
    ensures var s, s' := sys.sessions[id], sys'.sessions[id];
            var looks := o == id && a.RestLook? && a.exp == exp;
            && (exp in s'.resting <==> exp in s.resting && !looks && !(o == id && a == RestFails(exp)))
            && (looks || (o == id && a == RestFails(exp)) ==> exp in s.resting)
            && (looks && Holds(sys.store, s) ==>
                  |sys'.store.log| == |sys.store.log| + 1 && RestBy(sys'.store.log[|sys.store.log|], id, exp))
            && (!looks || !Holds(sys.store, s) ==> SameButRests(sys.store.log, sys'.store.log, id, exp))
  {
    if o != id || IsOutside(a) {
      OtherRests(sys, o, a, sys', id, exp);
    } else {
      OwnRests(sys.store, id, sys.sessions[id], a, exp);
    }
  }

  lemma OtherRests(sys: System, o: nat, a: Action, sys': System, id: nat, exp: nat)
    requires Do(sys, o, a) == Some(sys') && id in sys.sessions && (o != id || IsOutside(a))
    ensures id in sys'.sessions && sys'.sessions[id] == sys.sessions[id]
    ensures SameButRests(sys.store.log, sys'.store.log, id, exp)
  {
    if !IsOutside(a) && !a.Acquire? { SessionLog(sys.store, o, sys.sessions[o], a); }
  }

  lemma OwnRests(st: Store, id: nat, s: Session, a: Action, exp: nat)
    requires SessionStep(st, id, s, a).Some? && exp !in s.busy && BusyOk(st, s) && s.phase.Serving?
    ensures var (st', s') := SessionStep(st, id, s, a).value;
            var looks := a.RestLook? && a.exp == exp;
            s'.phase.Serving? && exp !in s'.busy ==>
              && (exp in s'.resting <==> exp in s.resting && !looks && a != RestFails(exp))
              && (looks || a == RestFails(exp) ==> exp in s.resting)
              && (looks && Holds(st, s) ==> |st'.log| == |st.log| + 1 && RestBy(st'.log[|st.log|], id, exp))
              && (!looks || !Holds(st, s) ==> SameButRests(st.log, st'.log, id, exp))
  {
    if a.Step? { WorkRests(st, id, s, s.task.req, s.task.stage, a.outcome, exp); }
  }

  lemma WorkRests(st: Store, id: nat, s: Session, r: nat, stage: Stage, o: Outcome, exp: nat)
    requires r in st.requests && st.requests[r].exp != exp && Work(st, id, s, r, stage, o).Some?
    ensures var (st', s') := Work(st, id, s, r, stage, o).value;
            (exp in s'.resting <==> exp in s.resting) && SameButRests(st.log, st'.log, id, exp)
  {
  }

  /** The end of work on an experiment leaves a wait pending, unless it is a sweep that drops it. */
  lemma WorkEndsPending(sys: System, o: nat, a: Action, sys': System, id: nat, exp: nat)
    requires Do(sys, o, a) == Some(sys') && WorksOn(sys, id, exp) && SessionOk(sys.store, id, sys.sessions[id])
    requires IdleOn(sys', id, exp) && exp in sys'.store.experiments
    ensures exp in sys'.sessions[id].resting <==> !(o == id && a == SweepEnd(false) && exp !in sys.sessions[id].resting)
  {
    if o != id || IsOutside(a) {
      OtherRests(sys, o, a, sys', id, exp);
    } else if a.Step? {
      WorkEnds(sys.store, id, sys.sessions[id], sys.sessions[id].task.req, sys.sessions[id].task.stage, a.outcome);
    } else if a.SweepEnd? {
      SweepEnds(sys.store, sys.sessions[id], a.ok);
    } else {
      StaysBusy(sys.store, id, sys.sessions[id], a);
    }
  }

  lemma SweepEnds(st: Store, s: Session, ok: bool)
    requires s.task.Sweeping? && s.busy == {s.task.exp} && s.task.exp in st.experiments
    ensures Loop(st, s, SweepEnd(ok)).Some?
    ensures s.task.exp in Loop(st, s, SweepEnd(ok)).value.resting <==> ok || s.task.exp in s.resting
  {
  }

  lemma StaysBusy(st: Store, id: nat, s: Session, a: Action)
    requires SessionStep(st, id, s, a).Some? && !s.task.Between? && !a.Step? && !a.SweepEnd?
    ensures var s' := SessionStep(st, id, s, a).value.1; s'.phase.Serving? ==> s'.busy == s.busy
  {
  }

  /** Main result: after a session ends its work on an experiment, and for as long as it does not take it up
      again, the rest is awaited or has been recorded if and only if the work was not a sweep that failed
      with no wait pending, and no wait for the rest has failed since. */
  lemma {:induction false} RestNotLost(run: seq<System>, steps: seq<(nat, Action)>, id: nat, exp: nat, m: nat, n: nat)
    requires Takes(run, steps) && m < n < |run| && IdleSince(run, id, exp, m, n) && exp in run[m + 1].store.experiments
    ensures (exp in run[n].sessions[id].resting || RestedSince(run, id, exp, m, n))
            <==> !SweepDrops(run, steps, id, exp, m) && !WaitFailed(run, steps, id, exp, m, n)
    ensures !(exp in run[n].sessions[id].resting && RestedSince(run, id, exp, m, n))
    decreases n
  {
    TakesIsRun(run, steps);
    RunInv(run, n - 1);
    assert StepTaken(run, steps, n - 1) && SessionOk(run[n - 1].store, id, run[n - 1].sessions[id]);
    if n == m + 1 {
      WorkEndsPending(run[m], steps[m].0, steps[m].1, run[n], id, exp);
    } else {
      RestNotLost(run, steps, id, exp, m, n - 1);
      RestNotLostStep(run, steps, id, exp, m, n);
    }
  }

  lemma RestNotLostStep(run: seq<System>, steps: seq<(nat, Action)>, id: nat, exp: nat, m: nat, n: nat)
    requires Takes(run, steps) && m + 1 < n < |run| && IdleSince(run, id, exp, m, n) && Inv(run[n - 1])
    requires (exp in run[n - 1].sessions[id].resting || RestedSince(run, id, exp, m, n - 1))
             <==> !SweepDrops(run, steps, id, exp, m) && !WaitFailed(run, steps, id, exp, m, n - 1)
    requires !(exp in run[n - 1].sessions[id].resting && RestedSince(run, id, exp, m, n - 1))
    ensures (exp in run[n].sessions[id].resting || RestedSince(run, id, exp, m, n))
            <==> !SweepDrops(run, steps, id, exp, m) && !WaitFailed(run, steps, id, exp, m, n)
    ensures !(exp in run[n].sessions[id].resting && RestedSince(run, id, exp, m, n))
  {
    LastStepTells(run, steps, id, exp, m, n);
    OneMoreWait(run, steps, id, exp, m, n);
  }

  lemma OneMoreWait(run: seq<System>, steps: seq<(nat, Action)>, id: nat, exp: nat, m: nat, n: nat)
    requires m + 1 < n <= |run| && n <= |steps| && forall k :: m < k < n ==> id in run[k].sessions
    ensures WaitFailed(run, steps, id, exp, m, n) <==> WaitFailed(run, steps, id, exp, m, n - 1) || WaitFails(run, steps, id, exp, n - 1)
  {
  }

  /** The last step is the wait failing, or keeps the rest awaited or recorded. */
  lemma LastStepTells(run: seq<System>, steps: seq<(nat, Action)>, id: nat, exp: nat, m: nat, n: nat)
    requires Takes(run, steps) && m + 1 < n < |run| && IdleSince(run, id, exp, m, n) && Inv(run[n - 1])
    ensures var before, after := exp in run[n - 1].sessions[id].resting, exp in run[n].sessions[id].resting;
            var rested, rests := RestedSince(run, id, exp, m, n - 1), RestedSince(run, id, exp, m, n);
            if WaitFails(run, steps, id, exp, n - 1) then before && !after && (rests <==> rested)
            else (before || rested <==> after || rests) && (!(before && rested) ==> !(after && rests))
  {
    assert IdleOn(run[n - 1], id, exp) && IdleOn(run[n], id, exp);
    LastStepIs(run, steps, id, exp, n);
    TakesIsRun(run, steps);
    RunGrows(run, m + 1, n - 1);
    RunGrows(run, n - 1, n);
    RestedMore(run, id, exp, m, n);
  }

  /** The wait fails, or the rest is recorded, or nothing of it changes. */
  lemma LastStepIs(run: seq<System>, steps: seq<(nat, Action)>, id: nat, exp: nat, n: nat)
    requires Takes(run, steps) && 0 < n < |run| && Inv(run[n - 1]) && IdleOn(run[n - 1], id, exp) && IdleOn(run[n], id, exp)
    ensures var before, after := exp in run[n - 1].sessions[id].resting, exp in run[n].sessions[id].resting;
            var was, log := run[n - 1].store.log, run[n].store.log;
            if WaitFails(run, steps, id, exp, n - 1) then before && !after && SameButRests(was, log, id, exp)
            else
              || (before == after && SameButRests(was, log, id, exp))
              || (before && !after && |log| == |was| + 1 && RestBy(log[|was|], id, exp))
  {
    var o, a := steps[n - 1].0, steps[n - 1].1;
    assert StepTaken(run, steps, n - 1) && SessionOk(run[n - 1].store, id, run[n - 1].sessions[id]);
    assert o in run[n - 1].sessions ==> SessionOk(run[n - 1].store, o, run[n - 1].sessions[o]);
    RestStep(run[n - 1], o, a, run[n], id, exp);
  }

  /** What the last step adds to what was recorded since. */
  lemma RestedMore(run: seq<System>, id: nat, exp: nat, m: nat, n: nat)
    requires m + 1 < n < |run| && run[m + 1].store.log <= run[n - 1].store.log <= run[n].store.log
    ensures SameButRests(run[n - 1].store.log, run[n].store.log, id, exp) ==>
              (RestedSince(run, id, exp, m, n) <==> RestedSince(run, id, exp, m, n - 1))
    ensures |run[n].store.log| == |run[n - 1].store.log| + 1 && RestBy(run[n].store.log[|run[n - 1].store.log|], id, exp) ==>
              RestedSince(run, id, exp, m, n)
  {
    var before, after := run[n - 1].store.log, run[n].store.log;
    if RestedSince(run, id, exp, m, n - 1) {
      var j :| |run[m + 1].store.log| <= j < |before| && RestBy(before[j], id, exp);
      assert RestBy(after[j], id, exp);
    }
    if SameButRests(before, after, id, exp) && RestedSince(run, id, exp, m, n) {
      var j :| |run[m + 1].store.log| <= j < |after| && RestBy(after[j], id, exp);
      assert RestBy(before[j], id, exp);
    }
  }

  /** What a caller's `wait()` makes of one snapshot. */
  datatype Answer = Result | Raised | Waiting

  /** `_at_rest`: *terminal* and *quiescent* are what the record says of the experiment. */
  function AtRest(st: Store, exp: nat, terminal: bool, quiescent: bool): Answer {
    if terminal && quiescent then Result
    else if exists r :: r in st.requests && st.requests[r].exp == exp && Unfinished(st.requests[r]) then Waiting
    else if exp !in st.rests || st.rests[exp].sequence != Latest(st, exp) then Waiting
    else if st.rests[exp].escalated then Raised
    else if quiescent then Result
    else Waiting
  }

  /** A session that can still write is carrying out a request for the experiment. */
  ghost predicate AtWork(sys: System, exp: nat) {
    exists id :: id in sys.sessions && Holds(sys.store, sys.sessions[id]) && sys.sessions[id].task.Working?
                 && sys.sessions[id].task.req in sys.store.requests && sys.store.requests[sys.sessions[id].task.req].exp == exp
  }

  /** Main result: `wait()` answers from a rest only when nothing is under way. In every reachable state,
      an answer that is not a terminal one means no request for the experiment is unfinished, no daemon
      that could still write is carrying one out, and a daemon recorded this rest with no event of the
      experiment since. */
  lemma WaitIsSound(run: seq<System>, n: nat, exp: nat, terminal: bool, quiescent: bool)
    requires IsRun(run) && n < |run|
    requires !AtRest(run[n].store, exp, terminal, quiescent).Waiting? && !(terminal && quiescent)
    ensures !AtWork(run[n], exp)
    ensures forall r :: r in run[n].store.requests && run[n].store.requests[r].exp == exp ==> !Unfinished(run[n].store.requests[r])
    ensures exists i :: 0 <= i < |run[n].store.log| && run[n].store.log[i].write == Rested(exp, Latest(run[n].store, exp))
                        && QuietSince(run[n].store, exp, i)
  {
    RunInv(run, n);
    var st := run[n].store;
    forall id | id in run[n].sessions && Holds(st, run[n].sessions[id]) && run[n].sessions[id].task.Working?
      ensures run[n].sessions[id].task.req !in st.requests || st.requests[run[n].sessions[id].task.req].exp != exp
    {
      var s := run[n].sessions[id];
      assert SessionOk(st, id, s);
      WorkingIsUnfinished(st, s);
    }
    var i: nat :| RestAt(st, exp, i);
    assert 0 <= i < |st.log|;
  }

  lemma WorkingIsUnfinished(st: Store, s: Session)
    requires Strong(st, s) && s.task.Working?
    ensures s.task.req in st.requests && Unfinished(st.requests[s.task.req])
  {
  }

  /** And it does answer: a rest recorded while the lease is held, with no request waiting, is what the
      next look finds, until an event or a request follows it. */
  lemma RestIsAnswered(sys: System, id: nat, exp: nat, escalated: bool, sys': System)
    requires Inv(sys) && Do(sys, id, RestLook(exp, escalated)) == Some(sys') && id in sys.sessions
    requires exp !in sys.sessions[id].busy && Holds(sys.store, sys.sessions[id])
    requires forall r :: r in sys.store.requests && sys.store.requests[r].exp == exp ==> !Unfinished(sys.store.requests[r])
    ensures AtRest(sys'.store, exp, false, true) == (if escalated then Raised else Result)
  {
  }

  // ---- a rest that is dropped -------------------------------------------------------------------------------

  const SUBMISSION := Request(0, Submit, Pending, 0)

  /** Session 7 holds the lease and serves; its submission is completed; nothing recorded the rest, nothing waits for it. */
  predicate Dropped(sys: System) {
    && 7 in sys.sessions && sys.sessions[7].phase.Serving? && !sys.sessions[7].lost && Holds(sys.store, sys.sessions[7])
    && sys.sessions[7].task.Between? && sys.sessions[7].resting == {} && sys.store.rests == map[]
    && AdmittedFor(sys.store, 3) && 3 in sys.store.requests && sys.store.requests[3].status.Completed?
  }

  /** Session 7 serves, and there is one submission. */
  lemma SentRun() returns (run: seq<System>, st: Store, s: Session)
    ensures IsRun(run) && run[|run| - 1] == System(st, map[7 := s])
    ensures st == Store(map[3 := SUBMISSION], {}, map[], map[], map[], 1, 7, Live, [])
    ensures s == Session(1, {}, Serving, false, Between, {}, {}, [], {}, {})
  {
    s := Fresh(EMPTY.store, {});
    var st0 := EMPTY.store.(epoch := 1, holder := 7, lease := Live);
    run := [EMPTY];
    assert Do(EMPTY, 7, Acquire({})) == Some(System(st0, map[7 := s]));
    Extend(run, 7, Acquire({}), System(st0, map[7 := s]));
    run := run + [System(st0, map[7 := s])];
    st := st0.(requests := map[3 := SUBMISSION]);
    Extend(run, 0, Send(3, SUBMISSION), System(st, map[7 := s]));
    run := run + [System(st, map[7 := s])];
  }

  /** It takes the submission. */
  lemma TakenRun() returns (run: seq<System>, st: Store, s: Session)
    ensures IsRun(run) && run[|run| - 1] == System(st, map[7 := s])
    ensures st == Store(map[3 := SUBMISSION], {}, map[], map[], map[], 1, 7, Live, [])
    ensures s == Session(1, {}, Serving, false, Working(3, Validating), {0}, {}, [], {3}, {})
  {
    var s0;
    run, st, s0 := SentRun();
    var s1 := s0.(todo := [Ticket(3, Pending)], looked := {3});
    LooksAtOne(st, s0, s1);
    assert map[7 := s0][7 := s1] == map[7 := s1];
    Extend(run, 7, Look([3]), System(st, map[7 := s1]));
    run := run + [System(st, map[7 := s1])];
    s := s1.(todo := [], busy := {0}, task := Working(3, Validating));
    assert Loop(st, s1, Take) == Some(s) by { assert {} + {0} == {0} && s1.todo[1..] == []; }
    assert map[7 := s1][7 := s] == map[7 := s];
    Extend(run, 7, Take, System(st, map[7 := s]));
    run := run + [System(st, map[7 := s])];
  }

  lemma LooksAtOne(st: Store, s: Session, s': Session)
    requires st.requests == map[3 := SUBMISSION] && s.task.Between? && s.todo == [] && s.left == {}
    requires s' == s.(todo := [Ticket(3, Pending)], looked := {3})
    ensures Loop(st, s, Look([3])) == Some(s')
  {
    assert Lists(st, [3]) && Tickets(st, [3]) == [Ticket(3, Pending)];
    assert Ids(s'.todo) == {3} by { assert s'.todo[0].req in Ids(s'.todo); }
  }

  /** It is admitted and completed, and a task waits for the rest of experiment 0. */
  lemma CompletedRun() returns (run: seq<System>, st: Store, s: Session)
    ensures IsRun(run) && run[|run| - 1] == System(st, map[7 := s])
    ensures st.experiments == {0} && st.rests == map[] && st.lease.Live? && st.epoch == 1
    ensures st.requests == map[3 := SUBMISSION.(status := Completed, revision := 2)]
    ensures s == Session(1, {}, Serving, false, Between, {}, {0}, [], {3}, {})
  {
    run, st, s := TakenRun();
    var accepted, done := SUBMISSION.(status := Accepted, revision := 1), SUBMISSION.(status := Completed, revision := 2);
    var st1 := Log(st.(requests := map[3 := accepted], experiments := {0}, latest := map[0 := 1]), 7, s, Admitted(3, 0));
    assert Admit(st, 7, s, 3) == (st1, To(s, 3, Issuing)) by {
      assert map[3 := SUBMISSION][3 := accepted] == map[3 := accepted] && {} + {0} == {0};
    }
    run := Go(run, st, s, st1, To(s, 3, Issuing));
    run := Go(run, st1, To(s, 3, Issuing), st1, To(s, 3, Finishing));
    run := Go(run, st1, To(s, 3, Finishing), st1, To(s, 3, Completing(1)));
    var st2 := Log(st1.(requests := map[3 := done]), 7, s, Finished(3, Completed));
    var s' := s.(task := Between, busy := {}, resting := {0});
    assert Finish(st1, 7, To(s, 3, Completing(1)), 3, 1, Completed) == (st2, s') by {
      assert map[3 := accepted][3 := done] == map[3 := done] && {0} - {0} == {} && {} + {0} == {0};
    }
    run := Go(run, st1, To(s, 3, Completing(1)), st2, s');
    st, s := st2, s';
  }

  lemma Go(run: seq<System>, st: Store, s: Session, st': Store, s': Session) returns (longer: seq<System>)
    requires IsRun(run) && run[|run| - 1] == System(st, map[7 := s])
    requires s.phase.Serving? && s.task.Working? && s.task.req in st.requests
    requires Work(st, 7, s, s.task.req, s.task.stage, Outcome.Go) == Some((st', s'))
    ensures IsRun(longer) && longer[|longer| - 1] == System(st', map[7 := s'])
  {
    assert map[7 := s][7 := s'] == map[7 := s'];
    Extend(run, 7, Step(Outcome.Go), System(st', map[7 := s']));
    longer := run + [System(st', map[7 := s'])];
  }

  /** The first exception happens: the wait raises something else. The request ended, nothing recorded its
      rest, and no task will. */
  lemma FailedWaitDropsRest() returns (run: seq<System>)
    ensures IsRun(run) && Dropped(run[|run| - 1])
  {
    var st, s;
    run, st, s := CompletedRun();
    var s1 := s.(resting := {});
    assert DropRest(s, 0) == s1 by { assert {0} - {0} == {}; }
    assert map[7 := s][7 := s1] == map[7 := s1];
    Extend(run, 7, RestFails(0), System(st, map[7 := s1]));
    run := run + [System(st, map[7 := s1])];
    StateTellsEffect(run, |run| - 1, 3);
  }

  /** The second happens: the sweep is attaching the experiment when its rest task takes a last look,
      which is skipped, and then fails. The request ended, nothing recorded its rest, and no task will. */
  lemma FailedSweepDropsRest() returns (run: seq<System>)
    ensures IsRun(run) && Dropped(run[|run| - 1])
  {
    var st, s;
    run, st, s := CompletedRun();
    var s1 := s.(busy := {0}, task := Sweeping(0));
    assert Loop(st, s, SweepStart(0)) == Some(s1) by { assert {} + {0} == {0}; }
    assert map[7 := s][7 := s1] == map[7 := s1];
    Extend(run, 7, SweepStart(0), System(st, map[7 := s1]));
    run := run + [System(st, map[7 := s1])];
    var s2 := s1.(resting := {});
    assert TakeRest(st, 7, s1, 0, false) == (st, s2) by { assert {0} - {0} == {}; }
    assert map[7 := s1][7 := s2] == map[7 := s2];
    Extend(run, 7, RestLook(0, false), System(st, map[7 := s2]));
    run := run + [System(st, map[7 := s2])];
    var s3 := s2.(busy := {}, task := Between);
    assert Loop(st, s2, SweepEnd(false)) == Some(s3) by { assert {0} - {0} == {}; }
    assert map[7 := s2][7 := s3] == map[7 := s3];
    Extend(run, 7, SweepEnd(false), System(st, map[7 := s3]));
    run := run + [System(st, map[7 := s3])];
    StateTellsEffect(run, |run| - 1, 3);
  }
}
