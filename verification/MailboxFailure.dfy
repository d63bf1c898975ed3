/** What a FAILED request may have recorded: nothing, unless it is a proposal that one daemon could judge and
    another, with another configuration, could not. */
module MailboxFailure {
  import opened Util
  import opened Mailbox
  import opened MailboxInvariant
  import opened MailboxSafety

  // ---- who wrote what ------------------------------------------------------------------------------------

  /** What a session's own write says of its configuration. */
  predicate WriteOk(st: Store, s: Session, w: Write) {
    match w
    case Recorded(r, _, _) => r in st.requests && st.requests[r].status.Pending? && CanJudge(s, st.requests[r])
    case Finished(r, status) =>
      r in st.requests && Unfinished(st.requests[r]) && (status.Failed? && IsRecorded(st, st.requests[r]) ==> !CanJudge(s, st.requests[r]))
    case _ => true
  }

  ghost predicate WroteOk(st: Store, id: nat, s: Session, st': Store) {
    st'.log == st.log || exists w :: st'.log == st.log + [Entry(id, s.epoch, w)] && WriteOk(st, s, w)
  }

  lemma WorkWrites(st: Store, id: nat, s: Session, r: nat, stage: Stage, o: Outcome)
    requires r in st.requests && Work(st, id, s, r, stage, o).Some? && (Holds(st, s) ==> StageStrong(st, s, r, stage))
    ensures WroteOk(st, id, s, Work(st, id, s, r, stage, o).value.0)
  {
  }

  lemma SessionWrites(st: Store, id: nat, s: Session, a: Action)
    requires SessionStep(st, id, s, a).Some? && SessionOk(st, id, s)
    ensures WroteOk(st, id, s, SessionStep(st, id, s, a).value.0)
  {
    if a.Step? { WorkWrites(st, id, s, s.task.req, s.task.stage, a.outcome); }
  }

  /** The entry's session and its configuration: it could judge what it recorded, and what it failed although
      an intent had been recorded for it, it could not judge. */
  predicate EntryConfig(sys: System, e: Entry) {
    && e.session in sys.sessions
    && match e.write
       case Recorded(r, _, _) => r in sys.store.requests && CanJudge(sys.sessions[e.session], sys.store.requests[r])
       case Finished(r, status) =>
         && r in sys.store.requests && sys.store.requests[r].status == status
         && (status.Failed? && RecordedFor(sys.store, r) ==> !CanJudge(sys.sessions[e.session], sys.store.requests[r]))
       case _ => true
  }

  predicate ConfigOk(sys: System) {
    forall i :: 0 <= i < |sys.store.log| ==> EntryConfig(sys, sys.store.log[i])
  }

  /** What the log held of finished requests is told of the record after it. */
  lemma EntryKept(sys: System, sys': System, e: Entry)
    requires EntryConfig(sys, e) && Grows(sys.store, sys'.store)
    requires e.session in sys'.sessions && sys'.sessions[e.session].judges == sys.sessions[e.session].judges
    requires e.write.Finished? ==> !Unfinished(sys.store.requests[e.write.req])
    requires e.write.Finished? && RecordedFor(sys'.store, e.write.req) ==> RecordedFor(sys.store, e.write.req)
    ensures EntryConfig(sys', e)
  {
    if e.write.Recorded? || e.write.Finished? {
      assert RequestGrows(sys.store.requests[e.write.req], sys'.store.requests[e.write.req]);
    }
  }

  /** An intent recorded for a request is on record, with the request's content. */
  lemma RecordedForIsRecorded(st: Store, r: nat)
    requires EntriesOk(st) && RecordedFor(st, r)
    ensures r in st.requests && IsRecorded(st, st.requests[r])
  {
    var i :| 0 <= i < |st.log| && st.log[i].write.Recorded? && st.log[i].write.req == r;
    assert EntryOk(st, st.log[i].write);
  }

  lemma SameLogConfig(sys: System, sys': System)
    requires Inv(sys) && ConfigOk(sys) && Grows(sys.store, sys'.store) && sys'.store.log == sys.store.log
    requires forall id :: id in sys.sessions ==> id in sys'.sessions && sys'.sessions[id].judges == sys.sessions[id].judges
    ensures ConfigOk(sys')
  {
    forall i | 0 <= i < |sys'.store.log| ensures EntryConfig(sys', sys'.store.log[i]) {
      assert EntryOk(sys.store, sys.store.log[i].write) && EntryConfig(sys, sys.store.log[i]);
      EntryKept(sys, sys', sys.store.log[i]);
    }
  }

  lemma LongerLogConfig(sys: System, sys': System, id: nat, w: Write)
    requires Inv(sys) && ConfigOk(sys) && Grows(sys.store, sys'.store) && Inv(sys') && id in sys.sessions
    requires sys'.store.log == sys.store.log + [Entry(id, sys.sessions[id].epoch, w)] && WriteOk(sys.store, sys.sessions[id], w)
    requires forall o :: o in sys.sessions ==> o in sys'.sessions && sys'.sessions[o].judges == sys.sessions[o].judges
    ensures ConfigOk(sys')
  {
    var n := |sys.store.log|;
    forall i | 0 <= i < |sys'.store.log| ensures EntryConfig(sys', sys'.store.log[i]) {
      if i < n {
        var e := sys.store.log[i];
        assert EntryOk(sys.store, e.write) && EntryConfig(sys, e);
        assert e.write.Finished? && RecordedFor(sys'.store, e.write.req) ==> RecordedFor(sys.store, e.write.req) by {
          if e.write.Finished? && RecordedFor(sys'.store, e.write.req) {
            OlderRecord(sys.store, sys'.store, Entry(id, sys.sessions[id].epoch, w), e.write.req);
          }
        }
        EntryKept(sys, sys', e);
      } else {
        NewEntryConfig(sys, sys', id, w);
      }
    }
  }

  lemma OlderRecord(st: Store, st': Store, e: Entry, r: nat)
    requires st'.log == st.log + [e] && RecordedFor(st', r) && !(e.write.Recorded? && e.write.req == r)
    ensures RecordedFor(st, r)
  {
    var i :| 0 <= i < |st'.log| && st'.log[i].write.Recorded? && st'.log[i].write.req == r;
    assert st.log[i] == st'.log[i];
  }

  lemma NewEntryConfig(sys: System, sys': System, id: nat, w: Write)
    requires Inv(sys) && Inv(sys') && Grows(sys.store, sys'.store) && id in sys.sessions
    requires sys'.store.log == sys.store.log + [Entry(id, sys.sessions[id].epoch, w)] && WriteOk(sys.store, sys.sessions[id], w)
    requires id in sys'.sessions && sys'.sessions[id].judges == sys.sessions[id].judges
    ensures EntryConfig(sys', Entry(id, sys.sessions[id].epoch, w))
  {
    var e := Entry(id, sys.sessions[id].epoch, w);
    assert sys'.store.log[|sys.store.log|] == e && EntryOk(sys'.store, w);
    if w.Recorded? || w.Finished? {
      assert RequestGrows(sys.store.requests[w.req], sys'.store.requests[w.req]);
    }
    if w.Finished? && RecordedFor(sys'.store, w.req) {
      OlderRecord(sys.store, sys'.store, e, w.req);
      RecordedForIsRecorded(sys.store, w.req);
    }
  }

  lemma DoKeepsConfig(sys: System, id: nat, a: Action, sys': System)
    requires Inv(sys) && ConfigOk(sys) && Do(sys, id, a) == Some(sys')
    ensures ConfigOk(sys')
  {
    DoKeepsInv(sys, id, a, sys');
    if a.Send? || a.ForeignAdmit? || a.ForeignEvent? || a.Expire? || a.Acquire? {
      SameLogConfig(sys, sys');
    } else {
      var s := sys.sessions[id];
      assert SessionOk(sys.store, id, s);
      SessionWrites(sys.store, id, s, a);
      SessionStepOk(sys.store, id, s, a);
      if sys'.store.log == sys.store.log {
        SameLogConfig(sys, sys');
      } else {
        var w :| sys'.store.log == sys.store.log + [Entry(id, s.epoch, w)] && WriteOk(sys.store, s, w);
        LongerLogConfig(sys, sys', id, w);
      }
    }
  }

  lemma {:induction false} RunConfig(run: seq<System>, n: nat)
    requires IsRun(run) && n < |run|
    ensures ConfigOk(run[n])
  {
    if n > 0 {
      RunConfig(run, n - 1);
      RunInv(run, n - 1);
      assert NextAt(run, n - 1);
      var id: nat, a :| Do(run[n - 1], id, a) == Some(run[n]);
      DoKeepsConfig(run[n - 1], id, a, run[n]);
    }
  }

  // ---- one request ------------------------------------------------------------------------------------------

  /** The log holds the request's intent, written by a session that could judge it, and its failure, written by
      one that could not. */
  predicate ConfigurationsDiffered(sys: System, r: nat)
    requires r in sys.store.requests
  {
    exists i, j :: 0 <= i < |sys.store.log| && 0 <= j < |sys.store.log|
      && sys.store.log[i].write.Recorded? && sys.store.log[i].write.req == r && sys.store.log[j].write == Finished(r, Failed)
      && sys.store.log[i].session in sys.sessions && CanJudge(sys.sessions[sys.store.log[i].session], sys.store.requests[r])
      && sys.store.log[j].session in sys.sessions && !CanJudge(sys.sessions[sys.store.log[j].session], sys.store.requests[r])
  }

  /** A FAILED request recorded its intent only as a proposal that the daemon recording it could judge and the
      daemon failing it could not. */
  lemma FailedOnRecord(run: seq<System>, n: nat, r: nat)
    requires IsRun(run) && n < |run| && r in run[n].store.requests && run[n].store.requests[r].status.Failed?
    ensures RecordedFor(run[n].store, r) <==> ConfigurationsDiffered(run[n], r)
    ensures RecordedFor(run[n].store, r) ==> run[n].store.requests[r].kind.Act? && run[n].store.requests[r].kind.form.Propose?
  {
    RunInv(run, n);
    RunConfig(run, n);
    var sys := run[n];
    assert RequestOk(sys.store, r);
    if RecordedFor(sys.store, r) {
      var i :| 0 <= i < |sys.store.log| && sys.store.log[i].write.Recorded? && sys.store.log[i].write.req == r;
      var j: nat :| FailedAt(sys.store, j, r);
      assert EntryConfig(sys, sys.store.log[i]) && EntryConfig(sys, sys.store.log[j]);
    }
  }

  // ---- all runs, by the configurations daemons are started with ----------------------------------------------

  predicate SystemWithin(sys: System, allowed: iset<set<(nat, nat)>>) {
    forall id :: id in sys.sessions ==> sys.sessions[id].judges in allowed
  }

  /** A run in which every daemon is started with one of these configurations. */
  ghost predicate RunWithin(run: seq<System>, allowed: iset<set<(nat, nat)>>) {
    IsRun(run) && forall n :: 0 <= n < |run| ==> SystemWithin(run[n], allowed)
  }

  /** A proposal of this content for this experiment is FAILED although its intent was recorded for it. */
  predicate FailedRecorded(sys: System, r: nat, p: (nat, nat)) {
    && r in sys.store.requests && sys.store.requests[r].status.Failed? && RecordedFor(sys.store, r)
    && sys.store.requests[r].kind.Act? && sys.store.requests[r].kind.form.Propose?
    && (sys.store.requests[r].exp, sys.store.requests[r].kind.content) == p
  }

  ghost predicate NeverFailsRecorded(allowed: iset<set<(nat, nat)>>, p: (nat, nat)) {
    forall run, n: nat, r: nat :: RunWithin(run, allowed) && n < |run| ==> !FailedRecorded(run[n], r, p)
  }

  /** Either every configuration can judge the proposal, or none can. */
  ghost predicate Agree(allowed: iset<set<(nat, nat)>>, p: (nat, nat)) {
    forall c, d :: c in allowed && d in allowed && p in c ==> p in d
  }

  /** Main result: over all runs of daemons started with any of these configurations, a FAILED proposal has
      recorded nothing if and only if the configurations agree on whether they can judge it. */
  lemma FailedRecordsNothingExactly(allowed: iset<set<(nat, nat)>>, p: (nat, nat))
    ensures NeverFailsRecorded(allowed, p) <==> Agree(allowed, p)
  {
    if Agree(allowed, p) {
      forall run, n: nat, r: nat | RunWithin(run, allowed) && n < |run| ensures !FailedRecorded(run[n], r, p) {
        AgreedNotFailed(run, n, r, allowed, p);
      }
    } else {
      var c, d :| c in allowed && d in allowed && p in c && p !in d;
      var run := FailedRecordedRun(c, d, p);
      WithinMore(run, iset{c, d}, allowed);
      assert FailedRecorded(run[|run| - 1], 3, p);
    }
  }

  lemma AgreedNotFailed(run: seq<System>, n: nat, r: nat, allowed: iset<set<(nat, nat)>>, p: (nat, nat))
    requires RunWithin(run, allowed) && n < |run| && Agree(allowed, p)
    ensures !FailedRecorded(run[n], r, p)
  {
    assert SystemWithin(run[n], allowed);
    if r in run[n].store.requests && run[n].store.requests[r].status.Failed? {
      FailedOnRecord(run, n, r);
      AgreedNotDiffered(run[n], r, allowed, p);
    }
  }

  lemma AgreedNotDiffered(sys: System, r: nat, allowed: iset<set<(nat, nat)>>, p: (nat, nat))
    requires SystemWithin(sys, allowed) && Agree(allowed, p) && r in sys.store.requests
    ensures sys.store.requests[r].kind.Act? && (sys.store.requests[r].exp, sys.store.requests[r].kind.content) == p ==>
              !ConfigurationsDiffered(sys, r)
  {
  }

  lemma WithinMore(run: seq<System>, some: iset<set<(nat, nat)>>, all: iset<set<(nat, nat)>>)
    requires RunWithin(run, some) && some <= all
    ensures RunWithin(run, all)
  {
    forall n | 0 <= n < |run| ensures SystemWithin(run[n], all) { assert SystemWithin(run[n], some); }
  }

  // ---- the run that loses a recorded proposal ------------------------------------------------------------------

  lemma ExtendWithin(run: seq<System>, id: nat, a: Action, sys: System, allowed: iset<set<(nat, nat)>>) returns (longer: seq<System>)
    requires RunWithin(run, allowed) && Do(run[|run| - 1], id, a) == Some(sys) && SystemWithin(sys, allowed)
    ensures RunWithin(longer, allowed) && longer[|longer| - 1] == sys
  {
    Extend(run, id, a, sys);
    longer := run + [sys];
    forall n | 0 <= n < |longer| ensures SystemWithin(longer[n], allowed) {
      if n < |run| { assert longer[n] == run[n]; }
    }
  }

  /** A session lists the one unfinished request and takes it up. */
  lemma TakeUp(run: seq<System>, allowed: iset<set<(nat, nat)>>, st: Store, sessions: map<nat, Session>, id: nat, r: nat)
    returns (longer: seq<System>, s: Session)
    requires RunWithin(run, allowed) && run[|run| - 1] == System(st, sessions) && SystemWithin(run[|run| - 1], allowed)
    requires id in sessions && sessions[id].phase.Serving? && sessions[id].task.Between? && sessions[id].todo == [] && sessions[id].busy == {}
    requires Lists(st, [r]) && r in st.requests && st.requests[r].kind.Act?
    ensures RunWithin(longer, allowed) && longer[|longer| - 1] == System(st, sessions[id := s])
    ensures s == sessions[id].(task := Working(r, Recording), busy := {st.requests[r].exp}, todo := [], looked := {r}, left := {})
  {
    var s0 := sessions[id];
    assert [r][0] in st.requests;
    var ticket := Ticket(r, st.requests[r].status);
    assert Tickets(st, [r]) == [ticket];
    var s1 := s0.(todo := [ticket], looked := {r}, left := {});
    assert Ids([ticket]) == {r} by { assert [ticket][0].req in Ids([ticket]); }
    assert Loop(st, s0, Look([r])) == Some(s1);
    longer := ExtendWithin(run, id, Look([r]), System(st, sessions[id := s1]), allowed);
    s := s1.(todo := [], busy := {st.requests[r].exp}, task := Working(r, Recording));
    assert Loop(st, s1, Take) == Some(s) by { assert {} + {st.requests[r].exp} == {st.requests[r].exp} && s1.todo[1..] == []; }
    assert sessions[id := s1][id := s] == sessions[id := s];
    longer := ExtendWithin(longer, id, Take, System(st, sessions[id := s]), allowed);
  }

  /** One step of the session at work. */
  lemma WorkOn(run: seq<System>, allowed: iset<set<(nat, nat)>>, st: Store, sessions: map<nat, Session>, id: nat, st': Store, s': Session)
    returns (longer: seq<System>)
    requires RunWithin(run, allowed) && run[|run| - 1] == System(st, sessions) && SystemWithin(run[|run| - 1], allowed)
    requires id in sessions && sessions[id].phase.Serving? && sessions[id].task.Working? && sessions[id].task.req in st.requests
    requires Work(st, id, sessions[id], sessions[id].task.req, sessions[id].task.stage, Go) == Some((st', s'))
    requires s'.judges == sessions[id].judges
    ensures RunWithin(longer, allowed) && longer[|longer| - 1] == System(st', sessions[id := s'])
  {
    longer := ExtendWithin(run, id, Step(Go), System(st', sessions[id := s']), allowed);
  }

  function Proposal(p: (nat, nat)): Request {
    Request(p.0, Act(Propose, 5, p.1), Pending, 0)
  }

  /** The experiment and the proposal are there, and session 1 takes the lease and the request. */
  lemma ProposedRun(allowed: iset<set<(nat, nat)>>, c: set<(nat, nat)>, p: (nat, nat)) returns (run: seq<System>, st: Store, s: Session)
    requires c in allowed
    ensures RunWithin(run, allowed) && run[|run| - 1] == System(st, map[1 := s])
    ensures st == Store(map[3 := Proposal(p)], {p.0}, map[], map[], map[], 1, 1, Live, [])
    ensures s == Session(1, c, Serving, false, Working(3, Recording), {p.0}, {}, [], {3}, {})
  {
    run := [EMPTY];
    var st0 := EMPTY.store.(experiments := {p.0});
    assert Outside(EMPTY.store, ForeignAdmit(p.0)) == Some(st0) by { assert {} + {p.0} == {p.0}; }
    run := ExtendWithin(run, 0, ForeignAdmit(p.0), System(st0, map[]), allowed);
    var st1 := st0.(requests := map[3 := Proposal(p)]);
    run := ExtendWithin(run, 0, Send(3, Proposal(p)), System(st1, map[]), allowed);
    st, s := st1.(epoch := 1, holder := 1, lease := Live), Fresh(st1, c);
    run := ExtendWithin(run, 1, Acquire(c), System(st, map[1 := s]), allowed);
    run, s := TakeUp(run, allowed, st, map[1 := s], 1, 3);
    assert map[1 := Fresh(st1, c)][1 := s] == map[1 := s];
  }

  /** It can judge the proposal: it records it, and crashes before it completes the request. */
  lemma CrashedRun(allowed: iset<set<(nat, nat)>>, c: set<(nat, nat)>, p: (nat, nat)) returns (run: seq<System>, st: Store, s: Session)
    requires c in allowed && p in c
    ensures RunWithin(run, allowed) && run[|run| - 1] == System(st, map[1 := s]) && s.judges == c
    ensures st.requests == map[3 := Proposal(p)] && st.intents == map[5 := (p.0, p.1)] && st.experiments == {p.0}
    ensures st.lease.Live? && st.epoch == 1 && st.log == [Entry(1, 1, Recorded(3, p.0, 5))]
  {
    var st2;
    run, st2, s := ProposedRun(allowed, c, p);
    st := Log(st2.(intents := map[5 := (p.0, p.1)], latest := map[p.0 := 1]), 1, s, Recorded(3, p.0, 5));
    assert Record(st2, 1, s, 3) == (st, To(s, 3, Attaching));
    run := WorkOn(run, allowed, st2, map[1 := s], 1, st, To(s, 3, Attaching));
    assert map[1 := s][1 := To(s, 3, Attaching)] == map[1 := To(s, 3, Attaching)];
    var gone := s.(phase := Stopped, task := Between, busy := {}, todo := [], resting := {});
    assert map[1 := To(s, 3, Attaching)][1 := gone] == map[1 := gone];
    run := ExtendWithin(run, 1, Crash, System(st, map[1 := gone]), allowed);
    s := gone;
  }

  /** Its lease expires, and session 2 takes the next one. */
  lemma RecordedRun(c: set<(nat, nat)>, d: set<(nat, nat)>, p: (nat, nat)) returns (run: seq<System>, st: Store, sessions: map<nat, Session>)
    requires p in c
    ensures RunWithin(run, iset{c, d}) && run[|run| - 1] == System(st, sessions) && 2 in sessions
    ensures sessions[2] == Session(2, d, Serving, false, Between, {}, {}, [], {}, {}) && st.lease.Live? && st.epoch == 2
    ensures st.requests == map[3 := Proposal(p)] && st.intents == map[5 := (p.0, p.1)] && p.0 in st.experiments
    ensures RecordedFor(st, 3)
  {
    var allowed := iset{c, d};
    var st3, s;
    run, st3, s := CrashedRun(allowed, c, p);
    var st4 := st3.(lease := Expired);
    run := ExtendWithin(run, 0, Expire, System(st4, map[1 := s]), allowed);
    st := st4.(epoch := 2, holder := 2, lease := Live);
    sessions := map[1 := s][2 := Fresh(st4, d)];
    run := ExtendWithin(run, 2, Acquire(d), System(st, sessions), allowed);
    assert st.log[0].write.Recorded? && st.log[0].write.req == 3;
  }

  /** Session 2 cannot judge it: it refuses it before the record is asked, and fails the request. */
  lemma FailedRecordedRun(c: set<(nat, nat)>, d: set<(nat, nat)>, p: (nat, nat)) returns (run: seq<System>)
    requires p in c && p !in d
    ensures RunWithin(run, iset{c, d}) && FailedRecorded(run[|run| - 1], 3, p)
  {
    var allowed := iset{c, d};
    var st, sessions;
    run, st, sessions := RecordedRun(c, d, p);
    var s;
    assert Lists(st, [3]);
    run, s := TakeUp(run, allowed, st, sessions, 2, 3);
    sessions := sessions[2 := s];
    assert Record(st, 2, s, 3) == (st, To(s, 3, Refused));
    run := WorkOn(run, allowed, st, sessions, 2, st, To(s, 3, Refused));
    sessions := sessions[2 := To(s, 3, Refused)];
    run := WorkOn(run, allowed, st, sessions, 2, st, To(s, 3, Failing(0)));
    sessions := sessions[2 := To(s, 3, Failing(0))];
    var (st', s') := Finish(st, 2, To(s, 3, Failing(0)), 3, 0, Failed);
    run := WorkOn(run, allowed, st, sessions, 2, st', s');
    assert st'.requests[3].status.Failed?;
    var i :| 0 <= i < |st.log| && st.log[i].write.Recorded? && st.log[i].write.req == 3;
    assert st'.log[i] == st.log[i];
    assert RecordedFor(st', 3);
  }
}
