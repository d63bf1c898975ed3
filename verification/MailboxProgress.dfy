/** What the daemon's lease, its stopping and its rests do when nothing disturbs them. */
module MailboxProgress {
  import opened Util
  import opened Mailbox
  import opened MailboxInvariant
  import opened MailboxSafety
  import opened MailboxRest

  // ---- the lease ---------------------------------------------------------------------------------

  /** A new session can take the lease exactly when it is not live, and then it is the one that may write. */
  lemma AcquireExactly(sys: System, id: nat, judges: set<(nat, nat)>)
    requires id !in sys.sessions
    ensures Do(sys, id, Acquire(judges)).Some? <==> !sys.store.lease.Live?
    ensures !sys.store.lease.Live? ==>
              var sys' := Do(sys, id, Acquire(judges)).value;
              && id in sys'.sessions && Holds(sys'.store, sys'.sessions[id]) && sys'.store.holder == id
              && sys'.sessions[id].judges == judges && sys'.sessions[id].phase.Serving? && !sys'.sessions[id].lost
              && sys'.store.log == sys.store.log && sys'.store.requests == sys.store.requests && sys'.store.experiments == sys.store.experiments
              && (forall o :: o in sys.sessions && sys.sessions[o].epoch <= sys.store.epoch ==> !Holds(sys'.store, sys'.sessions[o]))
  {
  }

  /** A renewal tells a session that its lease has gone, exactly when it has. */
  lemma RenewalTells(sys: System, id: nat)
    requires id in sys.sessions && (sys.sessions[id].phase.Serving? || sys.sessions[id].phase.Closing?)
    ensures var s := sys.sessions[id];
            var sys' := Do(sys, id, Renew);
            && sys'.Some? && id in sys'.value.sessions && sys'.value.store == sys.store
            && (sys'.value.sessions[id].lost <==> s.lost || !Holds(sys.store, s))
  {
  }

  /** Main result: a session told to halt, and left alone, cancels its rests, closes its controller and stops; it
      gives the lease up if and only if it holds it and never knew it lost, and leaves everything else as it was. */
  lemma Shutdown(sys: System, id: nat) returns (s1: System, s2: System, s3: System, s4: System)
    requires id in sys.sessions && sys.sessions[id].phase.Serving?
    ensures Do(sys, id, Halt) == Some(s1) && Do(s1, id, CancelRests) == Some(s2)
    ensures Do(s2, id, Close) == Some(s3) && Do(s3, id, Release) == Some(s4)
    ensures id in s4.sessions && s4.sessions[id].phase.Stopped? && s4.sessions[id].resting == {}
    ensures s4.store == if Holds(sys.store, sys.sessions[id]) && !sys.sessions[id].lost then sys.store.(lease := Released) else sys.store
  {
    s1 := Do(sys, id, Halt).value;
    s2 := Do(s1, id, CancelRests).value;
    s3 := Do(s2, id, Close).value;
    s4 := Do(s3, id, Release).value;
  }

  /** A crash stops a session at any moment, and writes nothing: not even the lease is given up. */
  lemma CrashWritesNothing(sys: System, id: nat)
    requires id in sys.sessions
    ensures var sys' := Do(sys, id, Crash);
            && sys'.Some? && sys'.value.store == sys.store && id in sys'.value.sessions && sys'.value.sessions[id].phase.Stopped?
            && sys'.value.sessions == sys.sessions[id := sys'.value.sessions[id]]
  {
  }

  // ---- requests ----------------------------------------------------------------------------------

  /** A new request is pending and unrevised, and sending it touches nothing else. */
  lemma SendExactly(sys: System, id: nat, r: nat, q: Request)
    ensures Do(sys, id, Send(r, q)) ==
            if r !in sys.store.requests && q.status.Pending? && q.revision == 0
            then Some(sys.(store := sys.store.(requests := sys.store.requests[r := q]))) else None
  {
  }

  /** Between requests, with nothing left to do, a serving session lists the unfinished ones, in any order and each
      once, as they then are. */
  lemma LookExactly(sys: System, id: nat, order: seq<nat>)
    requires id in sys.sessions
    ensures Do(sys, id, Look(order)).Some? <==>
            && sys.sessions[id].phase.Serving? && sys.sessions[id].task.Between? && sys.sessions[id].todo == []
            && (forall i, j :: 0 <= i < j < |order| ==> order[i] != order[j])
            && (forall r :: r in order <==> r in sys.store.requests && (sys.store.requests[r].status.Pending? || sys.store.requests[r].status.Accepted?))
    ensures Do(sys, id, Look(order)).Some? ==>
              var sys' := Do(sys, id, Look(order)).value;
              && sys'.store == sys.store && id in sys'.sessions && |sys'.sessions[id].todo| == |order|
              && forall i :: 0 <= i < |order| ==>
                   order[i] in sys.store.requests && sys'.sessions[id].todo[i] == Ticket(order[i], sys.store.requests[order[i]].status)
  {
    assert forall i :: 0 <= i < |order| ==> order[i] in order;
  }

  /** A serving session takes up the next request on its list, and its experiment is busy from then on. */
  lemma TakesNext(sys: System, id: nat)
    requires id in sys.sessions
    requires var s := sys.sessions[id]; s.phase.Serving? && s.task.Between? && s.todo != [] && s.todo[0].req in sys.store.requests
    ensures var s, sys' := sys.sessions[id], Do(sys, id, Take);
            && sys'.Some? && sys'.value.store == sys.store && id in sys'.value.sessions
            && var t := sys'.value.sessions[id];
               t.task.Working? && t.task.req == s.todo[0].req && t.todo == s.todo[1..] && t.busy == s.busy + {sys.store.requests[s.todo[0].req].exp}
  {
  }

  // ---- waiting -----------------------------------------------------------------------------------

  /** No request for the experiment is waiting to be carried out, and its rest is at its latest event. */
  predicate AtFreshRest(st: Store, exp: nat) {
    && (forall r :: r in st.requests && st.requests[r].exp == exp ==> !Unfinished(st.requests[r]))
    && exp in st.rests && st.rests[exp].sequence == Latest(st, exp)
  }

  /** What a caller's `wait()` answers, exactly. */
  lemma AnswersExactly(st: Store, exp: nat, terminal: bool, quiescent: bool)
    ensures AtRest(st, exp, terminal, quiescent).Result?
            <==> quiescent && (terminal || (AtFreshRest(st, exp) && !st.rests[exp].escalated))
    ensures AtRest(st, exp, terminal, quiescent).Raised?
            <==> !(quiescent && terminal) && AtFreshRest(st, exp) && st.rests[exp].escalated
  {
  }

  /** An event, a new request, or an admission makes a rest out of date: the wait goes on. */
  lemma RestGoesStale(sys: System, id: nat, a: Action, sys': System, exp: nat, quiescent: bool)
    requires Inv(sys) && Do(sys, id, a) == Some(sys')
    requires (a.Observe? && a.exp == exp && id in sys.sessions && Holds(sys.store, sys.sessions[id]))
             || (a.Send? && a.request.exp == exp) || (a.ForeignEvent? && a.exp == exp)
    ensures AtRest(sys'.store, exp, false, quiescent).Waiting?
  {
    if a.Send? {
      assert a.req in sys'.store.requests && sys'.store.requests[a.req].exp == exp && Unfinished(sys'.store.requests[a.req]);
    } else if exp in sys.store.rests {
      var i: nat :| RestAt(sys.store, exp, i);
      assert Latest(sys'.store, exp) == Latest(sys.store, exp) + 1 && sys'.store.rests == sys.store.rests;
    }
  }

  /** A sweep keeps the experiment busy while it lasts, and a sweep that succeeds waits for its rest. */
  lemma SweepRests(sys: System, id: nat, exp: nat) returns (s1: System, s2: System)
    requires id in sys.sessions && exp in sys.store.experiments
    requires var s := sys.sessions[id]; s.phase.Serving? && s.task.Between? && s.todo == [] && s.busy == {}
    ensures Do(sys, id, SweepStart(exp)) == Some(s1) && Do(s1, id, SweepEnd(true)) == Some(s2)
    ensures id in s1.sessions && s1.sessions[id].busy == {exp} && s1.store == sys.store
    ensures s2 == System(sys.store, sys.sessions[id := sys.sessions[id].(resting := sys.sessions[id].resting + {exp})])
  {
    s1 := Do(sys, id, SweepStart(exp)).value;
    s2 := Do(s1, id, SweepEnd(true)).value;
    assert {} + {exp} == {exp} && {exp} - {exp} == {};
    assert sys.sessions[id := s1.sessions[id]][id := s2.sessions[id]] == sys.sessions[id := s2.sessions[id]];
  }
}
