/** `process_requests` and `_process` of one serving daemon (`daemon/server.py`), when nothing else writes
    while it works and no step breaks: what a whole pass leaves behind. */
module Server {
  import opened Util
  import opened Mailbox
  import opened MailboxInvariant
  import opened MailboxSafety

  /** What a definitive refusal can still fail: the submission itself, the recording of an intent, the
      adoption an attach asks for. */
  predicate Refusable(q: Request, stage: Stage) {
    stage.Validating? || stage.Recording? || (stage.Attaching? && q.kind.Attach?)
  }

  /** How a step ends: refused if *refuses* says so and it may, or if there is nothing to adopt. */
  function OutcomeOf(st: Store, r: nat, stage: Stage, refuses: (nat, Stage) -> bool): Outcome
    requires r in st.requests
  {
    var q := st.requests[r];
    if !Refusable(q, stage) || (stage.Recording? && IsRecorded(st, q)) then Go
    else if refuses(r, stage) || (stage.Attaching? && q.exp !in st.experiments) then Refuse
    else Go
  }

  /** How far a request is from its end. */
  function StepsLeft(stage: Stage): nat {
    match stage
    case Validating | Recording => 6
    case Issuing | Attaching => 5
    case Carrying => 4
    case Refused | Finishing => 3
    case Failing(_) | Completing(_) => 2
  }

  /** The step leaves the session serving on, nearer to the request's end, or at it. */
  predicate Nearer(st: Store, s: Session, r: nat, stage: Stage, st': Store, s': Session)
    requires r in st.requests
  {
    && Holds(st', s') && s'.phase.Serving? && s'.todo == s.todo && s'.left == s.left && s'.looked == s.looked
    && st'.requests.Keys == st.requests.Keys && s.resting <= s'.resting && st'.requests[r].exp == st.requests[r].exp
    && st'.experiments <= st.experiments + {st.requests[r].exp}
    && if s'.task.Between? then
         !Unfinished(st'.requests[r]) && (st'.requests[r].exp in st'.experiments ==> st'.requests[r].exp in s'.resting)
       else
         && s'.task.Working? && s'.task.req == r && StepsLeft(s'.task.stage) < StepsLeft(stage)
         && (s'.task.stage.Refused? ==> st'.requests[r].status.Pending?)
  }

  lemma ToForward(st: Store, s: Session, r: nat, stage: Stage, next: Stage)
    requires r in st.requests && Holds(st, s) && s.phase.Serving? && StepsLeft(next) < StepsLeft(stage)
    requires next.Refused? ==> st.requests[r].status.Pending?
    ensures Nearer(st, s, r, stage, st, To(s, r, next))
  {
  }

  lemma AdmitForward(st: Store, id: nat, s: Session, r: nat)
    requires r in st.requests && Holds(st, s) && s.phase.Serving? && StageStrong(st, s, r, Validating)
    ensures var (st', s') := Admit(st, id, s, r); Nearer(st, s, r, Validating, st', s')
  {
  }

  lemma RecordForward(st: Store, id: nat, s: Session, r: nat)
    requires r in st.requests && Holds(st, s) && s.phase.Serving? && StageStrong(st, s, r, Recording)
    ensures var (st', s') := Record(st, id, s, r); Nearer(st, s, r, Recording, st', s')
  {
  }

  lemma FinishForward(st: Store, id: nat, s: Session, r: nat, stage: Stage, revision: nat, status: Status)
    requires r in st.requests && Holds(st, s) && s.phase.Serving? && st.requests[r].revision == revision
    requires (stage.Failing? || stage.Completing?) && (status.Failed? || status.Completed?)
    ensures var (st', s') := Finish(st, id, s, r, revision, status); Nearer(st, s, r, stage, st', s')
  {
  }

  lemma RereadForward(st: Store, s: Session, r: nat, stage: Stage)
    requires r in st.requests && Holds(st, s) && s.phase.Serving? && StageStrong(st, s, r, stage)
    requires stage.Finishing? || (stage.Refused? && st.requests[r].status.Pending?)
    ensures Nearer(st, s, r, stage, st, Reread(st, s, r, stage))
  {
  }

  /** A definitive refusal, where one fails the request. */
  lemma RefusalForward(st: Store, s: Session, r: nat, stage: Stage)
    requires r in st.requests && Holds(st, s) && s.phase.Serving? && StageStrong(st, s, r, stage)
    requires Refusable(st.requests[r], stage) && !(stage.Recording? && IsRecorded(st, st.requests[r]))
    ensures OnRefusal(st, s, r, stage) == Some(To(s, r, Refused)) && Nearer(st, s, r, stage, st, To(s, r, Refused))
  {
    ToForward(st, s, r, stage, Refused);
  }

  /** A step without a transient error brings the request nearer to its end, and the end finishes it. */
  lemma StepForward(st: Store, id: nat, s: Session, r: nat, stage: Stage, refuses: (nat, Stage) -> bool)
    requires StoreInv(st) && SessionOk(st, id, s) && Holds(st, s) && s.phase.Serving? && s.task == Working(r, stage) && r in st.requests
    requires stage.Refused? ==> st.requests[r].status.Pending?
    ensures var step := Work(st, id, s, r, stage, OutcomeOf(st, r, stage, refuses));
            step.Some? && var (st', s') := step.value; Nearer(st, s, r, stage, st', s')
  {
    StageForward(st, id, s, r, stage, OutcomeOf(st, r, stage, refuses));
  }

  lemma StageForward(st: Store, id: nat, s: Session, r: nat, stage: Stage, o: Outcome)
    requires r in st.requests && Holds(st, s) && s.phase.Serving? && StageStrong(st, s, r, stage)
    requires stage.Refused? ==> st.requests[r].status.Pending?
    requires o.Refuse? ==> Refusable(st.requests[r], stage) && !(stage.Recording? && IsRecorded(st, st.requests[r]))
    requires o.Go? ==> stage.Attaching? ==> st.requests[r].exp in st.experiments
    requires !o.Break?
    ensures var step := Work(st, id, s, r, stage, o);
            step.Some? && var (st', s') := step.value; Nearer(st, s, r, stage, st', s')
  {
    if o.Refuse? {
      RefusalForward(st, s, r, stage);
    } else {
      match stage
      case Validating => AdmitForward(st, id, s, r);
      case Recording => RecordForward(st, id, s, r);
      case Refused => RereadForward(st, s, r, stage);
      case Finishing => RereadForward(st, s, r, stage);
      case Failing(revision) => FinishForward(st, id, s, r, stage, revision, Failed);
      case Completing(revision) => FinishForward(st, id, s, r, stage, revision, Completed);
      case Attaching => ToForward(st, s, r, stage, if st.requests[r].kind.Act? then Carrying else Finishing);
      case Issuing => ToForward(st, s, r, stage, Finishing);
      case Carrying => ToForward(st, s, r, stage, Finishing);
    }
  }

  // ---- what a request comes to -----------------------------------------------------------------------

  /** What carrying a request out comes to: how it ends, the controller calls made, in order, and what is
      admitted and on record then. */
  datatype Course = Course(ends: Status, calls: seq<Stage>, experiments: set<nat>, intents: map<nat, (nat, nat)>)

  /** What a request comes to when nothing else happens, by its kind, what is on record, what this
      configuration can judge and what the controller refuses. */
  function CourseOf(st: Store, judges: set<(nat, nat)>, r: nat, refuses: (nat, Stage) -> bool): Course
    requires r in st.requests
  {
    var q := st.requests[r];
    match q.kind
    case Submit =>
      if q.status.Accepted? then Course(Completed, [Attaching], st.experiments, st.intents)
      else if refuses(r, Validating) || q.exp in st.experiments then Course(Failed, [Validating], st.experiments, st.intents)
      else Course(Completed, [Validating, Issuing], st.experiments + {q.exp}, st.intents)
    case Attach =>
      Course(if q.exp in st.experiments && !refuses(r, Attaching) then Completed else Failed, [Attaching], st.experiments, st.intents)
    case Act(form, intent, content) =>
      var judged := form.Propose? ==> (q.exp, content) in judges;
      var recorded := intent in st.intents && st.intents[intent] == (q.exp, content);
      if judged && (recorded || (!refuses(r, Recording) && intent !in st.intents && q.exp in st.experiments)) then
        Course(Completed, [Recording, Attaching, Carrying], st.experiments, st.intents[intent := (q.exp, content)])
      else Course(Failed, [Recording], st.experiments, st.intents)
  }

  predicate IsCall(stage: Stage) {
    stage.Validating? || stage.Issuing? || stage.Recording? || stage.Attaching? || stage.Carrying?
  }

  /** The same from a stage on. */
  function Remaining(st: Store, judges: set<(nat, nat)>, r: nat, stage: Stage, refuses: (nat, Stage) -> bool): Course
    requires r in st.requests
  {
    var q := st.requests[r];
    match stage
    case Validating | Recording => CourseOf(st, judges, r, refuses)
    case Attaching =>
      if q.kind.Attach? then CourseOf(st, judges, r, refuses)
      else Course(Completed, if q.kind.Act? then [Attaching, Carrying] else [Attaching], st.experiments, st.intents)
    case Issuing | Carrying => Course(Completed, [stage], st.experiments, st.intents)
    case Finishing | Completing(_) => Course(Completed, [], st.experiments, st.intents)
    case Refused | Failing(_) => Course(Failed, [], st.experiments, st.intents)
  }

  /** After a step, what is left; at the end, what has come of it. */
  function Then(st: Store, s: Session, r: nat, refuses: (nat, Stage) -> bool): Course
    requires r in st.requests
  {
    if s.task.Working? then Remaining(st, s.judges, r, s.task.stage, refuses)
    else Course(st.requests[r].status, [], st.experiments, st.intents)
  }

  /** The course is these calls and then the rest. */
  predicate Makes(c: Course, calls: seq<Stage>, rest: Course) {
    c == rest.(calls := calls + rest.calls)
  }

  lemma MakesThrough(c: Course, first: seq<Stage>, next: Course, second: seq<Stage>, rest: Course)
    requires Makes(c, first, next) && Makes(next, second, rest)
    ensures Makes(c, first + second, rest)
  {
    assert first + (second + rest.calls) == (first + second) + rest.calls;
  }

  /** The step makes the call its stage is, and the rest is still to come. */
  predicate OnCourse(st: Store, s: Session, r: nat, stage: Stage, st': Store, s': Session, refuses: (nat, Stage) -> bool)
    requires r in st.requests && r in st'.requests
  {
    && Makes(Remaining(st, s.judges, r, stage, refuses), if IsCall(stage) then [stage] else [], Then(st', s', r, refuses))
    && s'.judges == s.judges && st'.requests == st.requests[r := st'.requests[r]]
  }

  lemma ToOnCourse(st: Store, s: Session, r: nat, stage: Stage, next: Stage, refuses: (nat, Stage) -> bool)
    requires r in st.requests
    requires Makes(Remaining(st, s.judges, r, stage, refuses), if IsCall(stage) then [stage] else [], Remaining(st, s.judges, r, next, refuses))
    ensures OnCourse(st, s, r, stage, st, To(s, r, next), refuses)
  {
    assert st.requests == st.requests[r := st.requests[r]];
  }

  lemma AdmitOnCourse(st: Store, id: nat, s: Session, r: nat, refuses: (nat, Stage) -> bool)
    requires r in st.requests && Holds(st, s) && StageStrong(st, s, r, Validating) && !refuses(r, Validating)
    ensures var (st', s') := Admit(st, id, s, r); r in st'.requests && OnCourse(st, s, r, Validating, st', s', refuses)
  {
    assert st.requests == st.requests[r := st.requests[r]];
  }

  lemma RecordOnCourse(st: Store, id: nat, s: Session, r: nat, refuses: (nat, Stage) -> bool)
    requires r in st.requests && Holds(st, s) && StageStrong(st, s, r, Recording)
    requires refuses(r, Recording) ==> IsRecorded(st, st.requests[r])
    ensures var (st', s') := Record(st, id, s, r); r in st'.requests && OnCourse(st, s, r, Recording, st', s', refuses)
  {
    var q := st.requests[r];
    assert st.requests == st.requests[r := q];
    if IsRecorded(st, q) { assert st.intents == st.intents[q.kind.intent := (q.exp, q.kind.content)]; }
  }

  lemma FinishOnCourse(st: Store, id: nat, s: Session, r: nat, stage: Stage, revision: nat, refuses: (nat, Stage) -> bool)
    requires r in st.requests && Holds(st, s) && st.requests[r].revision == revision
    requires stage == Failing(revision) || stage == Completing(revision)
    ensures var (st', s') := Finish(st, id, s, r, revision, if stage.Failing? then Failed else Completed);
            r in st'.requests && OnCourse(st, s, r, stage, st', s', refuses)
  {
  }

  /** A definitive refusal is where the course fails. */
  lemma RefusalOnCourse(st: Store, s: Session, r: nat, stage: Stage, refuses: (nat, Stage) -> bool)
    requires r in st.requests && StageStrong(st, s, r, stage)
    requires Refusable(st.requests[r], stage) && !(stage.Recording? && IsRecorded(st, st.requests[r]))
    requires refuses(r, stage) || (stage.Attaching? && st.requests[r].exp !in st.experiments)
    ensures OnCourse(st, s, r, stage, st, To(s, r, Refused), refuses)
  {
    ToOnCourse(st, s, r, stage, Refused, refuses);
  }

  /** Every step without a transient error stays on the course. */
  lemma StepOnCourse(st: Store, id: nat, s: Session, r: nat, stage: Stage, refuses: (nat, Stage) -> bool)
    requires r in st.requests && Holds(st, s) && s.phase.Serving? && StageStrong(st, s, r, stage)
    requires stage.Refused? ==> st.requests[r].status.Pending?
    requires Work(st, id, s, r, stage, OutcomeOf(st, r, stage, refuses)).Some?
    ensures var (st', s') := Work(st, id, s, r, stage, OutcomeOf(st, r, stage, refuses)).value;
            r in st'.requests && OnCourse(st, s, r, stage, st', s', refuses)
  {
    if OutcomeOf(st, r, stage, refuses).Refuse? {
      RefusalForward(st, s, r, stage);
      RefusalOnCourse(st, s, r, stage, refuses);
    } else {
      match stage
      case Validating => AdmitOnCourse(st, id, s, r, refuses);
      case Recording => RecordOnCourse(st, id, s, r, refuses);
      case Refused => ToOnCourse(st, s, r, stage, Failing(st.requests[r].revision), refuses);
      case Finishing => ToOnCourse(st, s, r, stage, Completing(st.requests[r].revision), refuses);
      case Failing(revision) => FinishOnCourse(st, id, s, r, stage, revision, refuses);
      case Completing(revision) => FinishOnCourse(st, id, s, r, stage, revision, refuses);
      case Attaching => ToOnCourse(st, s, r, stage, if st.requests[r].kind.Act? then Carrying else Finishing, refuses);
      case Issuing => ToOnCourse(st, s, r, stage, Finishing, refuses);
      case Carrying => ToOnCourse(st, s, r, stage, Finishing, refuses);
    }
  }

  /** The stage a request starts at is the beginning of its course. */
  lemma StartsOnCourse(st: Store, judges: set<(nat, nat)>, r: nat, refuses: (nat, Stage) -> bool)
    requires r in st.requests && Unfinished(st.requests[r]) && (st.requests[r].status.Accepted? ==> st.requests[r].kind.Submit?)
    ensures Remaining(st, judges, r, FirstStage(st.requests[r].kind, st.requests[r].status), refuses) == CourseOf(st, judges, r, refuses)
  {
  }

  /** How far a request taken up in *st0* by *s0* has come, and what was left alone. */
  ghost predicate Underway(st0: Store, s0: Session, r: nat, st: Store, s: Session, calls: seq<Stage>, refuses: (nat, Stage) -> bool) {
    && r in st0.requests && r in st.requests && StandsAt(st0, s0, r, st, s)
    && Makes(CourseOf(st0, s0.judges, r, refuses), calls, Then(st, s, r, refuses))
  }

  ghost predicate StandsAt(st0: Store, s0: Session, r: nat, st: Store, s: Session)
    requires r in st0.requests && r in st.requests
  {
    && st.requests == st0.requests[r := st.requests[r]]
    && Grows(st0, st) && st.requests[r].exp == st0.requests[r].exp && st.experiments <= st0.experiments + {st0.requests[r].exp}
    && s0.todo != [] && s.todo == s0.todo[1..] && s.left == s0.left && s.looked == s0.looked && s0.resting <= s.resting
    && s.judges == s0.judges
    && match s.task
       case Between => !Unfinished(st.requests[r]) && (st.requests[r].exp in st.experiments ==> st.requests[r].exp in s.resting)
       case Working(q, stage) => q == r && (stage.Refused? ==> st.requests[r].status.Pending?)
       case Sweeping(_) => false
  }

  lemma Takes(st: Store, id: nat, s: Session, r: nat, refuses: (nat, Stage) -> bool)
    requires StoreInv(st) && SessionOk(st, id, s) && Holds(st, s) && s.phase.Serving? && s.task.Between? && s.todo != [] && s.todo[0].req == r
    ensures Loop(st, s, Take).Some?
    ensures var s' := Loop(st, s, Take).value; SessionOk(st, id, s') && Holds(st, s') && s'.phase.Serving? && Underway(st, s, r, st, s', [], refuses)
  {
    assert TicketStrong(st, s.todo[0]) && RequestOk(st, r);
    TakeOk(st, id, s);
    StartsOnCourse(st, s.judges, r, refuses);
    assert st.requests == st.requests[r := st.requests[r]];
    var rest := Then(st, Loop(st, s, Take).value, r, refuses);
    assert [] + rest.calls == rest.calls;
  }

  lemma Goes(st0: Store, s0: Session, id: nat, r: nat, st: Store, s: Session, calls: seq<Stage>, refuses: (nat, Stage) -> bool)
    requires StoreInv(st) && SessionOk(st, id, s) && Holds(st, s) && s.phase.Serving? && s.task.Working?
    requires Underway(st0, s0, r, st, s, calls, refuses)
    ensures Work(st, id, s, r, s.task.stage, OutcomeOf(st, r, s.task.stage, refuses)).Some?
    ensures var (st', s') := Work(st, id, s, r, s.task.stage, OutcomeOf(st, r, s.task.stage, refuses)).value;
            && StoreInv(st') && SessionOk(st', id, s') && Holds(st', s') && s'.phase.Serving?
            && Underway(st0, s0, r, st', s', if IsCall(s.task.stage) then calls + [s.task.stage] else calls, refuses)
            && (s'.task.Working? ==> StepsLeft(s'.task.stage) < StepsLeft(s.task.stage))
  {
    var stage := s.task.stage;
    StepForward(st, id, s, r, stage, refuses);
    StepOnCourse(st, id, s, r, stage, refuses);
    WorkOk(st, id, s, r, stage, OutcomeOf(st, r, stage, refuses));
    var (st', s') := Work(st, id, s, r, stage, OutcomeOf(st, r, stage, refuses)).value;
    GrowsThrough(st0, st, st');
    StillUnderway(st0, s0, r, st, s, st', s', stage, calls, refuses);
  }

  lemma StillUnderway(st0: Store, s0: Session, r: nat, st: Store, s: Session, st': Store, s': Session, stage: Stage,
                      calls: seq<Stage>, refuses: (nat, Stage) -> bool)
    requires Underway(st0, s0, r, st, s, calls, refuses) && s.task == Working(r, stage)
    requires Nearer(st, s, r, stage, st', s') && r in st'.requests && OnCourse(st, s, r, stage, st', s', refuses) && Grows(st0, st')
    ensures Underway(st0, s0, r, st', s', if IsCall(stage) then calls + [stage] else calls, refuses)
  {
    var call := if IsCall(stage) then [stage] else [];
    MakesThrough(CourseOf(st0, s0.judges, r, refuses), calls, Then(st, s, r, refuses), call, Then(st', s', r, refuses));
    assert calls + call == if IsCall(stage) then calls + [stage] else calls;
    StillStands(st0, s0, r, st, s, st', s', stage);
  }

  lemma StillStands(st0: Store, s0: Session, r: nat, st: Store, s: Session, st': Store, s': Session, stage: Stage)
    requires r in st0.requests && r in st.requests && r in st'.requests && StandsAt(st0, s0, r, st, s) && s.task == Working(r, stage)
    requires Nearer(st, s, r, stage, st', s') && Grows(st0, st')
    requires s'.judges == s.judges && st'.requests == st.requests[r := st'.requests[r]]
    ensures StandsAt(st0, s0, r, st', s')
  {
    assert st0.requests[r := st.requests[r]][r := st'.requests[r]] == st0.requests[r := st'.requests[r]];
  }

  class Daemon {
    const id: nat
    var store: Store
    var session: Session

    ghost predicate Valid()
      reads this
    {
      StoreInv(store) && SessionOk(store, id, session) && Holds(store, session) && session.phase.Serving?
    }

    /** A request a pass has dealt with: finished, and a rest awaited if there is an experiment. */
    ghost predicate Dealt(r: nat)
      reads this
    {
      && r in store.requests && !Unfinished(store.requests[r])
      && (store.requests[r].exp in store.experiments ==> store.requests[r].exp in session.resting)
    }

    /** Start serving as the next epoch, over a database no one holds. */
    constructor (id: nat, st: Store, judges: set<(nat, nat)>)
      requires StoreInv(st) && !st.lease.Live?
      ensures Valid() && this.id == id && session == Fresh(st, judges) && store == st.(epoch := st.epoch + 1, holder := id, lease := Live)
    {
      this.id := id;
      this.store := st.(epoch := st.epoch + 1, holder := id, lease := Live);
      this.session := Fresh(st, judges);
      new;
      var sys := System(st, map[]);
      assert Do(sys, id, Acquire(judges)) == Some(System(store, map[id := session]));
      LeaseChanged(st, Expired);
      AcquireKeepsInv(System(st.(lease := Expired), map[]), id, Acquire(judges), System(store, map[id := session]));
      assert SessionOk(store, id, session);
    }

    /** `_process` of the oldest request still to do. */
    method Process(refuses: (nat, Stage) -> bool) returns (calls: seq<Stage>)
      requires Valid() && session.task.Between? && session.todo != []
      modifies this
      ensures Valid() && session.task.Between? && session.todo == old(session.todo)[1..]
      ensures Grows(old(store), store) && store.requests.Keys == old(store).requests.Keys
      ensures session.left == old(session.left) && session.looked == old(session.looked) && old(session.resting) <= session.resting
      ensures Dealt(old(session.todo)[0].req)
      ensures var r := old(session.todo)[0].req;
              && r in old(store).requests && r in store.requests && store.requests == old(store).requests[r := store.requests[r]]
              && CourseOf(old(store), old(session).judges, r, refuses) == Course(store.requests[r].status, calls, store.experiments, store.intents)
      ensures session.judges == old(session).judges
      ensures forall e :: e in store.experiments ==> e in old(store).experiments || e in session.resting
    {
      var r := session.todo[0].req;
      Takes(store, id, session, r, refuses);
      session := Loop(store, session, Take).value;
      calls := [];
      while session.task.Working?
        invariant Valid() && Underway(old(store), old(session), r, store, session, calls, refuses)
        decreases if session.task.Working? then StepsLeft(session.task.stage) else 0
      {
        var stage := session.task.stage;
        Goes(old(store), old(session), id, r, store, session, calls, refuses);
        var (store', session') := Work(store, id, session, r, stage, OutcomeOf(store, r, stage, refuses)).value;
        if IsCall(stage) { calls := calls + [stage]; }
        store, session := store', session';
      }
    }

    /** `process_requests`: main result of a pass. Every request that was unfinished is completed or
        failed, none is left, and the rest of every experiment it touched is awaited. */
    method ProcessRequests(order: seq<nat>, refuses: (nat, Stage) -> bool) returns (count: nat)
      requires Valid() && session.task.Between? && session.todo == [] && Lists(store, order)
      modifies this
      ensures Valid() && session.task.Between? && session.todo == [] && session.left == {}
      ensures Grows(old(store), store) && store.requests.Keys == old(store).requests.Keys && count == |order|
      ensures forall r :: r in store.requests ==> !Unfinished(store.requests[r])
      ensures forall r :: r in old(store).requests && Unfinished(old(store).requests[r]) ==> Dealt(r)
    {
      LookOk(store, id, session, order);
      PassLooksAtAll(store, session, order, Loop(store, session, Look(order)).value);
      session := Loop(store, session, Look(order)).value;
      ghost var todo := session.todo;
      count := 0;
      while session.todo != []
        invariant Valid() && session.task.Between? && session.left == {} && session.looked == Ids(todo)
        invariant count <= |todo| == |order| && session.todo == todo[count..]
        invariant Grows(old(store), store) && store.requests.Keys == old(store).requests.Keys
        invariant forall i :: 0 <= i < count ==> Dealt(todo[i].req)
        decreases |session.todo|
      {
        ghost var before, resting := store, session.resting;
        var calls := Process(refuses);
        GrowsThrough(old(store), before, store);
        forall i | 0 <= i < count ensures Dealt(todo[i].req) {
          StillDealt(before, resting, store, session.resting, todo[i].req);
        }
        count := count + 1;
      }
      forall r | r in old(store).requests && Unfinished(old(store).requests[r]) ensures Dealt(r) {
        assert r in Ids(todo);
      }
      forall r | r in store.requests ensures !Unfinished(store.requests[r]) {
        assert RequestGrows(old(store).requests[r], store.requests[r]);
      }
    }
  }

  lemma StillDealt(st: Store, resting: set<nat>, st': Store, resting': set<nat>, r: nat)
    requires Grows(st, st') && resting <= resting' && r in st.requests && !Unfinished(st.requests[r])
    requires forall e :: e in st'.experiments ==> e in st.experiments || e in resting'
    requires st.requests[r].exp in st.experiments ==> st.requests[r].exp in resting
    ensures r in st'.requests && !Unfinished(st'.requests[r])
    ensures st'.requests[r].exp in st'.experiments ==> st'.requests[r].exp in resting'
  {
    assert RequestGrows(st.requests[r], st'.requests[r]);
  }
}
