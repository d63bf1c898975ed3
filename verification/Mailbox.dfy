/** The daemon's mailbox, lease and rest protocol (`daemon/server.py`, `daemon/host.py`): any number of
    daemon sessions over one database, interleaved, each of which may crash or lose its lease between
    any two of its durable writes.

    Storage is what the daemon relies on: admission is one transaction, a request is changed by
    compare-and-set on its revision, every controller write proves its lease epoch, and recording an
    intent again under the same identity finds what was recorded, once the request gets that far. */
module Mailbox {
  import opened Util

  // ---- the database ------------------------------------------------------------------------------

  datatype Status = Pending | Accepted | Completed | Failed

  /** A cancellation, a proposal, or the approval or rejection of one. */
  datatype Form = Cancel | Propose | Resolve

  /** *Act* names the identity and content of what it records. */
  datatype Kind = Submit | Attach | Act(form: Form, intent: nat, content: nat)

  datatype Request = Request(exp: nat, kind: Kind, status: Status, revision: nat)

  predicate Unfinished(q: Request) {
    q.status.Pending? || q.status.Accepted?
  }

  datatype Rest = Rest(sequence: nat, escalated: bool)

  /** What a controller writes. *Event* is anything else it records of an experiment. */
  datatype Write =
    | Admitted(req: nat, exp: nat)
    | Recorded(req: nat, exp: nat, intent: nat)
    | Event(exp: nat)
    | Finished(req: nat, status: Status)
    | Rested(exp: nat, sequence: nat)

  datatype Entry = Entry(session: nat, epoch: nat, write: Write)

  datatype Lease = Live | Expired | Released

  /** *intents* holds what is recorded under each identity: the experiment and the content. *latest* is an experiment's last event; *log* every committed controller write, in order. */
  datatype Store = Store(
    requests: map<nat, Request>, experiments: set<nat>, intents: map<nat, (nat, nat)>,
    latest: map<nat, nat>, rests: map<nat, Rest>,
    epoch: nat, holder: nat, lease: Lease, log: seq<Entry>)

  function Latest(st: Store, exp: nat): nat {
    if exp in st.latest then st.latest[exp] else 0
  }

  /** The write concerns the experiment's own record. */
  predicate Moves(w: Write, exp: nat) {
    (w.Admitted? || w.Recorded? || w.Event?) && w.exp == exp
  }

  // ---- a daemon session ---------------------------------------------------------------------------

  /** How far a request has been carried out: the points between which something else may happen. */
  datatype Stage =
    | Validating
    | Issuing
    | Recording
    | Attaching
    | Carrying
    | Refused
    | Failing(revision: nat)
    | Finishing
    | Completing(revision: nat)

  datatype Task = Between | Sweeping(exp: nat) | Working(req: nat, stage: Stage)

  datatype Phase = Serving | Closing | Closed | Stopped

  /** A request as the mailbox listed it. */
  datatype Ticket = Ticket(req: nat, status: Status)

  /** *judges* is fixed by the daemon's configuration: the proposals, by experiment and content, that it
      can judge, knowing the runtime the experiment records and accepting the action's type and spec.
      *busy* and *resting* are the server's own: experiments being worked on, and those a task is waiting
      for the rest of. The last two are for stating properties: what the pass looked at, and what it left
      for a later one. */
  datatype Session = Session(
    epoch: nat, judges: set<(nat, nat)>, phase: Phase, lost: bool, task: Task, busy: set<nat>, resting: set<nat>,
    todo: seq<Ticket>, looked: set<nat>, left: set<nat>)

  datatype System = System(store: Store, sessions: map<nat, Session>)

  const EMPTY := System(Store(map[], {}, map[], map[], map[], 0, 0, Released, []), map[])

  /** The fence: the lease is this session's, and live. */
  predicate Holds(st: Store, s: Session) {
    st.lease.Live? && st.epoch == s.epoch
  }

  function Log(st: Store, id: nat, s: Session, w: Write): Store {
    st.(log := st.log + [Entry(id, s.epoch, w)])
  }

  // ---- carrying out a request ---------------------------------------------------------------------

  /** How a step that calls the controller ends: normally, with a definitive refusal, or otherwise. */
  datatype Outcome = Go | Refuse | Break

  function To(s: Session, r: nat, stage: Stage): Session {
    s.(task := Working(r, stage))
  }

  /** `_rest_when_settled`: something will record the experiment's next rest, if there is an experiment. */
  function RestWhenSettled(st: Store, s: Session, exp: nat): Session {
    if exp in st.experiments then s.(resting := s.resting + {exp}) else s
  }

  /** The end of `_process`: the request is dealt with, or left for a later pass. */
  function End(st: Store, s: Session, r: nat, exp: nat, dealt: bool): Session {
    RestWhenSettled(
      st, s.(task := Between, busy := s.busy - {exp}, left := if dealt then s.left else s.left + {r}), exp)
  }

  /** `LeaseLostError` in the main loop: the daemon drops what it is doing and stops. */
  function Lose(s: Session): Session {
    s.(lost := true, phase := Closing, task := Between, busy := {}, todo := [])
  }

  /** One transaction: the request is accepted and its experiment admitted, or neither. */
  function Admit(st: Store, id: nat, s: Session, r: nat): (Store, Session)
    requires r in st.requests
  {
    var q := st.requests[r];
    if !Holds(st, s) then (st, Lose(s))
    else if !q.status.Pending? then (st, To(s, r, Attaching))
    else if q.exp in st.experiments then (st, To(s, r, Refused))
    else
      (Log(st.(requests := st.requests[r := q.(status := Accepted, revision := q.revision + 1)],
               experiments := st.experiments + {q.exp}, latest := st.latest[q.exp := Latest(st, q.exp) + 1]),
           id, s, Admitted(r, q.exp)),
       To(s, r, Issuing))
  }

  /** What the request asks to be recorded is. */
  predicate IsRecorded(st: Store, q: Request) {
    q.kind.Act? && q.kind.intent in st.intents && st.intents[q.kind.intent] == (q.exp, q.kind.content)
  }

  /** Only a proposal is judged, and before the record is asked whether it holds it already. */
  predicate CanJudge(s: Session, q: Request) {
    q.kind.Act? && q.kind.form.Propose? ==> (q.exp, q.kind.content) in s.judges
  }

  /** The intent is recorded under its identity, found as recorded, or refused as another's. A proposal
      this configuration cannot judge is refused first, recorded or not. */
  function Record(st: Store, id: nat, s: Session, r: nat): (Store, Session)
    requires r in st.requests && st.requests[r].kind.Act?
  {
    var q := st.requests[r];
    if !CanJudge(s, q) then (st, To(s, r, Refused))
    else if !Holds(st, s) then (st, Lose(s))
    else if q.kind.intent in st.intents then
      (st, To(s, r, if IsRecorded(st, q) then Attaching else Refused))
    else if q.exp !in st.experiments then (st, To(s, r, Refused))
    else
      (Log(st.(intents := st.intents[q.kind.intent := (q.exp, q.kind.content)], latest := st.latest[q.exp := Latest(st, q.exp) + 1]),
           id, s, Recorded(r, q.exp, q.kind.intent)),
       To(s, r, Attaching))
  }

  /** Compare-and-set on the revision; on a conflict the request is left. */
  function Finish(st: Store, id: nat, s: Session, r: nat, revision: nat, status: Status): (Store, Session)
    requires r in st.requests
  {
    var q := st.requests[r];
    if !Holds(st, s) then (st, Lose(s))
    else if q.revision != revision then (st, End(st, s, r, q.exp, false))
    else
      var st' := Log(st.(requests := st.requests[r := q.(status := status, revision := revision + 1)]), id, s, Finished(r, status));
      (st', End(st', s, r, q.exp, true))
  }

  /** The state in which `_submit`, or `_attach` and `_act`, complete a request. */
  function Completable(kind: Kind): Status {
    if kind.Submit? then Accepted else Pending
  }

  /** Reading the request again, before failing or completing it. */
  function Reread(st: Store, s: Session, r: nat, stage: Stage): Session
    requires r in st.requests && (stage.Refused? || stage.Finishing?)
  {
    var q := st.requests[r];
    if stage.Refused? then
      if q.status.Pending? then To(s, r, Failing(q.revision)) else End(st, s, r, q.exp, false)
    else
      if q.status == Completable(q.kind) then To(s, r, Completing(q.revision)) else End(st, s, r, q.exp, true)
  }

  /** Where a definitive refusal leads. Only the step that may fail the request catches it. */
  function OnRefusal(st: Store, s: Session, r: nat, stage: Stage): Option<Session>
    requires r in st.requests
  {
    var q := st.requests[r];
    match stage
    case Validating | Issuing => Some(To(s, r, Refused))
    case Recording => if IsRecorded(st, q) && CanJudge(s, q) then None else Some(To(s, r, Refused))
    case Attaching => Some(if q.kind.Attach? then To(s, r, Refused) else End(st, s, r, q.exp, false))
    case Carrying => Some(End(st, s, r, q.exp, false))
    case _ => None
  }

  /** One step of `_process` on request *r*. */
  function Work(st: Store, id: nat, s: Session, r: nat, stage: Stage, o: Outcome): Option<(Store, Session)>
    requires r in st.requests
  {
    var q := st.requests[r];
    if o.Break? then Some((st, End(st, s, r, q.exp, false)))
    else if o.Refuse? then
      match OnRefusal(st, s, r, stage)
      case None => None
      case Some(s') => Some((st, s'))
    else
      match stage
      case Validating => Some(Admit(st, id, s, r))
      case Issuing => Some((st, To(s, r, Finishing)))
      case Recording => if q.kind.Act? then Some(Record(st, id, s, r)) else None
      case Attaching =>
        if q.exp in st.experiments then Some((st, To(s, r, if q.kind.Act? then Carrying else Finishing))) else None
      case Carrying => Some((st, To(s, r, Finishing)))
      case Refused | Finishing => Some((st, Reread(st, s, r, stage)))
      case Failing(revision) => Some(Finish(st, id, s, r, revision, Failed))
      case Completing(revision) => Some(Finish(st, id, s, r, revision, Completed))
  }

  /** The first step `_process` takes with a request, by its state as the mailbox listed it. */
  function FirstStage(kind: Kind, listed: Status): Stage {
    match kind
    case Submit => if listed.Pending? then Validating else Attaching
    case Attach => Attaching
    case Act(_, _, _) => Recording
  }

  // ---- the rest of a session ----------------------------------------------------------------------

  datatype Action =
    | Send(req: nat, request: Request)
    | ForeignAdmit(exp: nat)
    | ForeignEvent(exp: nat)
    | Expire
    | Acquire(judges: set<(nat, nat)>)
    | Renew
    | Look(order: seq<nat>)
    | Take
    | Step(outcome: Outcome)
    | SweepStart(exp: nat)
    | SweepEnd(ok: bool)
    | Observe(exp: nat)
    | RestLook(exp: nat, escalated: bool)
    | RestFails(exp: nat)
    | Halt
    | CancelRests
    | Close
    | Release
    | Crash

  function Ids(todo: seq<Ticket>): set<nat> {
    set i | 0 <= i < |todo| :: todo[i].req
  }

  /** `unfinished()`, each once. */
  predicate Lists(st: Store, order: seq<nat>) {
    && (forall i :: 0 <= i < |order| ==> order[i] in st.requests && Unfinished(st.requests[order[i]]))
    && (forall r :: r in st.requests && Unfinished(st.requests[r]) ==> r in order)
    && forall i, j :: 0 <= i < j < |order| ==> order[i] != order[j]
  }

  function Tickets(st: Store, order: seq<nat>): seq<Ticket>
    requires forall i :: 0 <= i < |order| ==> order[i] in st.requests
  {
    seq(|order|, i requires 0 <= i < |order| => Ticket(order[i], st.requests[order[i]].status))
  }

  /** The main loop between requests. */
  function Loop(st: Store, s: Session, a: Action): Option<Session> {
    match a
    case Look(order) =>
      if s.task.Between? && s.todo == [] && Lists(st, order)
      then Some(s.(todo := Tickets(st, order), looked := Ids(Tickets(st, order)), left := {}))
      else None
    case Take =>
      if s.task.Between? && s.todo != [] && s.todo[0].req in st.requests then
        var t := s.todo[0];
        var q := st.requests[t.req];
        Some(s.(todo := s.todo[1..], busy := s.busy + {q.exp}, task := Working(t.req, FirstStage(q.kind, t.status))))
      else None
    case SweepStart(exp) =>
      if s.task.Between? && s.todo == [] && exp in st.experiments then Some(s.(busy := s.busy + {exp}, task := Sweeping(exp))) else None
    case SweepEnd(ok) =>
      if !s.task.Sweeping? then None
      else
        var exp := s.task.exp;
        var s' := s.(task := Between, busy := s.busy - {exp});
        // A sweep that fails starts no wait for the rest; one already waiting goes on.
        Some(if ok then RestWhenSettled(st, s', exp) else s')
    case _ => None
  }

  /** `record_controller_rest`, at the experiment's latest event. */
  function RecordRest(st: Store, id: nat, s: Session, exp: nat, escalated: bool): Store {
    Log(st.(rests := st.rests[exp := Rest(Latest(st, exp), escalated)]), id, s, Rested(exp, Latest(st, exp)))
  }

  /** A rest task's last look: `_wait()` returned, and the rest is recorded unless the experiment is busy. */
  function TakeRest(st: Store, id: nat, s: Session, exp: nat, escalated: bool): (Store, Session) {
    var s' := s.(resting := s.resting - {exp});
    if exp in s.busy then (st, s')
    else if !Holds(st, s) then (st, s'.(lost := true))
    else (RecordRest(st, id, s, exp, escalated), s')
  }

  /** An observer records what it saw of an experiment. */
  function RecordEvent(st: Store, id: nat, s: Session, exp: nat): (Store, Session) {
    if !Holds(st, s) then (st, s.(lost := true))
    else (Log(st.(latest := st.latest[exp := Latest(st, exp) + 1]), id, s, Event(exp)), s)
  }

  /** A rest task whose `_wait()` raised something else: it is gone, and recorded nothing. */
  function DropRest(s: Session, exp: nat): Session {
    s.(resting := s.resting - {exp})
  }

  /** A renewal is refused once the lease has moved on or expired. */
  function RenewLease(st: Store, s: Session): Session {
    if Holds(st, s) then s else s.(lost := true)
  }

  /** What runs beside the main loop, while the controller is open: observers, rest tasks, the heartbeat.
      A lost lease noticed here halts the main loop, at its next wait. */
  function Beside(st: Store, id: nat, s: Session, a: Action): Option<(Store, Session)> {
    match a
    case Observe(exp) => if exp in st.experiments then Some(RecordEvent(st, id, s, exp)) else None
    case RestLook(exp, escalated) => if exp in s.resting then Some(TakeRest(st, id, s, exp, escalated)) else None
    case RestFails(exp) => if exp in s.resting then Some((st, DropRest(s, exp))) else None
    case Renew => Some((st, RenewLease(st, s)))
    case _ => None
  }

  /** Stopping, in the order of `_serve_owned`: rests, controller, and only then the lease. */
  function Shut(st: Store, s: Session, a: Action): Option<(Store, Session)> {
    match a
    case Halt => if s.phase.Serving? then Some((st, s.(phase := Closing, task := Between, busy := {}, todo := []))) else None
    case CancelRests => if s.phase.Closing? then Some((st, s.(resting := {}))) else None
    case Close => if s.phase.Closing? && s.resting == {} then Some((st, s.(phase := Closed))) else None
    case Release =>
      if !s.phase.Closed? then None
      else
        Some((if !s.lost && Holds(st, s) then st.(lease := Released) else st, s.(phase := Stopped)))
    case Crash => Some((st, s.(phase := Stopped, task := Between, busy := {}, todo := [], resting := {})))
    case _ => None
  }

  function SessionStep(st: Store, id: nat, s: Session, a: Action): Option<(Store, Session)> {
    if a.Step? then
      if s.phase.Serving? && s.task.Working? && s.task.req in st.requests then Work(st, id, s, s.task.req, s.task.stage, a.outcome) else None
    else if a.Look? || a.Take? || a.SweepStart? || a.SweepEnd? then
      if s.phase.Serving? then
        match Loop(st, s, a)
        case None => None
        case Some(s') => Some((st, s'))
      else None
    else if a.Observe? || a.RestLook? || a.RestFails? || a.Renew? then
      if s.phase.Serving? || s.phase.Closing? then Beside(st, id, s, a) else None
    else Shut(st, s, a)
  }

  /** What clients, an embedded host and time do. */
  function Outside(st: Store, a: Action): Option<Store> {
    match a
    case Send(r, q) =>
      if r !in st.requests && q.status.Pending? && q.revision == 0 then Some(st.(requests := st.requests[r := q])) else None
    case ForeignAdmit(exp) =>
      if !st.lease.Live? && exp !in st.experiments then Some(st.(experiments := st.experiments + {exp})) else None
    case ForeignEvent(exp) =>
      if !st.lease.Live? && exp in st.experiments then Some(st.(latest := st.latest[exp := Latest(st, exp) + 1])) else None
    case Expire => if st.lease.Live? then Some(st.(lease := Expired)) else None
    case _ => None
  }

  /** A new owner is the next epoch; a live lease is waited out. */
  function Fresh(st: Store, judges: set<(nat, nat)>): Session {
    Session(st.epoch + 1, judges, Serving, false, Between, {}, {}, [], {}, {})
  }

  function Do(sys: System, id: nat, a: Action): Option<System> {
    if a.Send? || a.ForeignAdmit? || a.ForeignEvent? || a.Expire? then
      match Outside(sys.store, a)
      case None => None
      case Some(st) => Some(sys.(store := st))
    else if a.Acquire? then
      if id in sys.sessions || sys.store.lease.Live? then None
      else Some(System(sys.store.(epoch := sys.store.epoch + 1, holder := id, lease := Live), sys.sessions[id := Fresh(sys.store, a.judges)]))
    else if id !in sys.sessions then None
    else
      match SessionStep(sys.store, id, sys.sessions[id], a)
      case None => None
      case Some((st, s)) => Some(System(st, sys.sessions[id := s]))
  }
}
