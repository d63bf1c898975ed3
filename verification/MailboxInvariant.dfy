/** What every step of the daemon's mailbox, lease and rest protocol keeps, whoever takes it. */
module MailboxInvariant {
  import opened Util
  import opened Mailbox

  // ---- the database's invariant -------------------------------------------------------------------

  /** What a logged write says is still so. */
  predicate EntryOk(st: Store, w: Write) {
    match w
    case Admitted(r, e) =>
      && r in st.requests && st.requests[r].kind.Submit? && st.requests[r].exp == e && e in st.experiments
      && (st.requests[r].status.Accepted? || st.requests[r].status.Completed?)
    case Recorded(r, e, i) =>
      && r in st.requests && st.requests[r].kind.Act? && st.requests[r].exp == e && st.requests[r].kind.intent == i
      && IsRecorded(st, st.requests[r]) && (st.requests[r].status.Failed? ==> st.requests[r].kind.form.Propose?)
    case Finished(r, status) => r in st.requests && st.requests[r].status == status && (status.Completed? || status.Failed?)
    case _ => true
  }

  predicate EntriesOk(st: Store) {
    forall i :: 0 <= i < |st.log| ==> EntryOk(st, st.log[i].write)
  }

  predicate AdmittedAt(st: Store, i: nat, r: nat) {
    i < |st.log| && st.log[i].write.Admitted? && st.log[i].write.req == r
  }

  predicate FailedAt(st: Store, i: nat, r: nat) {
    i < |st.log| && st.log[i].write == Finished(r, Failed)
  }

  ghost predicate RequestOk(st: Store, r: nat)
    requires r in st.requests
  {
    var q := st.requests[r];
    && (q.status.Failed? ==> exists i :: FailedAt(st, i, r))
    && match q.kind
       case Submit => q.status.Accepted? || q.status.Completed? ==> q.exp in st.experiments && exists i :: AdmittedAt(st, i, r)
       case Attach => !q.status.Accepted? && (q.status.Completed? ==> q.exp in st.experiments)
       case Act(_, _, _) => !q.status.Accepted? && (q.status.Completed? ==> IsRecorded(st, q))
  }

  ghost predicate RequestsOk(st: Store) {
    forall r :: r in st.requests ==> RequestOk(st, r)
  }

  /** Two writes that may not both happen. */
  predicate Repeats(v: Write, w: Write) {
    || (v.Admitted? && w.Admitted? && (v.req == w.req || v.exp == w.exp))
    || (v.Recorded? && w.Recorded? && (v.req == w.req || v.intent == w.intent))
  }

  predicate OnceOk(st: Store) {
    forall i, j :: 0 <= i < j < |st.log| ==> !Repeats(st.log[i].write, st.log[j].write)
  }

  /** Epochs never go back, and each is one session's. */
  predicate EpochsOk(st: Store) {
    && (forall i :: 0 <= i < |st.log| ==> st.log[i].epoch <= st.epoch && (st.log[i].epoch == st.epoch ==> st.log[i].session == st.holder))
    && forall i, j :: 0 <= i < j < |st.log| ==>
                        st.log[i].epoch <= st.log[j].epoch && (st.log[i].epoch == st.log[j].epoch ==> st.log[i].session == st.log[j].session)
  }

  predicate QuietSince(st: Store, exp: nat, i: nat) {
    forall j :: i < j < |st.log| ==> !Moves(st.log[j].write, exp)
  }

  /** The rest on record was written by entry *i*, and if it is still the latest event, nothing moved since. */
  predicate RestAt(st: Store, exp: nat, i: nat)
    requires exp in st.rests
  {
    && i < |st.log| && st.log[i].write == Rested(exp, st.rests[exp].sequence)
    && st.rests[exp].sequence <= Latest(st, exp)
    && (st.rests[exp].sequence == Latest(st, exp) ==> QuietSince(st, exp, i))
  }

  ghost predicate RestsOk(st: Store) {
    forall exp :: exp in st.rests ==> exists i :: RestAt(st, exp, i)
  }

  predicate IntentsOk(st: Store) {
    forall i :: i in st.intents ==> st.intents[i].0 in st.experiments
  }

  ghost predicate StoreInv(st: Store) {
    IntentsOk(st) && EntriesOk(st) && RequestsOk(st) && OnceOk(st) && EpochsOk(st) && RestsOk(st)
  }

  // ---- a session's invariant ----------------------------------------------------------------------

  predicate Past(st: Store, r: nat)
    requires r in st.requests
  {
    st.requests[r].kind.Submit? ==> !st.requests[r].status.Pending?
  }

  /** Where a session is in a request, whoever holds the lease. */
  predicate StageWeak(st: Store, r: nat, stage: Stage) {
    && r in st.requests
    && match stage
       case Validating => st.requests[r].kind.Submit?
       case Recording | Carrying => st.requests[r].kind.Act?
       case Issuing => st.requests[r].kind.Submit? && Past(st, r)
       case Attaching | Finishing | Completing(_) => Past(st, r)
       case Refused | Failing(_) => true
  }

  /** Ready to be attached: admitted, or its intent recorded. */
  predicate Started(st: Store, q: Request) {
    && q.status == Completable(q.kind)
    && (q.kind.Act? ==> IsRecorded(st, q))
    && (!q.kind.Attach? ==> q.exp in st.experiments)
  }

  /** Ready to be completed: its experiment is there, too. */
  predicate Ready(st: Store, q: Request) {
    Started(st, q) && q.exp in st.experiments
  }

  /** The same for the session that holds the lease: nothing but its own steps changes the request. */
  predicate StageStrong(st: Store, s: Session, r: nat, stage: Stage) {
    && r in st.requests
    && var q := st.requests[r];
       match stage
       case Validating => q.kind.Submit? && q.status.Pending?
       case Issuing => q.kind.Submit? && q.status.Accepted?
       case Recording => q.kind.Act? && q.status.Pending?
       case Attaching => Started(st, q)
       case Carrying | Finishing => Ready(st, q)
       case Completing(revision) => Ready(st, q) && q.revision == revision
       case Refused => Unfinished(q) && (q.status.Pending? && IsRecorded(st, q) ==> !CanJudge(s, q))
       case Failing(revision) => q.status.Pending? && q.revision == revision && (IsRecorded(st, q) ==> !CanJudge(s, q))
  }

  predicate TicketWeak(st: Store, t: Ticket) {
    && t.req in st.requests
    && (t.status.Accepted? ==> st.requests[t.req].kind.Submit? && !st.requests[t.req].status.Pending?)
    && (t.status.Pending? || t.status.Accepted?)
  }

  predicate TodoWeak(st: Store, todo: seq<Ticket>) {
    forall i :: 0 <= i < |todo| ==> TicketWeak(st, todo[i])
  }

  predicate TicketStrong(st: Store, t: Ticket) {
    t.req in st.requests && st.requests[t.req].status == t.status && Unfinished(st.requests[t.req])
  }

  predicate TodoStrong(st: Store, todo: seq<Ticket>) {
    && (forall i :: 0 <= i < |todo| ==> TicketStrong(st, todo[i]))
    && forall i, j :: 0 <= i < j < |todo| ==> todo[i].req != todo[j].req
  }

  predicate BusyOk(st: Store, s: Session) {
    match s.task
    case Between => s.busy == {}
    case Sweeping(exp) => s.busy == {exp} && exp in st.experiments
    case Working(r, stage) => r in st.requests && s.busy == {st.requests[r].exp}
  }

  /** A request a pass looked at is dealt with, left for a later pass, or still to come. */
  predicate Covered(st: Store, s: Session, r: nat) {
    && r in st.requests
    && (!Unfinished(st.requests[r]) || r in s.left || r in Ids(s.todo) || (s.task.Working? && s.task.req == r))
  }

  predicate PassOk(st: Store, s: Session) {
    forall r :: r in s.looked ==> Covered(st, s, r)
  }

  predicate Weak(st: Store, id: nat, s: Session) {
    && s.epoch <= st.epoch && (s.epoch == st.epoch ==> st.holder == id)
    && BusyOk(st, s) && TodoWeak(st, s.todo)
    && (s.task.Working? ==> StageWeak(st, s.task.req, s.task.stage))
    && (s.phase.Serving? ==> PassOk(st, s))
    && (!s.phase.Serving? ==> s.task.Between? && s.todo == [])
    && (s.phase.Closed? || s.phase.Stopped? ==> s.resting == {})
  }

  predicate Strong(st: Store, s: Session) {
    && TodoStrong(st, s.todo)
    && (s.task.Working? ==> StageStrong(st, s, s.task.req, s.task.stage) && s.task.req !in Ids(s.todo))
  }

  predicate SessionOk(st: Store, id: nat, s: Session) {
    Weak(st, id, s) && (Holds(st, s) ==> Strong(st, s))
  }

  predicate LeaseOk(sys: System) {
    sys.store.lease.Released? && sys.store.epoch > 0 ==>
      sys.store.holder in sys.sessions && sys.sessions[sys.store.holder].phase.Stopped? && !sys.sessions[sys.store.holder].lost
  }

  ghost predicate Inv(sys: System) {
    && StoreInv(sys.store) && LeaseOk(sys)
    && forall id :: id in sys.sessions ==> SessionOk(sys.store, id, sys.sessions[id])
  }

  // ---- how the database may change --------------------------------------------------------------------

  /** A status and what may follow it. */
  predicate Follows(a: Status, b: Status) {
    a == b || a.Pending? || (a.Accepted? && b.Completed?)
  }

  predicate RequestGrows(q: Request, q': Request) {
    && q'.exp == q.exp && q'.kind == q.kind && Follows(q.status, q'.status)
    && (!Unfinished(q) ==> q' == q)
  }

  predicate Grows(st: Store, st': Store) {
    && (forall r :: r in st.requests ==> r in st'.requests && RequestGrows(st.requests[r], st'.requests[r]))
    && st.experiments <= st'.experiments
    && (forall i :: i in st.intents ==> i in st'.intents && st'.intents[i] == st.intents[i])
    && st.epoch <= st'.epoch && st.log <= st'.log
  }

  lemma GrowsThrough(a: Store, b: Store, c: Store)
    requires Grows(a, b) && Grows(b, c)
    ensures Grows(a, c)
  {
    forall r | r in a.requests ensures r in c.requests && RequestGrows(a.requests[r], c.requests[r]) {
      assert RequestGrows(a.requests[r], b.requests[r]) && RequestGrows(b.requests[r], c.requests[r]);
    }
  }

  /** What a session knows of a database it does not write to. */
  lemma WeakKept(st: Store, st': Store, id: nat, s: Session)
    requires Weak(st, id, s) && Grows(st, st') && (s.epoch == st'.epoch ==> st'.holder == id)
    ensures Weak(st', id, s)
  {
    forall i | 0 <= i < |s.todo| ensures TicketWeak(st', s.todo[i]) {
      assert TicketWeak(st, s.todo[i]);
      assert RequestGrows(st.requests[s.todo[i].req], st'.requests[s.todo[i].req]);
    }
    if s.task.Working? {
      assert RequestGrows(st.requests[s.task.req], st'.requests[s.task.req]);
    }
    if s.phase.Serving? {
      forall r | r in s.looked ensures Covered(st', s, r) {
        assert Covered(st, s, r);
        assert RequestGrows(st.requests[r], st'.requests[r]);
      }
    }
  }

  lemma StrongKept(st: Store, st': Store, s: Session)
    requires Strong(st, s) && st'.intents == st.intents && st.experiments <= st'.experiments
    requires forall r :: r in st.requests ==> r in st'.requests && st'.requests[r] == st.requests[r]
    ensures Strong(st', s)
  {
    forall i | 0 <= i < |s.todo| ensures TicketStrong(st', s.todo[i]) {
      assert TicketStrong(st, s.todo[i]);
    }
  }

  // ---- the log ----------------------------------------------------------------------------------------

  lemma EpochsLogged(st: Store, st': Store, id: nat, s: Session, w: Write)
    requires EpochsOk(st) && Holds(st, s) && st.holder == id
    requires st'.log == st.log + [Entry(id, s.epoch, w)] && st'.epoch == st.epoch && st'.holder == st.holder
    ensures EpochsOk(st')
  {
    var n := |st.log|;
    forall i, j | 0 <= i < j < |st'.log|
      ensures st'.log[i].epoch <= st'.log[j].epoch && (st'.log[i].epoch == st'.log[j].epoch ==> st'.log[i].session == st'.log[j].session)
    {
      assert st'.log[i] == st.log[i];
      if j < n { assert st'.log[j] == st.log[j]; }
    }
  }

  lemma OnceLogged(st: Store, st': Store, e: Entry)
    requires OnceOk(st) && st'.log == st.log + [e]
    requires forall i :: 0 <= i < |st.log| ==> !Repeats(st.log[i].write, e.write)
    ensures OnceOk(st')
  {
  }

  lemma EntriesLogged(st: Store, st': Store, e: Entry)
    requires EntriesOk(st) && st'.log == st.log + [e] && EntryOk(st', e.write)
    requires forall i :: 0 <= i < |st.log| ==> EntryOk(st', st.log[i].write)
    ensures EntriesOk(st')
  {
  }

  /** A write makes the rests of what it moves out of date, and leaves the others. */
  lemma RestsLogged(st: Store, st': Store, e: Entry)
    requires RestsOk(st) && st'.log == st.log + [e] && !e.write.Rested? && st'.rests == st.rests
    requires forall exp :: Latest(st', exp) == if Moves(e.write, exp) then Latest(st, exp) + 1 else Latest(st, exp)
    ensures RestsOk(st')
  {
    forall exp | exp in st'.rests ensures exists i :: RestAt(st', exp, i) {
      var i: nat :| RestAt(st, exp, i);
      assert st'.log[i] == st.log[i];
      assert RestAt(st', exp, i);
    }
  }

  lemma RequestStays(st: Store, st': Store, r: nat)
    requires r in st.requests && RequestOk(st, r) && r in st'.requests && st'.requests[r] == st.requests[r]
    requires st.experiments <= st'.experiments && st.log <= st'.log
    requires forall i :: i in st.intents ==> i in st'.intents && st'.intents[i] == st.intents[i]
    ensures RequestOk(st', r)
  {
    if exists i: nat :: AdmittedAt(st, i, r) {
      var i: nat :| AdmittedAt(st, i, r);
      assert AdmittedAt(st', i, r);
    }
    if exists i: nat :: FailedAt(st, i, r) {
      var i: nat :| FailedAt(st, i, r);
      assert FailedAt(st', i, r);
    }
  }

  lemma RequestsLogged(st: Store, st': Store, r: nat)
    requires RequestsOk(st) && st.log <= st'.log && st.experiments <= st'.experiments
    requires st'.requests.Keys == st.requests.Keys && forall q :: q in st.requests && q != r ==> st'.requests[q] == st.requests[q]
    requires forall i :: i in st.intents ==> i in st'.intents && st'.intents[i] == st.intents[i]
    requires r in st'.requests ==> RequestOk(st', r)
    ensures RequestsOk(st')
  {
    forall q | q in st'.requests ensures RequestOk(st', q) {
      if q != r { RequestStays(st, st', q); }
    }
  }

  /** A write to request *r* that moves no rest but by its own event. */
  lemma StoreLogged(st: Store, st': Store, id: nat, s: Session, e: Entry, r: nat)
    requires StoreInv(st) && Holds(st, s) && st.holder == id && e == Entry(id, s.epoch, e.write)
    requires st'.log == st.log + [e] && st'.epoch == st.epoch && st'.holder == st.holder
    requires EntryOk(st', e.write) && forall i :: 0 <= i < |st.log| ==> !Repeats(st.log[i].write, e.write) && EntryOk(st', st.log[i].write)
    requires !e.write.Rested? && st'.rests == st.rests
    requires forall exp :: Latest(st', exp) == if Moves(e.write, exp) then Latest(st, exp) + 1 else Latest(st, exp)
    requires st'.requests.Keys == st.requests.Keys && forall q :: q in st.requests && q != r ==> st'.requests[q] == st.requests[q]
    requires st.experiments <= st'.experiments && forall i :: i in st.intents ==> i in st'.intents && st'.intents[i] == st.intents[i]
    requires IntentsOk(st') && (r in st'.requests ==> RequestOk(st', r))
    ensures StoreInv(st')
  {
    EpochsLogged(st, st', id, s, e.write);
    OnceLogged(st, st', e);
    EntriesLogged(st, st', e);
    RestsLogged(st, st', e);
    RequestsLogged(st, st', r);
  }

  /** Nothing was logged; requests and experiments may be new, and the lease another's. */
  lemma StoreGrown(st: Store, st': Store)
    requires StoreInv(st) && st'.log == st.log && st'.rests == st.rests && st'.intents == st.intents
    requires (st'.epoch == st.epoch && st'.holder == st.holder) || st'.epoch > st.epoch
    requires st.experiments <= st'.experiments && forall exp :: Latest(st, exp) <= Latest(st', exp)
    requires forall r :: r in st.requests ==> r in st'.requests && st'.requests[r] == st.requests[r]
    requires forall r :: r in st'.requests && r !in st.requests ==> RequestOk(st', r)
    ensures StoreInv(st') && Grows(st, st')
  {
    forall i | 0 <= i < |st.log| ensures EntryOk(st', st'.log[i].write) { assert EntryOk(st, st.log[i].write); }
    forall r | r in st'.requests ensures RequestOk(st', r) {
      if r in st.requests { RequestStays(st, st', r); }
    }
    RestsGrown(st, st');
  }

  lemma RestsGrown(st: Store, st': Store)
    requires RestsOk(st) && st'.log == st.log && st'.rests == st.rests && forall exp :: Latest(st, exp) <= Latest(st', exp)
    ensures RestsOk(st')
  {
    forall x | x in st'.rests ensures exists i: nat :: RestAt(st', x, i) {
      var i: nat :| RestAt(st, x, i);
      assert RestAt(st', x, i);
    }
  }

  // ---- every step of a request keeps the invariant ---------------------------------------------------------

  /** What a step of session *id* is shown to do. */
  ghost predicate StepOk(st: Store, id: nat, s: Session, st': Store, s': Session) {
    && StoreInv(st') && Grows(st, st') && SessionOk(st', id, s')
    && (st' == st || Holds(st, s)) && st'.epoch == st.epoch && st'.holder == st.holder
    && s'.epoch == s.epoch && s'.judges == s.judges
  }

  lemma LoseOk(st: Store, id: nat, s: Session)
    requires StoreInv(st) && SessionOk(st, id, s) && !Holds(st, s)
    ensures StepOk(st, id, s, st, Lose(s))
  {
  }

  lemma ToOk(st: Store, id: nat, s: Session, r: nat, stage: Stage, next: Stage)
    requires StoreInv(st) && SessionOk(st, id, s) && s.task == Working(r, stage) && s.phase.Serving?
    requires StageWeak(st, r, next) && (Holds(st, s) ==> StageStrong(st, s, r, next))
    ensures StepOk(st, id, s, st, To(s, r, next))
  {
    var s' := To(s, r, next);
    forall q | q in s'.looked ensures Covered(st, s', q) { assert Covered(st, s, q); }
  }

  lemma EndOk(st: Store, id: nat, s: Session, r: nat, stage: Stage, dealt: bool)
    requires Weak(st, id, s) && s.task == Working(r, stage) && s.phase.Serving? && r in st.requests
    requires Holds(st, s) ==> TodoStrong(st, s.todo)
    requires dealt ==> !Unfinished(st.requests[r])
    ensures SessionOk(st, id, End(st, s, r, st.requests[r].exp, dealt))
  {
    var s' := End(st, s, r, st.requests[r].exp, dealt);
    forall q | q in s'.looked ensures Covered(st, s', q) { assert Covered(st, s, q); }
  }

  /** The admission's transaction. */
  lemma AdmitOk(st: Store, id: nat, s: Session, r: nat)
    requires StoreInv(st) && SessionOk(st, id, s) && s.task == Working(r, Validating) && s.phase.Serving? && r in st.requests
    ensures var (st', s') := Admit(st, id, s, r); StepOk(st, id, s, st', s')
  {
    var q := st.requests[r];
    if !Holds(st, s) {
      LoseOk(st, id, s);
    } else if q.exp in st.experiments {
      ToOk(st, id, s, r, Validating, Refused);
    } else {
      AdmittedOk(st, id, s, r);
    }
  }

  lemma AdmittedOk(st: Store, id: nat, s: Session, r: nat)
    requires StoreInv(st) && SessionOk(st, id, s) && s.task == Working(r, Validating) && s.phase.Serving? && r in st.requests
    requires Holds(st, s) && st.requests[r].exp !in st.experiments
    ensures var (st', s') := Admit(st, id, s, r); StepOk(st, id, s, st', s')
  {
    var (st', s') := Admit(st, id, s, r);
    AdmittedStoreOk(st, id, s, r);
    NextStageOk(st, st', id, s, r, Validating, Issuing);
  }

  lemma AdmittedStoreOk(st: Store, id: nat, s: Session, r: nat)
    requires StoreInv(st) && r in st.requests && StageStrong(st, s, r, Validating)
    requires Holds(st, s) && st.holder == id && st.requests[r].exp !in st.experiments
    ensures var st' := Admit(st, id, s, r).0; StoreInv(st') && Grows(st, st') && StageStrong(st', s, r, Issuing)
  {
    var st' := Admit(st, id, s, r).0;
    var e := Entry(id, s.epoch, Admitted(r, st.requests[r].exp));
    assert st'.log == st.log + [e];
    forall i | 0 <= i < |st.log| ensures !Repeats(st.log[i].write, e.write) && EntryOk(st', st.log[i].write) {
      assert EntryOk(st, st.log[i].write);
    }
    assert AdmittedAt(st', |st.log|, r);
    StoreLogged(st, st', id, s, e, r);
  }

  /** The session goes on with the request it wrote to. */
  lemma NextStageOk(st: Store, st': Store, id: nat, s: Session, r: nat, stage: Stage, next: Stage)
    requires SessionOk(st, id, s) && Holds(st, s) && s.task == Working(r, stage) && s.phase.Serving?
    requires Grows(st, st') && st'.epoch == st.epoch && st'.holder == st.holder
    requires forall q :: q in st.requests && q != r ==> st'.requests[q] == st.requests[q]
    requires StageWeak(st', r, next) && StageStrong(st', s, r, next)
    ensures SessionOk(st', id, To(s, r, next))
  {
    var s' := To(s, r, next);
    WeakKept(st, st', id, s);
    forall q | q in s'.looked ensures Covered(st', s', q) { assert Covered(st', s, q); }
    TodoKept(st, st', s, r);
  }

  /** What is still to come is untouched by a write to the current request. */
  lemma TodoKept(st: Store, st': Store, s: Session, r: nat)
    requires TodoStrong(st, s.todo) && r !in Ids(s.todo)
    requires forall q :: q in st.requests && q != r ==> q in st'.requests && st'.requests[q] == st.requests[q]
    ensures TodoStrong(st', s.todo)
  {
    forall i | 0 <= i < |s.todo| ensures TicketStrong(st', s.todo[i]) {
      assert TicketStrong(st, s.todo[i]) && s.todo[i].req in Ids(s.todo);
    }
  }

  /** Recording an intent: at most once under its identity, whoever repeats it. */
  lemma RecordOk(st: Store, id: nat, s: Session, r: nat)
    requires StoreInv(st) && SessionOk(st, id, s) && s.task == Working(r, Recording) && s.phase.Serving?
    requires r in st.requests && st.requests[r].kind.Act?
    ensures var (st', s') := Record(st, id, s, r); StepOk(st, id, s, st', s')
  {
    var q := st.requests[r];
    if !CanJudge(s, q) {
      ToOk(st, id, s, r, Recording, Refused);
    } else if !Holds(st, s) {
      LoseOk(st, id, s);
    } else if q.kind.intent in st.intents {
      ToOk(st, id, s, r, Recording, if IsRecorded(st, q) then Attaching else Refused);
    } else if q.exp !in st.experiments {
      ToOk(st, id, s, r, Recording, Refused);
    } else {
      RecordedOk(st, id, s, r);
    }
  }

  lemma RecordedOk(st: Store, id: nat, s: Session, r: nat)
    requires StoreInv(st) && SessionOk(st, id, s) && s.task == Working(r, Recording) && s.phase.Serving?
    requires r in st.requests && st.requests[r].kind.Act? && Holds(st, s) && st.requests[r].kind.intent !in st.intents
    requires st.requests[r].exp in st.experiments && CanJudge(s, st.requests[r])
    ensures var (st', s') := Record(st, id, s, r); StepOk(st, id, s, st', s')
  {
    var (st', s') := Record(st, id, s, r);
    RecordedStoreOk(st, id, s, r);
    NextStageOk(st, st', id, s, r, Recording, Attaching);
  }

  lemma RecordedStoreOk(st: Store, id: nat, s: Session, r: nat)
    requires StoreInv(st) && r in st.requests && StageStrong(st, s, r, Recording)
    requires Holds(st, s) && st.holder == id && st.requests[r].kind.intent !in st.intents
    requires st.requests[r].exp in st.experiments && CanJudge(s, st.requests[r])
    ensures var st' := Record(st, id, s, r).0; StoreInv(st') && Grows(st, st') && StageStrong(st', s, r, Attaching)
  {
    var q, st' := st.requests[r], Record(st, id, s, r).0;
    var e := Entry(id, s.epoch, Recorded(r, q.exp, q.kind.intent));
    assert st'.log == st.log + [e];
    forall i | 0 <= i < |st.log| ensures !Repeats(st.log[i].write, e.write) && EntryOk(st', st.log[i].write) {
      assert EntryOk(st, st.log[i].write);
    }
    assert RequestOk(st, r);
    StoreLogged(st, st', id, s, e, r);
  }

  /** Failing or completing: only what is ready to be, and nothing that was recorded is failed. */
  lemma FinishOk(st: Store, id: nat, s: Session, r: nat, revision: nat, status: Status)
    requires StoreInv(st) && SessionOk(st, id, s) && s.phase.Serving? && r in st.requests
    requires (s.task == Working(r, Failing(revision)) && status.Failed?) || (s.task == Working(r, Completing(revision)) && status.Completed?)
    ensures var (st', s') := Finish(st, id, s, r, revision, status); StepOk(st, id, s, st', s')
  {
    var q := st.requests[r];
    if !Holds(st, s) {
      LoseOk(st, id, s);
    } else if q.revision != revision {
      assert false;
    } else {
      FinishedOk(st, id, s, r, revision, status);
    }
  }

  lemma FinishedOk(st: Store, id: nat, s: Session, r: nat, revision: nat, status: Status)
    requires StoreInv(st) && SessionOk(st, id, s) && s.phase.Serving? && r in st.requests
    requires (s.task == Working(r, Failing(revision)) && status.Failed?) || (s.task == Working(r, Completing(revision)) && status.Completed?)
    requires Holds(st, s) && st.requests[r].revision == revision
    ensures var (st', s') := Finish(st, id, s, r, revision, status); StepOk(st, id, s, st', s')
  {
    var (st', s') := Finish(st, id, s, r, revision, status);
    FinishedStoreOk(st, id, s, r, revision, status);
    WeakKept(st, st', id, s);
    TodoKept(st, st', s, r);
    EndOk(st', id, s, r, s.task.stage, true);
  }

  /** Failing: what is on record for the request, if anything, is a proposal. */
  lemma FailedEntriesOk(st: Store, st': Store, r: nat)
    requires EntriesOk(st) && r in st.requests && st.requests[r].status.Pending?
    requires IsRecorded(st, st.requests[r]) ==> st.requests[r].kind.form.Propose?
    requires r in st'.requests && st'.requests == st.requests[r := st'.requests[r]] && st'.requests[r].status.Failed?
    requires st'.requests[r].exp == st.requests[r].exp && st'.requests[r].kind == st.requests[r].kind
    requires st'.experiments == st.experiments && st'.intents == st.intents
    ensures forall i :: 0 <= i < |st.log| ==> EntryOk(st', st.log[i].write)
  {
    forall i | 0 <= i < |st.log| ensures EntryOk(st', st.log[i].write) { assert EntryOk(st, st.log[i].write); }
  }

  /** Completing: what is on record for the request stays so. */
  lemma CompletedEntriesOk(st: Store, st': Store, r: nat)
    requires EntriesOk(st) && r in st.requests && Ready(st, st.requests[r])
    requires r in st'.requests && st'.requests == st.requests[r := st'.requests[r]] && st'.requests[r].status.Completed?
    requires st'.requests[r].exp == st.requests[r].exp && st'.requests[r].kind == st.requests[r].kind
    requires st'.experiments == st.experiments && st'.intents == st.intents
    ensures forall i :: 0 <= i < |st.log| ==> EntryOk(st', st.log[i].write)
  {
    forall i | 0 <= i < |st.log| ensures EntryOk(st', st.log[i].write) { assert EntryOk(st, st.log[i].write); }
  }

  lemma FinishedStoreOk(st: Store, id: nat, s: Session, r: nat, revision: nat, status: Status)
    requires StoreInv(st) && r in st.requests && Holds(st, s) && st.holder == id && st.requests[r].revision == revision
    requires (StageStrong(st, s, r, Failing(revision)) && status.Failed?) || (StageStrong(st, s, r, Completing(revision)) && status.Completed?)
    ensures var st' := Finish(st, id, s, r, revision, status).0; StoreInv(st') && Grows(st, st')
  {
    var st' := Finish(st, id, s, r, revision, status).0;
    var e := Entry(id, s.epoch, Finished(r, status));
    assert st'.log == st.log + [e];
    if status.Failed? { FailedEntriesOk(st, st', r); } else { CompletedEntriesOk(st, st', r); }
    FinishedRequestOk(st, st', r, status, e);
    StoreLogged(st, st', id, s, e, r);
  }

  lemma FinishedRequestOk(st: Store, st': Store, r: nat, status: Status, e: Entry)
    requires r in st.requests && RequestOk(st, r) && st'.log == st.log + [e] && e.write == Finished(r, status) && st'.experiments == st.experiments && st'.intents == st.intents
    requires r in st'.requests && st'.requests[r].exp == st.requests[r].exp && st'.requests[r].kind == st.requests[r].kind
    requires st'.requests[r].status == status && (status.Failed? || (status.Completed? && Ready(st, st.requests[r])))
    ensures RequestOk(st', r)
  {
    if status.Failed? {
      assert FailedAt(st', |st.log|, r);
    } else if st.requests[r].kind.Submit? {
      var i: nat :| AdmittedAt(st, i, r);
      assert AdmittedAt(st', i, r);
    }
  }

  lemma RereadOk(st: Store, id: nat, s: Session, r: nat, stage: Stage)
    requires StoreInv(st) && SessionOk(st, id, s) && s.task == Working(r, stage) && s.phase.Serving?
    requires r in st.requests && (stage.Refused? || stage.Finishing?)
    ensures StepOk(st, id, s, st, Reread(st, s, r, stage))
  {
    var q := st.requests[r];
    assert RequestOk(st, r);
    if stage.Refused? {
      if q.status.Pending? { ToOk(st, id, s, r, stage, Failing(q.revision)); } else { EndOk(st, id, s, r, stage, false); }
    } else {
      if q.status == Completable(q.kind) { ToOk(st, id, s, r, stage, Completing(q.revision)); } else { EndOk(st, id, s, r, stage, true); }
    }
  }

  lemma RefusalOk(st: Store, id: nat, s: Session, r: nat, stage: Stage)
    requires StoreInv(st) && SessionOk(st, id, s) && s.task == Working(r, stage) && s.phase.Serving?
    requires r in st.requests && OnRefusal(st, s, r, stage).Some?
    ensures StepOk(st, id, s, st, OnRefusal(st, s, r, stage).value)
  {
    var q := st.requests[r];
    if stage.Validating? || stage.Issuing? || stage.Recording? || (stage.Attaching? && q.kind.Attach?) {
      ToOk(st, id, s, r, stage, Refused);
    } else {
      EndOk(st, id, s, r, stage, false);
    }
  }

  /** Every step of `_process` keeps the invariant, wherever it may be interrupted. */
  lemma WorkOk(st: Store, id: nat, s: Session, r: nat, stage: Stage, o: Outcome)
    requires StoreInv(st) && SessionOk(st, id, s) && s.task == Working(r, stage) && s.phase.Serving? && r in st.requests
    requires Work(st, id, s, r, stage, o).Some?
    ensures var (st', s') := Work(st, id, s, r, stage, o).value; StepOk(st, id, s, st', s')
  {
    if o.Break? {
      EndOk(st, id, s, r, stage, false);
    } else if o.Refuse? {
      RefusalOk(st, id, s, r, stage);
    } else {
      match stage
      case Validating => AdmitOk(st, id, s, r);
      case Recording => RecordOk(st, id, s, r);
      case Refused => RereadOk(st, id, s, r, stage);
      case Finishing => RereadOk(st, id, s, r, stage);
      case Failing(revision) => FinishOk(st, id, s, r, revision, Failed);
      case Completing(revision) => FinishOk(st, id, s, r, revision, Completed);
      case Attaching => ToOk(st, id, s, r, stage, if st.requests[r].kind.Act? then Carrying else Finishing);
      case Issuing => ToOk(st, id, s, r, stage, Finishing);
      case Carrying => ToOk(st, id, s, r, stage, Finishing);
    }
  }

  // ---- every other step ----------------------------------------------------------------------------------

  lemma LookOk(st: Store, id: nat, s: Session, order: seq<nat>)
    requires StoreInv(st) && SessionOk(st, id, s) && s.phase.Serving? && Loop(st, s, Look(order)).Some?
    ensures StepOk(st, id, s, st, Loop(st, s, Look(order)).value)
  {
    var todo := Tickets(st, order);
    forall i | 0 <= i < |todo| ensures TicketStrong(st, todo[i]) && TicketWeak(st, todo[i]) {
      assert RequestOk(st, order[i]);
    }
  }

  lemma TakeOk(st: Store, id: nat, s: Session)
    requires StoreInv(st) && SessionOk(st, id, s) && s.phase.Serving? && Loop(st, s, Take).Some?
    ensures StepOk(st, id, s, st, Loop(st, s, Take).value)
  {
    var s', t := Loop(st, s, Take).value, s.todo[0];
    assert TicketWeak(st, t) && RequestOk(st, t.req);
    assert forall i :: 0 <= i < |s'.todo| ==> s'.todo[i] == s.todo[i + 1];
    forall q | q in s'.looked ensures Covered(st, s', q) {
      assert Covered(st, s, q);
      if q in Ids(s.todo) && q != t.req {
        var i :| 0 <= i < |s.todo| && s.todo[i].req == q;
        assert s'.todo[i - 1].req == q;
      }
    }
    if Holds(st, s) { TakenStrong(st, s, s'); }
  }

  lemma TakenStrong(st: Store, s: Session, s': Session)
    requires StoreInv(st) && Strong(st, s) && Loop(st, s, Take) == Some(s')
    ensures Strong(st, s')
  {
    var t := s.todo[0];
    assert TicketStrong(st, t) && RequestOk(st, t.req);
    forall i | 0 <= i < |s'.todo| ensures TicketStrong(st, s'.todo[i]) && s'.todo[i].req != t.req {
      assert s'.todo[i] == s.todo[i + 1] && TicketStrong(st, s.todo[i + 1]);
    }
  }

  lemma SweepOk(st: Store, id: nat, s: Session, a: Action)
    requires StoreInv(st) && SessionOk(st, id, s) && s.phase.Serving? && Loop(st, s, a).Some? && (a.SweepStart? || a.SweepEnd?)
    ensures StepOk(st, id, s, st, Loop(st, s, a).value)
  {
    var s' := Loop(st, s, a).value;
    forall q | q in s'.looked ensures Covered(st, s', q) { assert Covered(st, s, q); }
  }

  lemma LoopOk(st: Store, id: nat, s: Session, a: Action)
    requires StoreInv(st) && SessionOk(st, id, s) && s.phase.Serving? && Loop(st, s, a).Some?
    ensures StepOk(st, id, s, st, Loop(st, s, a).value)
  {
    if a.Look? {
      LookOk(st, id, s, a.order);
    } else if a.Take? {
      TakeOk(st, id, s);
    } else {
      SweepOk(st, id, s, a);
    }
  }

  lemma ObservedOk(st: Store, id: nat, s: Session, exp: nat)
    requires StoreInv(st) && SessionOk(st, id, s) && (s.phase.Serving? || s.phase.Closing?) && exp in st.experiments
    ensures var (st', s') := RecordEvent(st, id, s, exp); StepOk(st, id, s, st', s')
  {
    if Holds(st, s) {
      var st' := RecordEvent(st, id, s, exp).0;
      var e := Entry(id, s.epoch, Event(exp));
      LoggedOnly(st, st', id, s, e);
      RestsLogged(st, st', e);
    } else {
      RestsChangedOk(st, id, s, s.resting, true);
    }
  }

  /** A write that concerns no request. */
  lemma LoggedOnly(st: Store, st': Store, id: nat, s: Session, e: Entry)
    requires StoreInv(st) && SessionOk(st, id, s) && Holds(st, s)
    requires e.session == id && e.epoch == s.epoch && (e.write.Event? || e.write.Rested?) && st'.log == st.log + [e]
    requires st'.requests == st.requests && st'.experiments == st.experiments && st'.intents == st.intents
    requires st'.epoch == st.epoch && st'.holder == st.holder && st'.lease == st.lease
    ensures IntentsOk(st') && EntriesOk(st') && RequestsOk(st') && OnceOk(st') && EpochsOk(st') && Grows(st, st') && SessionOk(st', id, s)
  {
    EpochsLogged(st, st', id, s, e.write);
    forall i | 0 <= i < |st.log| ensures EntryOk(st', st.log[i].write) { assert EntryOk(st, st.log[i].write); }
    OnceLogged(st, st', e);
    EntriesLogged(st, st', e);
    forall r | r in st.requests ensures RequestOk(st', r) { RequestStays(st, st', r); }
    WeakKept(st, st', id, s);
    StrongKept(st, st', s);
  }

  /** Only the rest tasks, or whether the lease is known to be lost, changed. */
  lemma RestsChangedOk(st: Store, id: nat, s: Session, resting: set<nat>, lost: bool)
    requires SessionOk(st, id, s) && (s.phase.Serving? || s.phase.Closing?)
    ensures SessionOk(st, id, s.(resting := resting, lost := lost))
  {
    var s' := s.(resting := resting, lost := lost);
    forall q | q in s.looked && s.phase.Serving? ensures Covered(st, s', q) { assert Covered(st, s, q); }
  }

  lemma RecordedRestOk(st: Store, id: nat, s: Session, exp: nat, escalated: bool)
    requires StoreInv(st) && SessionOk(st, id, s) && Holds(st, s)
    ensures var st' := RecordRest(st, id, s, exp, escalated); StepOk(st, id, s, st', s)
  {
    var st' := RecordRest(st, id, s, exp, escalated);
    LoggedOnly(st, st', id, s, Entry(id, s.epoch, Rested(exp, Latest(st, exp))));
    forall x | x in st'.rests ensures exists i: nat :: RestAt(st', x, i) {
      if x == exp {
        assert RestAt(st', exp, |st.log|);
      } else {
        var i: nat :| RestAt(st, x, i);
        assert RestAt(st', x, i);
      }
    }
  }

  lemma RestedOk(st: Store, id: nat, s: Session, exp: nat, escalated: bool)
    requires StoreInv(st) && SessionOk(st, id, s) && (s.phase.Serving? || s.phase.Closing?)
    ensures var (st', s') := TakeRest(st, id, s, exp, escalated); StepOk(st, id, s, st', s')
  {
    if exp in s.busy {
      RestsChangedOk(st, id, s, s.resting - {exp}, s.lost);
    } else {
      if Holds(st, s) { RecordedRestOk(st, id, s, exp, escalated); }
      var st' := TakeRest(st, id, s, exp, escalated).0;
      RestsChangedOk(st', id, s, s.resting - {exp}, if Holds(st, s) then s.lost else true);
    }
  }

  lemma DroppedOk(st: Store, id: nat, s: Session, exp: nat)
    requires StoreInv(st) && SessionOk(st, id, s) && (s.phase.Serving? || s.phase.Closing?)
    ensures StepOk(st, id, s, st, DropRest(s, exp))
  {
    RestsChangedOk(st, id, s, s.resting - {exp}, s.lost);
  }

  lemma RenewedOk(st: Store, id: nat, s: Session)
    requires StoreInv(st) && SessionOk(st, id, s) && (s.phase.Serving? || s.phase.Closing?)
    ensures StepOk(st, id, s, st, RenewLease(st, s))
  {
    RestsChangedOk(st, id, s, s.resting, true);
  }

  lemma BesideOk(st: Store, id: nat, s: Session, a: Action)
    requires StoreInv(st) && SessionOk(st, id, s) && (s.phase.Serving? || s.phase.Closing?) && Beside(st, id, s, a).Some?
    ensures var (st', s') := Beside(st, id, s, a).value; StepOk(st, id, s, st', s')
  {
    match a
    case RestLook(exp, escalated) => RestedOk(st, id, s, exp, escalated);
    case Observe(exp) => ObservedOk(st, id, s, exp);
    case RestFails(exp) => DroppedOk(st, id, s, exp);
    case Renew => RenewedOk(st, id, s);
    case _ =>
  }

  /** The lease says nothing about the record. */
  lemma LeaseChanged(st: Store, lease: Lease)
    requires StoreInv(st)
    ensures StoreInv(st.(lease := lease))
  {
    StoreGrown(st, st.(lease := lease));
  }

  lemma ShutOk(st: Store, id: nat, s: Session, a: Action)
    requires StoreInv(st) && SessionOk(st, id, s) && Shut(st, s, a).Some?
    ensures var (st', s') := Shut(st, s, a).value; StepOk(st, id, s, st', s')
    ensures var (st', s') := Shut(st, s, a).value;
            st' == st || (st' == st.(lease := Released) && s'.phase.Stopped? && !s'.lost)
  {
    var (st', s') := Shut(st, s, a).value;
    if st' != st {
      LeaseChanged(st, Released);
      WeakKept(st, st', id, s);
    }
    ShutSessionOk(st', id, s, s');
  }

  /** A session that stops is at nothing. */
  lemma ShutSessionOk(st: Store, id: nat, s: Session, s': Session)
    requires Weak(st, id, s) && s'.epoch == s.epoch && !s'.phase.Serving?
    requires s'.task.Between? && s'.todo == [] && s'.busy == {} && (s'.phase.Closed? || s'.phase.Stopped? ==> s'.resting == {})
    ensures SessionOk(st, id, s')
  {
  }

  lemma SessionStepOk(st: Store, id: nat, s: Session, a: Action)
    requires StoreInv(st) && SessionOk(st, id, s) && SessionStep(st, id, s, a).Some?
    ensures var (st', s') := SessionStep(st, id, s, a).value;
            StepOk(st, id, s, st', s') && (st'.lease == st.lease || (a.Release? && s'.phase.Stopped? && !s'.lost && st'.lease.Released?))
  {
    if a.Step? { WorkOk(st, id, s, s.task.req, s.task.stage, a.outcome); }
    else if a.Look? || a.Take? || a.SweepStart? || a.SweepEnd? { LoopOk(st, id, s, a); }
    else if a.Observe? || a.RestLook? || a.RestFails? || a.Renew? { BesideOk(st, id, s, a); }
    else { ShutOk(st, id, s, a); }
  }

  lemma OutsideStoreOk(st: Store, a: Action)
    requires StoreInv(st) && Outside(st, a).Some?
    ensures StoreInv(Outside(st, a).value) && Grows(st, Outside(st, a).value)
  {
    StoreGrown(st, Outside(st, a).value);
  }

  lemma OutsideKeepsInv(sys: System, a: Action)
    requires Inv(sys) && Outside(sys.store, a).Some?
    ensures Inv(sys.(store := Outside(sys.store, a).value))
  {
    var st, st' := sys.store, Outside(sys.store, a).value;
    OutsideStoreOk(st, a);
    forall id | id in sys.sessions ensures SessionOk(st', id, sys.sessions[id]) {
      var s := sys.sessions[id];
      assert SessionOk(st, id, s);
      WeakKept(st, st', id, s);
      if Holds(st', s) { StrongKept(st, st', s); }
    }
  }

  lemma AcquireKeepsInv(sys: System, id: nat, a: Action, sys': System)
    requires Inv(sys) && a.Acquire? && Do(sys, id, a) == Some(sys')
    ensures Inv(sys') && Grows(sys.store, sys'.store)
  {
    var st, st' := sys.store, sys'.store;
    StoreGrown(st, st');
    forall o | o in sys.sessions ensures SessionOk(st', o, sys.sessions[o]) {
      assert SessionOk(st, o, sys.sessions[o]);
      WeakKept(st, st', o, sys.sessions[o]);
    }
  }

  lemma StoppedStays(st: Store, id: nat, s: Session, a: Action)
    requires s.phase.Stopped? && SessionStep(st, id, s, a).Some?
    ensures SessionStep(st, id, s, a).value.1.phase.Stopped? && SessionStep(st, id, s, a).value.1.lost == s.lost
    ensures SessionStep(st, id, s, a).value.0 == st
  {
  }

  lemma SessionKeepsInv(sys: System, id: nat, a: Action)
    requires Inv(sys) && id in sys.sessions && SessionStep(sys.store, id, sys.sessions[id], a).Some?
    ensures var (st', s') := SessionStep(sys.store, id, sys.sessions[id], a).value;
            Inv(System(st', sys.sessions[id := s'])) && Grows(sys.store, st')
  {
    var st, s := sys.store, sys.sessions[id];
    assert SessionOk(st, id, s);
    SessionStepOk(st, id, s, a);
    var (st', s') := SessionStep(st, id, s, a).value;
    var sys' := System(st', sys.sessions[id := s']);
    forall o | o in sys'.sessions ensures SessionOk(st', o, sys'.sessions[o]) {
      if o != id { OtherOk(st, id, s, st', s', o, sys.sessions[o]) by { assert SessionOk(st, o, sys.sessions[o]); } }
    }
    if s.phase.Stopped? { StoppedStays(st, id, s, a); }
  }

  lemma OtherOk(st: Store, id: nat, s: Session, st': Store, s': Session, o: nat, other: Session)
    requires SessionOk(st, id, s) && StepOk(st, id, s, st', s') && SessionOk(st, o, other) && o != id
    requires st'.lease == st.lease || !st'.lease.Live?
    ensures SessionOk(st', o, other)
  {
    WeakKept(st, st', o, other);
  }

  lemma DoKeepsInv(sys: System, id: nat, a: Action, sys': System)
    requires Inv(sys) && Do(sys, id, a) == Some(sys')
    ensures Inv(sys') && Grows(sys.store, sys'.store)
  {
    if a.Send? || a.ForeignAdmit? || a.ForeignEvent? || a.Expire? {
      OutsideKeepsInv(sys, a);
      OutsideStoreOk(sys.store, a);
    } else if a.Acquire? {
      AcquireKeepsInv(sys, id, a, sys');
    } else {
      SessionKeepsInv(sys, id, a);
    }
  }
}
