/** Trajectory evidence (`core/trajectory.py`): the structure of one attempt's event sequence, and
    what the counts derived from it always satisfy. */
module Trajectory {
  import opened Util

  datatype Slot = Slot(tier: string, digest: string)

  datatype ModelOutcome = Replied | CallFailed | Cancelled
  datatype ToolOutcome = Executed | Refused | Failed

  datatype Body =
    | RunStarted
    | ModelCallStarted(request: Slot)
    | ModelCallFinished(reply: Option<Slot>, model: ModelOutcome, promptTokens: nat, outputTokens: nat, requested: seq<string>)
    | ToolCallStarted(arguments: Slot, callId: string)
    | ToolCallFinished(output: Option<Slot>, shown: Slot, tool: ToolOutcome)
    | ContextChanged(truncates: bool, turnsDropped: nat)
    | ErrorObserved
    | RunTerminated(answer: Option<Slot>, completed: bool)

  datatype Event = Event(trajectoryId: string, sequence: nat, parent: Option<nat>, body: Body)

  /** What the event models themselves validate. */
  predicate WellFormed(e: Event) {
    && (e.parent.Some? ==> e.parent.value < e.sequence)
    && (e.body.RunStarted? ==> e.sequence == 0 && e.parent.None?)
    && (e.body.ModelCallFinished? ==>
          && (e.body.reply.Some? <==> e.body.model.Replied?)
          && (!e.body.model.Replied? ==> e.body.promptTokens == 0 && e.body.outputTokens == 0 && e.body.requested == []))
    && (e.body.ToolCallFinished? ==> (e.body.output.Some? <==> e.body.tool.Executed?))
    && (e.body.ContextChanged? ==> e.body.turnsDropped >= 1)
    && (e.body.RunTerminated? ==> (e.body.answer.Some? <==> e.body.completed))
  }

  predicate IsFinish(b: Body) {
    b.ModelCallFinished? || b.ToolCallFinished?
  }

  /** `_PARENT_KINDS`: which kinds an event may follow. */
  predicate MayFollow(child: Body, parent: Body) {
    match child
    case RunStarted => false
    case ModelCallStarted(_) | ContextChanged(_, _) =>
      parent.RunStarted? || parent.ModelCallFinished? || parent.ToolCallFinished? || parent.ContextChanged?
    case ModelCallFinished(_, _, _, _, _) => parent.ModelCallStarted?
    case ToolCallStarted(_, _) => parent.ModelCallFinished?
    case ToolCallFinished(_, _, _) => parent.ToolCallStarted?
    case ErrorObserved | RunTerminated(_, _) => !parent.RunTerminated?
  }

  function KindOf(b: Body): string {
    match b
    case RunStarted => "run-started"
    case ModelCallStarted(_) => "model-call-started"
    case ModelCallFinished(_, _, _, _, _) => "model-call-finished"
    case ToolCallStarted(_, _) => "tool-call-started"
    case ToolCallFinished(_, _, _) => "tool-call-finished"
    case ContextChanged(_, _) => "context-changed"
    case ErrorObserved => "error-observed"
    case RunTerminated(_, _) => "run-terminated"
  }

  /** A turn starts after the run's start, a finished call or a change of context; a call finishes after its start; a
      tool call starts after a finished model call; and an error or the end comes after anything but the end. */
  lemma MayFollowExactly(child: Body, parent: Body)
    ensures MayFollow(child, parent) <==>
            var c, p := KindOf(child), KindOf(parent);
            || ((c == "model-call-started" || c == "context-changed")
                && (p == "run-started" || p == "model-call-finished" || p == "tool-call-finished" || p == "context-changed"))
            || (c == "model-call-finished" && p == "model-call-started")
            || (c == "tool-call-started" && p == "model-call-finished")
            || (c == "tool-call-finished" && p == "tool-call-started")
            || ((c == "error-observed" || c == "run-terminated") && p != "run-terminated")
  {
    assert |"run-started"| == 11 && |"model-call-started"| == 18 && |"model-call-finished"| == 19 && |"tool-call-started"| == 17;
    assert |"tool-call-finished"| == 18 && |"context-changed"| == 15 && |"error-observed"| == 14 && |"run-terminated"| == 14;
    assert "model-call-started"[0] == 'm' && "tool-call-finished"[0] == 't' && "error-observed"[0] == 'e' && "run-terminated"[0] == 'r';
  }

  // ---- the structure, declaratively ---------------------------------------------------------

  /** The event at *i* continues a history correctly. */
  predicate Continues(events: seq<Event>, i: nat)
    requires 0 < i < |events|
  {
    var e := events[i];
    && !e.body.RunStarted?
    && !events[i - 1].body.RunTerminated?
    && FollowsParent(events, i)
  }

  /** It follows an earlier event of an allowed kind, finishes no call twice and starts only a call it was asked for. */
  predicate FollowsParent(events: seq<Event>, i: nat)
    requires 0 < i < |events|
  {
    var e := events[i];
    && e.parent.Some? && e.parent.value < i
    && MayFollow(e.body, events[e.parent.value].body)
    && (IsFinish(e.body) ==>
          forall j :: 0 < j < i && IsFinish(events[j].body) ==> events[j].parent != e.parent)
    && (e.body.ToolCallStarted? ==> e.body.callId in events[e.parent.value].body.requested)
  }

  predicate CausalUpTo(trajectoryId: string, events: seq<Event>, n: nat)
    requires n <= |events|
  {
    && (forall i :: 0 <= i < n ==> events[i].trajectoryId == trajectoryId && events[i].sequence == i)
    && (n > 0 ==> events[0].body.RunStarted?)
    && (forall i :: 0 < i < n ==> Continues(events, i))
  }

  /** One attempt's ordered, causal history. */
  predicate Causal(trajectoryId: string, events: seq<Event>) {
    CausalUpTo(trajectoryId, events, |events|)
  }

  datatype Problem =
    | OtherTrajectory(at: nat)
    | SequenceGap(at: nat)
    | NotStarted
    | StartedAgain(at: nat)
    | AfterTermination(at: nat)
    | NoParent(at: nat)
    | CannotFollow(at: nat)
    | FinishedTwice(at: nat)
    | NotRequested(at: nat)

  /** What a problem says is so. */
  predicate Real(trajectoryId: string, events: seq<Event>, p: Problem) {
    match p
    case OtherTrajectory(i) => i < |events| && events[i].trajectoryId != trajectoryId
    case SequenceGap(i) => i < |events| && events[i].sequence != i
    case NotStarted => events != [] && !events[0].body.RunStarted?
    case StartedAgain(i) => 0 < i < |events| && events[i].body.RunStarted?
    case AfterTermination(i) => 0 < i < |events| && events[i - 1].body.RunTerminated?
    case NoParent(i) => 0 < i < |events| && (events[i].parent.None? || events[i].parent.value >= i)
    case CannotFollow(i) =>
      0 < i < |events| && events[i].parent.Some? && events[i].parent.value < i
      && !MayFollow(events[i].body, events[events[i].parent.value].body)
    case FinishedTwice(i) =>
      0 < i < |events| && IsFinish(events[i].body)
      && exists j :: 0 < j < i && IsFinish(events[j].body) && events[j].parent == events[i].parent
    case NotRequested(i) =>
      0 < i < |events| && events[i].body.ToolCallStarted? && events[i].parent.Some? && events[i].parent.value < i
      && events[events[i].parent.value].body.ModelCallFinished?
      && events[i].body.callId !in events[events[i].parent.value].body.requested
  }

  predicate AllReal(trajectoryId: string, events: seq<Event>, problems: seq<Problem>) {
    forall p :: p in problems ==> Real(trajectoryId, events, p)
  }

  /** The calls finished by the first *n* events. */
  function FinishedBy(events: seq<Event>, n: nat): set<nat>
    requires n <= |events|
  {
    set i | 0 < i < n && IsFinish(events[i].body) && events[i].parent.Some? :: events[i].parent.value
  }

  /** `structural_refusals`: no problem is found exactly when the events are one causal history. */
  method StructuralRefusals(trajectoryId: string, events: seq<Event>) returns (problems: seq<Problem>)
    ensures problems == [] <==> Causal(trajectoryId, events)
    ensures AllReal(trajectoryId, events, problems)
  {
    problems := [];
    var finished: set<nat> := {};
    var position := 0;
    while position < |events|
      invariant 0 <= position <= |events|
      invariant problems == [] ==> CausalUpTo(trajectoryId, events, position)
      invariant problems == [] ==> finished == FinishedBy(events, position)
      invariant problems != [] ==> !Causal(trajectoryId, events)
      invariant finished <= FinishedBy(events, position) && AllReal(trajectoryId, events, problems)
    {
      var e := events[position];
      var current := position;
      assert current > 0 && !Continues(events, current) ==> !Causal(trajectoryId, events);
      position := position + 1;
      if e.trajectoryId != trajectoryId {
        problems := problems + [OtherTrajectory(current)];
      }
      if e.sequence != current {
        problems := problems + [SequenceGap(current)];
        break;
      }
      if current == 0 {
        if !e.body.RunStarted? {
          problems := problems + [NotStarted];
        }
        continue;
      }
      if e.body.RunStarted? {
        problems := problems + [StartedAgain(current)];
        continue;
      }
      if events[current - 1].body.RunTerminated? {
        problems := problems + [AfterTermination(current)];
      }
      var found, more := ParentProblems(trajectoryId, events, current, finished);
      problems, finished := problems + found, more;
    }
  }

  /** The rest of the turn for an event: what is wrong with it after its parent, and the call it finishes. */
  method ParentProblems(trajectoryId: string, events: seq<Event>, i: nat, finished: set<nat>)
    returns (problems: seq<Problem>, finished': set<nat>)
    requires 0 < i < |events| && finished <= FinishedBy(events, i)
    ensures AllReal(trajectoryId, events, problems) && finished' <= FinishedBy(events, i + 1)
    ensures finished == FinishedBy(events, i) ==>
              (problems == [] <==> FollowsParent(events, i)) && (problems == [] ==> finished' == FinishedBy(events, i + 1))
    ensures problems != [] ==> !FollowsParent(events, i)
  {
    problems, finished' := [], finished;
    var e := events[i];
    if e.parent.None? || e.parent.value >= i { return [NoParent(i)], finished; }
    var parent := events[e.parent.value];
    if !MayFollow(e.body, parent.body) { return [CannotFollow(i)], finished; }
    if IsFinish(e.body) {
      if e.parent.value in finished {
        assert exists j :: 0 < j < i && IsFinish(events[j].body) && events[j].parent == e.parent;
        problems := problems + [FinishedTwice(i)];
      }
      finished' := finished + {e.parent.value};
    }
    if e.body.ToolCallStarted? && e.body.callId !in parent.body.requested {
      problems := problems + [NotRequested(i)];
    }
  }

  // ---- an accepted history is a tree -----------------------------------------------------------

  /** The way from event *i* back to the first event, parent by parent. */
  function Path(events: seq<Event>, i: nat): (path: seq<nat>)
    requires i < |events| && forall j :: 0 < j < |events| ==> events[j].parent.Some? && events[j].parent.value < j
    ensures path != [] && path[0] == i && path[|path| - 1] == 0
    ensures forall k :: 0 <= k < |path| ==> path[k] <= i
    ensures forall k :: 0 <= k < |path| - 1 ==> path[k] > 0 && events[path[k]].parent == Some(path[k + 1])
  {
    if i == 0 then [0] else [i] + Path(events, events[i].parent.value)
  }

  /** Every event of an accepted history reaches `run-started` through its parents, and
      `run-started` is the only event without one. */
  lemma AcceptedIsATree(trajectoryId: string, events: seq<Event>, i: nat)
    requires Causal(trajectoryId, events) && i < |events|
    requires forall j :: 0 <= j < |events| ==> WellFormed(events[j])
    ensures exists path: seq<nat> ::
              && path != [] && path[0] == i && path[|path| - 1] == 0 && events[0].body.RunStarted?
              && (forall k :: 0 <= k < |path| ==> path[k] < |events|)
              && (forall k :: 0 <= k < |path| - 1 ==> events[path[k]].parent == Some(path[k + 1]) && path[k + 1] < path[k])
    ensures events[i].parent.None? <==> i == 0
    ensures events[i].body.RunStarted? <==> i == 0
  {
    forall j | 0 < j < |events| ensures events[j].parent.Some? && events[j].parent.value < j {
      assert Continues(events, j);
    }
    var path := Path(events, i);
    assert path[0] == i && forall k :: 0 <= k < |path| - 1 ==> events[path[k]].parent == Some(path[k + 1]) && path[k + 1] < path[k];
    if i > 0 { assert Continues(events, i); }
  }

  /** Termination happens at most once, and nothing follows it. */
  lemma TerminationIsLast(trajectoryId: string, events: seq<Event>, i: nat)
    requires Causal(trajectoryId, events) && i < |events| && events[i].body.RunTerminated?
    ensures i == |events| - 1
  {
    NotYetTerminated(trajectoryId, events, i);
  }

  lemma NotYetTerminated(trajectoryId: string, events: seq<Event>, i: nat)
    requires Causal(trajectoryId, events)
    ensures i + 1 < |events| ==> !events[i].body.RunTerminated?
  {
    if i + 1 < |events| { assert Continues(events, i + 1); }
  }

  /** Finishes map one-to-one into the starts of their kind. */
  lemma FinishesAreInjective(trajectoryId: string, events: seq<Event>, i: nat, j: nat)
    requires Causal(trajectoryId, events) && 0 < i < |events| && 0 < j < |events|
    requires IsFinish(events[i].body) && IsFinish(events[j].body)
    ensures events[i].parent.Some? && events[i].parent.value < i
    ensures events[i].parent == events[j].parent ==> i == j
    ensures var start := events[events[i].parent.value].body;
            if events[i].body.ModelCallFinished? then start.ModelCallStarted? else start.ToolCallStarted?
  {
    assert Continues(events, i) && Continues(events, j);
    if i < j { assert events[i].parent != events[j].parent; }
    else if j < i { assert events[j].parent != events[i].parent; }
  }

  // ---- the counts ------------------------------------------------------------------------------

  function CountIf(events: seq<Event>, p: Event -> bool): nat {
    if events == [] then 0
    else CountIf(events[..|events| - 1], p) + if p(events[|events| - 1]) then 1 else 0
  }

  function SumOf(events: seq<Event>, f: Event -> nat): nat {
    if events == [] then 0 else SumOf(events[..|events| - 1], f) + f(events[|events| - 1])
  }

  predicate IsReply(e: Event) {
    e.body.ModelCallFinished? && e.body.model.Replied?
  }

  predicate IsToolStart(e: Event) {
    e.body.ToolCallStarted?
  }

  predicate IsToolRefusal(e: Event) {
    e.body.ToolCallFinished? && e.body.tool.Refused?
  }

  predicate IsToolFailure(e: Event) {
    e.body.ToolCallFinished? && e.body.tool.Failed?
  }

  predicate IsModelStart(e: Event) {
    e.body.ModelCallStarted?
  }

  datatype Counts = Counts(turns: nat, toolCalls: nat, refused: nat, failed: nat, truncated: nat, promptTokens: nat, outputTokens: nat)

  /** `_counts`, but for how the run ended. */
  function CountsOf(events: seq<Event>): Counts {
    Counts(
      CountIf(events, IsReply),
      CountIf(events, IsToolStart),
      CountIf(events, IsToolRefusal),
      CountIf(events, IsToolFailure),
      SumOf(events, Truncated),
      SumOf(events, PromptTokens),
      SumOf(events, OutputTokens))
  }

  function Truncated(e: Event): nat {
    if e.body.ContextChanged? && e.body.truncates then e.body.turnsDropped else 0
  }

  function PromptTokens(e: Event): nat {
    if IsReply(e) then e.body.promptTokens else 0
  }

  function OutputTokens(e: Event): nat {
    if IsReply(e) then e.body.outputTokens else 0
  }

  const NO_COUNTS := Counts(0, 0, 0, 0, 0, 0, 0)

  /** Main result: the counts are what the events add up to, one by one: each counts as what it is. */
  lemma CountsNext(events: seq<Event>, e: Event)
    ensures CountsOf([]) == NO_COUNTS
    ensures var c := CountsOf(events);
            CountsOf(events + [e]) ==
            match e.body
            case ModelCallFinished(_, Replied, prompt, output, _) =>
              c.(turns := c.turns + 1, promptTokens := c.promptTokens + prompt, outputTokens := c.outputTokens + output)
            case ToolCallStarted(_, _) => c.(toolCalls := c.toolCalls + 1)
            case ToolCallFinished(_, _, Refused) => c.(refused := c.refused + 1)
            case ToolCallFinished(_, _, Failed) => c.(failed := c.failed + 1)
            case ContextChanged(true, dropped) => c.(truncated := c.truncated + dropped)
            case _ => c
  {
    assert (events + [e])[..|events|] == events;
  }

  function Where(events: seq<Event>, p: Event -> bool): set<nat> {
    set i | 0 <= i < |events| && p(events[i])
  }

  lemma {:induction false} CountIsCardinality(events: seq<Event>, p: Event -> bool)
    ensures CountIf(events, p) == |Where(events, p)|
  {
    if events != [] {
      var n := |events| - 1;
      CountIsCardinality(events[..n], p);
      assert Where(events, p) == Where(events[..n], p) + if p(events[n]) then {n} else {};
    }
  }

  function ParentsOf(events: seq<Event>, at: set<nat>): set<nat>
    requires forall i :: i in at ==> i < |events| && events[i].parent.Some?
  {
    set i | i in at :: events[i].parent.value
  }

  lemma {:induction false} ParentsAsMany(events: seq<Event>, at: set<nat>)
    requires forall i :: i in at ==> i < |events| && events[i].parent.Some?
    requires forall i, j :: i in at && j in at && events[i].parent == events[j].parent ==> i == j
    ensures |ParentsOf(events, at)| == |at|
  {
    if at != {} {
      var i :| i in at;
      ParentsAsMany(events, at - {i});
      assert ParentsOf(events, at) == ParentsOf(events, at - {i}) + {events[i].parent.value};
    }
  }

  lemma {:induction false} SubsetFewer(a: set<nat>, b: set<nat>)
    requires a <= b
    ensures |a| <= |b|
  {
    if a != {} {
      var x :| x in a;
      SubsetFewer(a - {x}, b - {x});
    }
  }

  /** Finishes selected by a predicate are at most the starts selected by another, when each selected
      finish belongs to a selected start. */
  lemma FewerFinishes(trajectoryId: string, events: seq<Event>, finish: Event -> bool, start: Event -> bool)
    requires Causal(trajectoryId, events)
    requires forall i :: 0 <= i < |events| && finish(events[i]) ==> i > 0 && IsFinish(events[i].body)
    requires forall i :: 0 < i < |events| && finish(events[i]) && events[i].parent.Some? && events[i].parent.value < i ==>
                           MayFollow(events[i].body, events[events[i].parent.value].body) ==> start(events[events[i].parent.value])
    ensures CountIf(events, finish) <= CountIf(events, start)
  {
    var at := Where(events, finish);
    forall i, j | i in at && j in at
      ensures events[i].parent.Some? && events[i].parent.value < |events|
      ensures events[i].parent == events[j].parent ==> i == j
    {
      FinishesAreInjective(trajectoryId, events, i, j);
    }
    ParentsAsMany(events, at);
    forall k | k in ParentsOf(events, at) ensures k in Where(events, start) {
      var i :| i in at && events[i].parent.value == k;
      assert Continues(events, i);
    }
    SubsetFewer(ParentsOf(events, at), Where(events, start));
    CountIsCardinality(events, finish);
    CountIsCardinality(events, start);
  }

  lemma {:induction false} CountSplit(events: seq<Event>, p: Event -> bool, q: Event -> bool, both: Event -> bool)
    requires forall e :: both(e) <==> p(e) || q(e)
    requires forall e :: !(p(e) && q(e))
    ensures CountIf(events, both) == CountIf(events, p) + CountIf(events, q)
  {
    if events != [] {
      CountSplit(events[..|events| - 1], p, q, both);
    }
  }

  lemma {:induction false} NoReplyNoTokens(events: seq<Event>)
    requires CountIf(events, IsReply) == 0
    ensures SumOf(events, PromptTokens) == 0 && SumOf(events, OutputTokens) == 0
  {
    if events != [] { NoReplyNoTokens(events[..|events| - 1]); }
  }

  /** Main result: what the counts of every accepted history satisfy. */
  lemma CountsAgree(trajectoryId: string, events: seq<Event>)
    requires Causal(trajectoryId, events)
    requires forall i :: 0 <= i < |events| ==> WellFormed(events[i])
    ensures var c := CountsOf(events);
            && c.refused + c.failed <= c.toolCalls
            && (c.toolCalls > 0 ==> c.turns > 0)
            && c.turns <= CountIf(events, IsModelStart)
            && (c.turns == 0 ==> c.promptTokens == 0 && c.outputTokens == 0)
  {
    var unserved := (e: Event) => IsToolRefusal(e) || IsToolFailure(e);
    CountSplit(events, IsToolRefusal, IsToolFailure, unserved);
    FewerFinishes(trajectoryId, events, unserved, IsToolStart);
    FewerFinishes(trajectoryId, events, IsReply, IsModelStart);
    CountIsCardinality(events, IsToolStart);
    CountIsCardinality(events, IsReply);
    if CountIf(events, IsToolStart) > 0 {
      var i :| i in Where(events, IsToolStart);
      assert Continues(events, i);
      assert events[i].parent.value in Where(events, IsReply);
    }
    if CountIf(events, IsReply) == 0 { NoReplyNoTokens(events); }
  }

  /** A history in which a model asks for two tools, one is served and one refused, and answers. */
  function History(id: string, a: Slot, b: Slot, prompt: nat, output: nat): seq<Event> {
    [Event(id, 0, None, RunStarted),
     Event(id, 1, Some(0), ModelCallStarted(a)),
     Event(id, 2, Some(1), ModelCallFinished(Some(b), Replied, prompt, output, ["x", "y"])),
     Event(id, 3, Some(2), ToolCallStarted(a, "x")),
     Event(id, 4, Some(3), ToolCallFinished(Some(b), b, Executed)),
     Event(id, 5, Some(2), ToolCallStarted(a, "y")),
     Event(id, 6, Some(5), ToolCallFinished(None, b, Refused)),
     Event(id, 7, Some(6), RunTerminated(Some(b), true))]
  }

  /** It is accepted, and counts as one turn with two tool calls. */
  lemma HistoryAccepted(id: string, a: Slot, b: Slot, prompt: nat, output: nat)
    ensures Causal(id, History(id, a, b, prompt, output))
    ensures forall e :: e in History(id, a, b, prompt, output) ==> WellFormed(e)
  {
  }

  lemma HistoryCounts(id: string, a: Slot, b: Slot, prompt: nat, output: nat)
    ensures CountsOf(History(id, a, b, prompt, output)) == Counts(1, 2, 1, 0, 0, prompt, output)
  {
    var h := History(id, a, b, prompt, output);
    CountsUpTo(h, 0);
    CountsUpTo(h, 1);
    CountsUpTo(h, 2);
    CountsUpTo(h, 3);
    CountsUpTo(h, 4);
    CountsUpTo(h, 5);
    CountsUpTo(h, 6);
    CountsUpTo(h, 7);
    assert h[..0] == [] && h[..8] == h;
  }

  lemma CountsUpTo(events: seq<Event>, n: nat)
    requires n < |events|
    ensures CountsOf([]) == NO_COUNTS
    ensures var c := CountsOf(events[..n]);
            CountsOf(events[..n + 1]) ==
            match events[n].body
            case ModelCallFinished(_, Replied, prompt, output, _) =>
              c.(turns := c.turns + 1, promptTokens := c.promptTokens + prompt, outputTokens := c.outputTokens + output)
            case ToolCallStarted(_, _) => c.(toolCalls := c.toolCalls + 1)
            case ToolCallFinished(_, _, Refused) => c.(refused := c.refused + 1)
            case ToolCallFinished(_, _, Failed) => c.(failed := c.failed + 1)
            case ContextChanged(true, dropped) => c.(truncated := c.truncated + dropped)
            case _ => c
  {
    CountsNext(events[..n], events[n]);
    assert events[..n] + [events[n]] == events[..n + 1];
  }
}
