/** Resolving a training attempt (`compilation/attempt_resolution.py`): the recorded overrides of an
    attempt, checked one by one against the configuration reached so far. */
module Lineage {
  import opened Util
  import opened Encoding

  datatype Optimization = Optimization(micro: Value, accumulation: Value, rest: Value)

  /** A compiled training spec: its optimization section, when it is a mapping, and the rest. */
  datatype Spec = Spec(optimization: Option<Optimization>, rest: Value)

  datatype Kind = MicroBatchResize | AccumulationAdjustment | CheckpointRestore | OtherKind(name: string)

  datatype Override = Override(kind: Kind, values: map<string, Value>, preserves: seq<string>, actionId: Option<string>)

  datatype Checkpoint = Checkpoint(id: string, dump: Value)

  datatype Directive = Directive(attemptId: string, ordinal: int, dump: Value)

  datatype Attempt = Attempt(id: string, overrides: seq<Override>, checkpoint: Option<Checkpoint>)

  datatype Plan = Plan(spec: Spec, runtime: string, target: string, options: seq<Entry>)

  datatype Refusal =
    | ResizeAfterRestore | NoOptimization | BadBatch | AdjustmentExpected | NoPrecedingResize | OtherAction
    | BadProvenance | BatchNotPreserved | RestoreInsidePair | AmbiguousRestore | RestoreNotNamed | ForeignRestore
    | Unsupported | OpenPair | RestoreMismatch | OtherCheckpoint | DirectivesNeedRestore | DirectivesDisordered

  // ---- the loop's state --------------------------------------------------------------------------

  /** The local variables of the loop. */
  datatype State = State(
    optimization: Option<Optimization>, pairBefore: Option<(int, int)>, pairAction: Option<string>,
    latestResize: Option<string>, restore: Option<string>)

  predicate BatchOk(o: Optimization) {
    o.micro.Int? && o.micro.i >= 1 && o.accumulation.Int? && o.accumulation.i >= 1
  }

  /** The override's own record: from the value reached so far, to a positive one. */
  predicate Provenance(o: Override, current: Value) {
    && o.values.Keys == {"from", "to"}
    && o.values["from"].Int? && o.values["to"].Int? && o.values["to"].i >= 1
    && current == o.values["from"]
    && o.preserves == ["effective_batch_size"]
  }

  function StepResize(spec: Spec, s: State, o: Override): Result<State, Refusal>
    requires o.kind.MicroBatchResize? || o.kind.AccumulationAdjustment?
  {
    if s.restore.Some? then Err(ResizeAfterRestore)
    else
      var reached := if s.optimization.Some? then s.optimization else spec.optimization;
      if reached.None? then Err(NoOptimization)
      else if !BatchOk(reached.value) then Err(BadBatch)
      else
        var opt := reached.value;
        if o.kind.MicroBatchResize? then
          if s.pairBefore.Some? then Err(AdjustmentExpected)
          else if !Provenance(o, opt.micro) then Err(BadProvenance)
          else Ok(s.(optimization := Some(opt.(micro := o.values["to"])),
                     pairBefore := Some((opt.micro.i, opt.accumulation.i)), pairAction := o.actionId))
        else if s.pairBefore.None? then Err(NoPrecedingResize)
        else if o.actionId != s.pairAction then Err(OtherAction)
        else if !Provenance(o, opt.accumulation) then Err(BadProvenance)
        else if s.pairBefore.value.0 * s.pairBefore.value.1 != opt.micro.i * o.values["to"].i then Err(BatchNotPreserved)
        else Ok(s.(optimization := Some(opt.(accumulation := o.values["to"])),
                   pairBefore := None, pairAction := None, latestResize := o.actionId))
  }

  function StepRestore(s: State, o: Override, restoreAction: Option<string>): Result<State, Refusal> {
    if s.pairBefore.Some? then Err(RestoreInsidePair)
    else if s.restore.Some? || o.values.Keys != {"checkpoint_id"} then Err(AmbiguousRestore)
    else if !o.values["checkpoint_id"].Str? then Err(RestoreNotNamed)
    else if o.actionId.Some? && o.actionId != s.latestResize && o.actionId != restoreAction then Err(ForeignRestore)
    else Ok(s.(restore := Some(o.values["checkpoint_id"].s)))
  }

  function Step(spec: Spec, s: State, o: Override, restoreAction: Option<string>): Result<State, Refusal> {
    match o.kind
    case MicroBatchResize | AccumulationAdjustment => StepResize(spec, s, o)
    case CheckpointRestore => StepRestore(s, o, restoreAction)
    case OtherKind(_) => Err(Unsupported)
  }

  /** The state after the first *n* overrides, or the first refusal. */
  function After(spec: Spec, overrides: seq<Override>, n: nat, restoreAction: Option<string>): Result<State, Refusal>
    requires n <= |overrides|
  {
    if n == 0 then Ok(State(None, None, None, None, None))
    else
      var s :- After(spec, overrides, n - 1, restoreAction);
      Step(spec, s, overrides[n - 1], restoreAction)
  }

  lemma {:induction false} RefusalStays(spec: Spec, overrides: seq<Override>, n: nat, m: nat, restoreAction: Option<string>)
    requires n <= m <= |overrides| && After(spec, overrides, n, restoreAction).Err?
    ensures After(spec, overrides, m, restoreAction) == After(spec, overrides, n, restoreAction)
  {
    if n < m { RefusalStays(spec, overrides, n, m - 1, restoreAction); }
  }

  // ---- resolving ---------------------------------------------------------------------------------

  predicate DirectivesOrdered(directives: seq<Directive>) {
    forall i :: 0 <= i < |directives| ==> directives[i].ordinal == i
  }

  function DirectiveDumps(directives: seq<Directive>): seq<Value> {
    seq(|directives|, i requires 0 <= i < |directives| => directives[i].dump)
  }

  const RESTORE := "checkpoint_restore"
  const INTERVENTIONS := "training_interventions"
  const NUMERICAL_RECOVERY := "managed_numerical_recovery"

  function Options(checkpoint: Option<Checkpoint>, directives: seq<Directive>, numericalRecovery: bool): seq<Entry> {
    (if checkpoint.Some? then [Entry(Name(RESTORE), checkpoint.value.dump)] else [])
    + (if directives != [] then [Entry(Name(INTERVENTIONS), Sequence(List, DirectiveDumps(directives)))] else [])
    + (if numericalRecovery then [Entry(Name(NUMERICAL_RECOVERY), Bool(true))] else [])
  }

  /** What the end of the lineage must agree with: the attempt's checkpoint and its directives. */
  function Finish(spec: Spec, s: State, attempt: Attempt, runtime: string, directives: seq<Directive>, numericalRecovery: bool)
    : Result<Plan, Refusal>
  {
    if s.pairBefore.Some? then Err(OpenPair)
    else if attempt.checkpoint.None? != s.restore.None? then Err(RestoreMismatch)
    else if attempt.checkpoint.Some? && s.restore != Some(attempt.checkpoint.value.id) then Err(OtherCheckpoint)
    else if directives != [] && (attempt.checkpoint.None? || exists i :: 0 <= i < |directives| && directives[i].attemptId != attempt.id)
    then Err(DirectivesNeedRestore)
    else if !DirectivesOrdered(directives) then Err(DirectivesDisordered)
    else Ok(Plan(if s.optimization.Some? then spec.(optimization := s.optimization) else spec,
                 runtime, attempt.id, Options(attempt.checkpoint, directives, numericalRecovery)))
  }

  function Resolve(spec: Spec, attempt: Attempt, runtime: string, directives: seq<Directive>,
                   numericalRecovery: bool, restoreAction: Option<string>): Result<Plan, Refusal>
  {
    var s :- After(spec, attempt.overrides, |attempt.overrides|, restoreAction);
    Finish(spec, s, attempt, runtime, directives, numericalRecovery)
  }

  /** `resolve_training_attempt`. */
  method ResolveTrainingAttempt(spec: Spec, attempt: Attempt, runtime: string, directives: seq<Directive>,
                                numericalRecovery: bool, restoreAction: Option<string>)
    returns (plan: Result<Plan, Refusal>)
    ensures plan == Resolve(spec, attempt, runtime, directives, numericalRecovery, restoreAction)
  {
    var optimization: Option<Optimization> := None;
    var pairBefore: Option<(int, int)> := None;
    var pairAction, latestResize, restore := None, None, None;
    var resized := false;
    for i := 0 to |attempt.overrides|
      invariant After(spec, attempt.overrides, i, restoreAction)
             == Ok(State(optimization, pairBefore, pairAction, latestResize, restore))
      invariant pairBefore.None? ==> (resized <==> optimization.Some?)
    {
      var o := attempt.overrides[i];
      ghost var next := After(spec, attempt.overrides, i + 1, restoreAction);
      if next.Err? { RefusalStays(spec, attempt.overrides, i + 1, |attempt.overrides|, restoreAction); }
      if o.kind.MicroBatchResize? || o.kind.AccumulationAdjustment? {
        if restore.Some? { return Err(ResizeAfterRestore); }
        if optimization.None? {
          if spec.optimization.None? { return Err(NoOptimization); }
          optimization := spec.optimization;
        }
        var micro, accumulation := optimization.value.micro, optimization.value.accumulation;
        if !micro.Int? || micro.i < 1 || !accumulation.Int? || accumulation.i < 1 { return Err(BadBatch); }
        if o.kind.MicroBatchResize? {
          if pairBefore.Some? { return Err(AdjustmentExpected); }
          pairBefore := Some((micro.i, accumulation.i));
          pairAction := o.actionId;
          if !Provenance(o, micro) { return Err(BadProvenance); }
          optimization := Some(optimization.value.(micro := o.values["to"]));
        } else {
          if pairBefore.None? { return Err(NoPrecedingResize); }
          if o.actionId != pairAction { return Err(OtherAction); }
          if !Provenance(o, accumulation) { return Err(BadProvenance); }
          optimization := Some(optimization.value.(accumulation := o.values["to"]));
          if pairBefore.value.0 * pairBefore.value.1 != micro.i * o.values["to"].i { return Err(BatchNotPreserved); }
          pairBefore, pairAction, latestResize := None, None, o.actionId;
          resized := true;
        }
      } else if o.kind.CheckpointRestore? {
        if pairBefore.Some? { return Err(RestoreInsidePair); }
        if restore.Some? || o.values.Keys != {"checkpoint_id"} { return Err(AmbiguousRestore); }
        if !o.values["checkpoint_id"].Str? { return Err(RestoreNotNamed); }
        restore := Some(o.values["checkpoint_id"].s);
        if o.actionId.Some? && o.actionId != latestResize && o.actionId != restoreAction { return Err(ForeignRestore); }
      } else {
        return Err(Unsupported);
      }
    }
    if pairBefore.Some? { return Err(OpenPair); }
    if attempt.checkpoint.None? != restore.None? { return Err(RestoreMismatch); }
    if attempt.checkpoint.Some? && restore != Some(attempt.checkpoint.value.id) { return Err(OtherCheckpoint); }
    var resolved := if !resized then spec else spec.(optimization := optimization);
    if directives != [] && (attempt.checkpoint.None? || exists i :: 0 <= i < |directives| && directives[i].attemptId != attempt.id) {
      return Err(DirectivesNeedRestore);
    }
    if !DirectivesOrdered(directives) { return Err(DirectivesDisordered); }
    return Ok(Plan(resolved, runtime, attempt.id, Options(attempt.checkpoint, directives, numericalRecovery)));
  }

  // ---- the language of lineages ---------------------------------------------------------------------

  /** A resize pair, from one batch configuration to another: both halves under one Action, each from
      the value reached, and the effective batch kept. */
  predicate Pair(a: Override, b: Override, micro: int, accumulation: int) {
    && a.kind.MicroBatchResize? && Provenance(a, Int(micro))
    && b.kind.AccumulationAdjustment? && Provenance(b, Int(accumulation))
    && a.actionId == b.actionId
    && micro * accumulation == a.values["to"].i * b.values["to"].i
  }

  /** The overrides are resize pairs and nothing else, from *micro* and *accumulation* on. */
  predicate Pairs(overrides: seq<Override>, micro: int, accumulation: int) {
    overrides == [] ||
    (|overrides| >= 2
     && Pair(overrides[0], overrides[1], micro, accumulation)
     && Pairs(overrides[2..], overrides[0].values["to"].i, overrides[1].values["to"].i))
  }

  /** Where a list of resize pairs ends. */
  function Reached(overrides: seq<Override>, micro: int, accumulation: int): (int, int)
    requires Pairs(overrides, micro, accumulation)
  {
    if overrides == [] then (micro, accumulation)
    else Reached(overrides[2..], overrides[0].values["to"].i, overrides[1].values["to"].i)
  }

  /** The Action that governs the last pair. */
  function LastAction(overrides: seq<Override>): Option<string> {
    if overrides == [] then None else overrides[|overrides| - 1].actionId
  }

  /** The pairs part of a lineage fits the compiled spec. */
  predicate PairsFit(spec: Spec, pairs: seq<Override>) {
    pairs == [] ||
    (spec.optimization.Some? && BatchOk(spec.optimization.value)
     && Pairs(pairs, spec.optimization.value.micro.i, spec.optimization.value.accumulation.i))
  }

  predicate RestoreFits(o: Override, pairs: seq<Override>, restoreAction: Option<string>) {
    && o.kind.CheckpointRestore? && o.values.Keys == {"checkpoint_id"} && o.values["checkpoint_id"].Str?
    && (o.actionId.Some? ==> o.actionId == LastAction(pairs) || o.actionId == restoreAction)
  }

  /** Resize pairs, then at most one restore. */
  ghost predicate IsLineage(spec: Spec, overrides: seq<Override>, restoreAction: Option<string>) {
    || PairsFit(spec, overrides)
    || (overrides != [] && PairsFit(spec, overrides[..|overrides| - 1])
        && RestoreFits(overrides[|overrides| - 1], overrides[..|overrides| - 1], restoreAction))
  }

  lemma {:induction false} PairsExtend(p: seq<Override>, a: Override, b: Override, micro: int, accumulation: int)
    requires Pairs(p, micro, accumulation)
    requires Pair(a, b, Reached(p, micro, accumulation).0, Reached(p, micro, accumulation).1)
    ensures Pairs(p + [a, b], micro, accumulation)
    ensures Reached(p + [a, b], micro, accumulation) == (a.values["to"].i, b.values["to"].i)
  {
    if p == [] {
      assert p + [a, b] == [a, b] && [a, b][2..] == [];
    } else {
      PairsExtend(p[2..], a, b, p[0].values["to"].i, p[1].values["to"].i);
      assert (p + [a, b])[2..] == p[2..] + [a, b];
    }
  }

  lemma {:induction false} PairsShrink(p: seq<Override>, micro: int, accumulation: int)
    requires Pairs(p, micro, accumulation) && p != []
    ensures |p| >= 2 && Pairs(p[..|p| - 2], micro, accumulation)
    ensures var before := Reached(p[..|p| - 2], micro, accumulation);
            Pair(p[|p| - 2], p[|p| - 1], before.0, before.1)
    ensures Reached(p, micro, accumulation) == (p[|p| - 2].values["to"].i, p[|p| - 1].values["to"].i)
  {
    if p[2..] == [] {
      assert p[..|p| - 2] == [];
    } else {
      PairsShrink(p[2..], p[0].values["to"].i, p[1].values["to"].i);
      assert p[..|p| - 2][2..] == p[2..][..|p[2..]| - 2];
    }
  }

  /** The effective batch size survives a lineage of any length. */
  lemma {:induction false} PairsKeepBatch(p: seq<Override>, micro: int, accumulation: int)
    requires Pairs(p, micro, accumulation)
    ensures Reached(p, micro, accumulation).0 * Reached(p, micro, accumulation).1 == micro * accumulation
    ensures micro >= 1 && accumulation >= 1 ==> Reached(p, micro, accumulation).0 >= 1 && Reached(p, micro, accumulation).1 >= 1
  {
    if p != [] { PairsKeepBatch(p[2..], p[0].values["to"].i, p[1].values["to"].i); }
  }

  /** The state a list of pairs leads to. */
  function PairsState(spec: Spec, pairs: seq<Override>): State
    requires PairsFit(spec, pairs)
  {
    if pairs == [] then State(None, None, None, None, None)
    else
      var start := spec.optimization.value;
      var (micro, accumulation) := Reached(pairs, start.micro.i, start.accumulation.i);
      State(Some(start.(micro := Int(micro), accumulation := Int(accumulation))), None, None, LastAction(pairs), None)
  }

  /** Where the loop stands after *n* overrides it accepted. */
  ghost predicate Stands(spec: Spec, overrides: seq<Override>, n: nat, s: State, restoreAction: Option<string>)
    requires n <= |overrides|
  {
    || (PairsFit(spec, overrides[..n]) && s == PairsState(spec, overrides[..n]))
    || (n > 0 && PairsFit(spec, overrides[..n - 1]) && Opened(spec, PairsState(spec, overrides[..n - 1]), overrides[n - 1], s))
    || (n > 0 && PairsFit(spec, overrides[..n - 1]) && RestoreFits(overrides[n - 1], overrides[..n - 1], restoreAction)
        && s == PairsState(spec, overrides[..n - 1]).(restore := Some(overrides[n - 1].values["checkpoint_id"].s)))
  }

  /** The first half of a pair, taken from *before*. */
  predicate Opened(spec: Spec, before: State, a: Override, s: State) {
    && a.kind.MicroBatchResize?
    && StepResize(spec, before, a) == Ok(s) && before.restore.None? && before.pairBefore.None?
  }

  lemma ClosePair(spec: Spec, pairs: seq<Override>, a: Override, b: Override, s: State)
    requires PairsFit(spec, pairs) && Opened(spec, PairsState(spec, pairs), a, s)
    requires b.kind.AccumulationAdjustment? && StepResize(spec, s, b).Ok?
    ensures PairsFit(spec, pairs + [a, b]) && StepResize(spec, s, b) == Ok(PairsState(spec, pairs + [a, b]))
  {
    var start := spec.optimization.value;
    PairsKeepBatch(pairs, start.micro.i, start.accumulation.i);
    PairsExtend(pairs, a, b, start.micro.i, start.accumulation.i);
  }

  /** One more pair is accepted. */
  lemma PairAccepted(spec: Spec, pairs: seq<Override>, a: Override, b: Override) returns (s: State)
    requires PairsFit(spec, pairs) && spec.optimization.Some? && BatchOk(spec.optimization.value)
    requires var start := spec.optimization.value;
             var reached := Reached(pairs, start.micro.i, start.accumulation.i);
             Pair(a, b, reached.0, reached.1)
    ensures StepResize(spec, PairsState(spec, pairs), a) == Ok(s) && StepResize(spec, s, b).Ok?
    ensures Opened(spec, PairsState(spec, pairs), a, s)
  {
    var start := spec.optimization.value;
    PairsKeepBatch(pairs, start.micro.i, start.accumulation.i);
    s := StepResize(spec, PairsState(spec, pairs), a).value;
  }

  /** From whole pairs, an accepted override opens a pair or restores. */
  lemma StandsAfterPairs(spec: Spec, overrides: seq<Override>, n: nat, s: State, restoreAction: Option<string>)
    requires 0 < n <= |overrides| && PairsFit(spec, overrides[..n - 1])
    requires Step(spec, PairsState(spec, overrides[..n - 1]), overrides[n - 1], restoreAction) == Ok(s)
    ensures Stands(spec, overrides, n, s, restoreAction)
  {
  }

  /** From an open pair, it closes it. */
  lemma StandsAfterOpening(spec: Spec, overrides: seq<Override>, n: nat, s: State, next: State, restoreAction: Option<string>)
    requires 1 < n <= |overrides| && PairsFit(spec, overrides[..n - 2])
    requires Opened(spec, PairsState(spec, overrides[..n - 2]), overrides[n - 2], s)
    requires Step(spec, s, overrides[n - 1], restoreAction) == Ok(next)
    ensures Stands(spec, overrides, n, next, restoreAction)
  {
    ClosePair(spec, overrides[..n - 2], overrides[n - 2], overrides[n - 1], s);
    assert overrides[..n] == overrides[..n - 2] + [overrides[n - 2], overrides[n - 1]];
  }

  /** Everything the loop accepts is a lineage, half-way at most. */
  lemma {:induction false} AcceptedStands(spec: Spec, overrides: seq<Override>, n: nat, restoreAction: Option<string>)
    requires n <= |overrides| && After(spec, overrides, n, restoreAction).Ok?
    ensures Stands(spec, overrides, n, After(spec, overrides, n, restoreAction).value, restoreAction)
  {
    if n > 0 {
      AcceptedStands(spec, overrides, n - 1, restoreAction);
      var s, next := After(spec, overrides, n - 1, restoreAction).value, After(spec, overrides, n, restoreAction).value;
      if PairsFit(spec, overrides[..n - 1]) && s == PairsState(spec, overrides[..n - 1]) {
        StandsAfterPairs(spec, overrides, n, next, restoreAction);
      } else if n > 1 && PairsFit(spec, overrides[..n - 2]) && Opened(spec, PairsState(spec, overrides[..n - 2]), overrides[n - 2], s) {
        StandsAfterOpening(spec, overrides, n, s, next, restoreAction);
      }
    }
  }

  /** Two more accepted overrides. */
  lemma TwoMore(spec: Spec, overrides: seq<Override>, n: nat, s: State, t: State, restoreAction: Option<string>)
    requires n + 2 <= |overrides| && After(spec, overrides, n, restoreAction).Ok?
    requires Step(spec, After(spec, overrides, n, restoreAction).value, overrides[n], restoreAction) == Ok(s)
    requires Step(spec, s, overrides[n + 1], restoreAction) == Ok(t)
    ensures After(spec, overrides, n + 2, restoreAction) == Ok(t)
  {
    assert After(spec, overrides, n + 1, restoreAction) == Ok(s);
  }

  /** A list of pairs that fits is accepted. */
  lemma {:induction false} PairsAccepted(spec: Spec, overrides: seq<Override>, n: nat, restoreAction: Option<string>)
    requires n <= |overrides| && PairsFit(spec, overrides[..n])
    ensures After(spec, overrides, n, restoreAction) == Ok(PairsState(spec, overrides[..n]))
  {
    if n > 0 {
      FrontFits(spec, overrides, n);
      PairsAccepted(spec, overrides, n - 2, restoreAction);
      var s, t := PairCloses(spec, overrides[..n - 2], overrides[n - 2], overrides[n - 1]);
      assert overrides[..n - 2] + [overrides[n - 2], overrides[n - 1]] == overrides[..n];
      TwoMore(spec, overrides, n - 2, s, t, restoreAction);
    }
  }

  lemma FrontFits(spec: Spec, overrides: seq<Override>, n: nat)
    requires 0 < n <= |overrides| && PairsFit(spec, overrides[..n])
    ensures n >= 2 && PairsFit(spec, overrides[..n - 2]) && spec.optimization.Some? && BatchOk(spec.optimization.value)
    ensures var start := spec.optimization.value;
            var reached := Reached(overrides[..n - 2], start.micro.i, start.accumulation.i);
            Pair(overrides[n - 2], overrides[n - 1], reached.0, reached.1)
  {
    LastPair(spec, overrides[..n]);
    assert overrides[..n][..n - 2] == overrides[..n - 2];
  }

  /** Both halves of a pair that fits are accepted, and lead to where the longer list of pairs does. */
  lemma PairCloses(spec: Spec, pairs: seq<Override>, a: Override, b: Override) returns (s: State, t: State)
    requires PairsFit(spec, pairs) && spec.optimization.Some? && BatchOk(spec.optimization.value)
    requires var start := spec.optimization.value;
             var reached := Reached(pairs, start.micro.i, start.accumulation.i);
             Pair(a, b, reached.0, reached.1)
    ensures a.kind.MicroBatchResize? && StepResize(spec, PairsState(spec, pairs), a) == Ok(s)
    ensures b.kind.AccumulationAdjustment? && StepResize(spec, s, b) == Ok(t)
    ensures PairsFit(spec, pairs + [a, b]) && t == PairsState(spec, pairs + [a, b])
  {
    s := PairAccepted(spec, pairs, a, b);
    ClosePair(spec, pairs, a, b, s);
    t := PairsState(spec, pairs + [a, b]);
  }

  /** Pairs end with a pair that fits the others. */
  lemma LastPair(spec: Spec, pairs: seq<Override>)
    requires PairsFit(spec, pairs) && pairs != []
    ensures |pairs| >= 2 && PairsFit(spec, pairs[..|pairs| - 2])
    ensures pairs == pairs[..|pairs| - 2] + [pairs[|pairs| - 2], pairs[|pairs| - 1]]
    ensures var start := spec.optimization.value;
            var reached := Reached(pairs[..|pairs| - 2], start.micro.i, start.accumulation.i);
            Pair(pairs[|pairs| - 2], pairs[|pairs| - 1], reached.0, reached.1)
  {
    PairsShrink(pairs, spec.optimization.value.micro.i, spec.optimization.value.accumulation.i);
  }

  /** Main result: the loop ends without an open pair exactly on lineages: resize pairs, each from the
      values reached so far, followed by at most one restore. */
  lemma LineageIsTheLanguage(spec: Spec, overrides: seq<Override>, restoreAction: Option<string>)
    ensures var end := After(spec, overrides, |overrides|, restoreAction);
            (end.Ok? && end.value.pairBefore.None?) <==> IsLineage(spec, overrides, restoreAction)
  {
    var n := |overrides|;
    assert overrides[..n] == overrides;
    if After(spec, overrides, n, restoreAction).Ok? {
      AcceptedStands(spec, overrides, n, restoreAction);
    }
    if PairsFit(spec, overrides) {
      PairsAccepted(spec, overrides, n, restoreAction);
    } else if IsLineage(spec, overrides, restoreAction) {
      PairsAccepted(spec, overrides, n - 1, restoreAction);
    }
  }

  lemma ResolvedOptimization(spec: Spec, pairs: seq<Override>)
    requires PairsFit(spec, pairs)
    ensures var o := PairsState(spec, pairs).optimization;
            o.Some? ==>
              && o.value.micro.Int? && o.value.accumulation.Int?
              && o.value.micro.i >= 1 && o.value.accumulation.i >= 1
              && o.value.micro.i * o.value.accumulation.i
                 == spec.optimization.value.micro.i * spec.optimization.value.accumulation.i
              && o.value.rest == spec.optimization.value.rest
    ensures PairsState(spec, pairs).optimization.Some? <==> pairs != []
  {
    if pairs != [] {
      PairsKeepBatch(pairs, spec.optimization.value.micro.i, spec.optimization.value.accumulation.i);
    }
  }

  /** What a resolved plan keeps of the compiled spec: everything but the batch split, and the
      effective batch; without a resize, everything. */
  lemma ResolvedPlanKeepsEffectiveBatch(spec: Spec, attempt: Attempt, runtime: string, directives: seq<Directive>,
                                        numericalRecovery: bool, restoreAction: Option<string>)
    requires Resolve(spec, attempt, runtime, directives, numericalRecovery, restoreAction).Ok?
    ensures var plan := Resolve(spec, attempt, runtime, directives, numericalRecovery, restoreAction).value;
            && IsLineage(spec, attempt.overrides, restoreAction)
            && plan.spec.rest == spec.rest
            && (plan.spec != spec ==>
                  && plan.spec.optimization.Some? && spec.optimization.Some?
                  && plan.spec.optimization.value.rest == spec.optimization.value.rest
                  && BatchOk(plan.spec.optimization.value) && BatchOk(spec.optimization.value)
                  && plan.spec.optimization.value.micro.i * plan.spec.optimization.value.accumulation.i
                     == spec.optimization.value.micro.i * spec.optimization.value.accumulation.i)
            && ((forall i :: 0 <= i < |attempt.overrides| ==> attempt.overrides[i].kind.CheckpointRestore?) ==> plan.spec == spec)
  {
    var n := |attempt.overrides|;
    LineageIsTheLanguage(spec, attempt.overrides, restoreAction);
    assert attempt.overrides[..n] == attempt.overrides;
    var pairs := if PairsFit(spec, attempt.overrides) then attempt.overrides else attempt.overrides[..n - 1];
    PairsAccepted(spec, attempt.overrides, |pairs|, restoreAction);
    ResolvedOptimization(spec, pairs);
    if pairs != [] { assert pairs[0] == attempt.overrides[0]; }
  }

  // ---- execution identity ---------------------------------------------------------------------------

  function SpecValue(spec: Spec): Value {
    var optimization :=
      if spec.optimization.None? then Null
      else
        var o := spec.optimization.value;
        Mapping(false, [Entry(Name("micro_batch_size"), o.micro), Entry(Name("gradient_accumulation"), o.accumulation),
                        Entry(Name("rest"), o.rest)]);
    Mapping(false, [Entry(Name("optimization"), optimization), Entry(Name("rest"), spec.rest)])
  }

  /** `options.pop(name, None)`. */
  function Pop(options: seq<Entry>, name: string): seq<Entry> {
    if options == [] then []
    else if options[0].key == Name(name) then Pop(options[1..], name)
    else [options[0]] + Pop(options[1..], name)
  }

  /** What `training_execution_fingerprint` hashes. */
  function ExecutionIdentity(plan: Plan, capabilities: Value): Value {
    IdentityOf(SpecValue(plan.spec), Str(plan.runtime), capabilities,
               Mapping(false, Pop(Pop(plan.options, RESTORE), INTERVENTIONS)))
  }

  const IDENTITY_KEYS := ["kind", "spec", "runtime", "resolved_capabilities", "runtime_options"]

  function IdentityOf(spec: Value, runtime: Value, capabilities: Value, options: Value): Value {
    Five(IDENTITY_KEYS, [Str("training-execution/v1"), spec, runtime, capabilities, options])
  }

  /** A mapping of five named values. */
  function Five(names: seq<string>, values: seq<Value>): Value
    requires |names| == |values| == 5
  {
    Mapping(false, [Entry(Name(names[0]), values[0]), Entry(Name(names[1]), values[1]), Entry(Name(names[2]), values[2]),
                    Entry(Name(names[3]), values[3]), Entry(Name(names[4]), values[4])])
  }

  lemma OptionsLeft(checkpoint: Option<Checkpoint>, directives: seq<Directive>, numericalRecovery: bool)
    ensures Pop(Pop(Options(checkpoint, directives, numericalRecovery), RESTORE), INTERVENTIONS)
         == if numericalRecovery then [Entry(Name(NUMERICAL_RECOVERY), Bool(true))] else []
  {
    var numerical := if numericalRecovery then [Entry(Name(NUMERICAL_RECOVERY), Bool(true))] else [];
    var interventions := if directives != [] then [Entry(Name(INTERVENTIONS), Sequence(List, DirectiveDumps(directives)))] else [];
    var restore := if checkpoint.Some? then [Entry(Name(RESTORE), checkpoint.value.dump)] else [];
    var options := Options(checkpoint, directives, numericalRecovery);
    assert options == restore + (interventions + numerical);
    assert NUMERICAL_RECOVERY != RESTORE && NUMERICAL_RECOVERY != INTERVENTIONS && INTERVENTIONS != RESTORE by {
      assert |RESTORE| == 18 && |INTERVENTIONS| == 22 && |NUMERICAL_RECOVERY| == 26;
    }
    assert Pop(numerical, INTERVENTIONS) == numerical && Pop(numerical, RESTORE) == numerical;
    assert interventions != [] ==> (interventions + numerical)[1..] == numerical;
    assert Pop(interventions + numerical, RESTORE) == interventions + numerical;
    assert restore != [] ==> options[1..] == interventions + numerical;
    assert Pop(options, RESTORE) == interventions + numerical;
  }

  /** Main result: the execution identity depends on the resolved configuration, the runtime and the
      numerical-recovery control, and on nothing else about the attempt: neither its id, nor where it
      restores from, nor the directives it carries. */
  lemma IdentityIgnoresRestoreTarget(plan: Plan, plan': Plan, capabilities: Value,
                                     spec: Spec, attempt: Attempt, directives: seq<Directive>, restoreAction: Option<string>,
                                     spec': Spec, attempt': Attempt, directives': seq<Directive>, restoreAction': Option<string>,
                                     runtime: string, numericalRecovery: bool)
    requires Resolve(spec, attempt, runtime, directives, numericalRecovery, restoreAction) == Ok(plan)
    requires Resolve(spec', attempt', runtime, directives', numericalRecovery, restoreAction') == Ok(plan')
    requires plan.spec == plan'.spec
    ensures ExecutionIdentity(plan, capabilities) == ExecutionIdentity(plan', capabilities)
  {
    OptionsLeft(attempt.checkpoint, directives, numericalRecovery);
    OptionsLeft(attempt'.checkpoint, directives', numericalRecovery);
  }

  lemma IdentityKeys()
    ensures forall i, j :: 0 <= i < j < |IDENTITY_KEYS| ==> IDENTITY_KEYS[i] != IDENTITY_KEYS[j]
  {
    assert "kind"[0] == 'k' && "spec"[0] == 's';
    assert |"runtime"| == 7 && |"resolved_capabilities"| == 21 && |"runtime_options"| == 15;
  }

  /** Under distinct names, such mappings are the same value by value. */
  lemma FiveByPosition(names: seq<string>, v: seq<Value>, w: seq<Value>)
    requires |names| == |v| == |w| == 5 && forall i, j :: 0 <= i < j < 5 ==> names[i] != names[j]
    ensures Same(Five(names, v), Five(names, w)) <==> forall i :: 0 <= i < 5 ==> Same(v[i], w[i])
  {
    FiveEntries(names, v);
    FiveEntries(names, w);
    EntriesSame(Five(names, v).entries, Five(names, w).entries, v, w);
  }

  lemma EntriesSame(a: seq<Entry>, b: seq<Entry>, v: seq<Value>, w: seq<Value>)
    requires DistinctKeys(a) && AllNames(a) && |a| == |b| == |v| == |w|
    requires forall i :: 0 <= i < |a| ==> a[i].key == b[i].key && a[i].value == v[i] && b[i].value == w[i]
    ensures Same(Mapping(false, a), Mapping(false, b)) <==> forall i :: 0 <= i < |v| ==> Same(v[i], w[i])
  {
    SameByPosition(a, b);
  }

  lemma FiveEntries(names: seq<string>, v: seq<Value>)
    requires |names| == |v| == 5 && forall i, j :: 0 <= i < j < 5 ==> names[i] != names[j]
    ensures var es := Five(names, v).entries;
            |es| == 5 && DistinctKeys(es) && AllNames(es) && forall i :: 0 <= i < 5 ==> es[i] == Entry(Name(names[i]), v[i])
  {
  }

  lemma IdentityByParts(spec: Value, runtime: Value, capabilities: Value, options: Value,
                        spec': Value, runtime': Value, capabilities': Value, options': Value)
    ensures Same(IdentityOf(spec, runtime, capabilities, options), IdentityOf(spec', runtime', capabilities', options')) <==>
            Same(spec, spec') && Same(runtime, runtime') && Same(capabilities, capabilities') && Same(options, options')
  {
    IdentityKeys();
    var kind := Str("training-execution/v1");
    var v, w := [kind, spec, runtime, capabilities, options], [kind, spec', runtime', capabilities', options'];
    FiveByPosition(IDENTITY_KEYS, v, w);
    FiveSame(v, w);
    assert Same(kind, kind);
  }

  lemma FiveSame(v: seq<Value>, w: seq<Value>)
    requires |v| == |w| == 5
    ensures (forall i :: 0 <= i < 5 ==> Same(v[i], w[i])) <==>
            Same(v[0], w[0]) && Same(v[1], w[1]) && Same(v[2], w[2]) && Same(v[3], w[3]) && Same(v[4], w[4])
  {
    if Same(v[0], w[0]) && Same(v[1], w[1]) && Same(v[2], w[2]) && Same(v[3], w[3]) && Same(v[4], w[4]) {
      forall i | 0 <= i < 5 ensures Same(v[i], w[i]) {
        if i < 2 { assert i == 0 || i == 1; } else { assert i == 2 || i == 3 || i == 4; }
      }
    }
  }

  /** Conversely, the identity tells apart every two plans that differ in one of them. */
  lemma IdentityTellsPlansApart(plan: Plan, plan': Plan, capabilities: Value, capabilities': Value)
    ensures Same(ExecutionIdentity(plan, capabilities), ExecutionIdentity(plan', capabilities')) <==>
            && Same(SpecValue(plan.spec), SpecValue(plan'.spec))
            && plan.runtime == plan'.runtime
            && Same(capabilities, capabilities')
            && Same(Mapping(false, Pop(Pop(plan.options, RESTORE), INTERVENTIONS)),
                    Mapping(false, Pop(Pop(plan'.options, RESTORE), INTERVENTIONS)))
  {
    IdentityByParts(SpecValue(plan.spec), Str(plan.runtime), capabilities, Mapping(false, Pop(Pop(plan.options, RESTORE), INTERVENTIONS)),
                    SpecValue(plan'.spec), Str(plan'.runtime), capabilities', Mapping(false, Pop(Pop(plan'.options, RESTORE), INTERVENTIONS)));
  }
}
