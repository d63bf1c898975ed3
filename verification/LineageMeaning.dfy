/** What resolving a training attempt accepts and what the plan carries, on the overrides and the arguments
    themselves. */
module LineageMeaning {
  import opened Util
  import opened Encoding
  import opened Lineage

  /** The last override of this kind. */
  predicate LastOf(overrides: seq<Override>, kind: Kind, i: nat) {
    && i < |overrides| && overrides[i].kind == kind
    && forall j :: i < j < |overrides| ==> overrides[j].kind != kind
  }

  predicate Resizes(o: Override) {
    o.kind.MicroBatchResize? || o.kind.AccumulationAdjustment?
  }

  /** A lineage is pairs, and the restore after them if there is one. */
  lemma EndOf(spec: Spec, overrides: seq<Override>, restoreAction: Option<string>) returns (n: nat)
    requires IsLineage(spec, overrides, restoreAction)
    ensures n <= |overrides| <= n + 1 && PairsFit(spec, overrides[..n])
    ensures n < |overrides| ==> RestoreFits(overrides[n], overrides[..n], restoreAction)
    ensures After(spec, overrides, |overrides|, restoreAction)
         == Ok(PairsState(spec, overrides[..n]).(restore := if n < |overrides| then Some(overrides[n].values["checkpoint_id"].s) else None))
  {
    n := if PairsFit(spec, overrides) then |overrides| else |overrides| - 1;
    assert overrides[..|overrides|] == overrides;
    PairsAccepted(spec, overrides, n, restoreAction);
  }

  /** Pairs are resizes, in turn. */
  lemma {:induction false} PairsAreResizes(p: seq<Override>, micro: int, accumulation: int)
    requires Pairs(p, micro, accumulation)
    ensures |p| % 2 == 0
    ensures forall i :: 0 <= i < |p| ==> if i % 2 == 0 then p[i].kind.MicroBatchResize? else p[i].kind.AccumulationAdjustment?
  {
    if p != [] {
      var rest := p[2..];
      PairsAreResizes(rest, p[0].values["to"].i, p[1].values["to"].i);
      forall i | 0 <= i < |p| ensures if i % 2 == 0 then p[i].kind.MicroBatchResize? else p[i].kind.AccumulationAdjustment? {
        if i >= 2 { assert p[i] == rest[i - 2] && (i - 2) % 2 == i % 2; }
      }
    }
  }

  /** What a resize must start from: where the one before the last ended, or the compiled value. */
  function FromAt(overrides: seq<Override>, i: nat, start: int): Option<Value>
    requires i < |overrides|
  {
    if i < 2 then Some(Int(start))
    else if "to" in overrides[i - 2].values then Some(overrides[i - 2].values["to"])
    else None
  }

  /** An override records a move from this value to a positive one that keeps the effective batch. */
  predicate Moves(o: Override, from: Option<Value>) {
    && o.values.Keys == {"from", "to"} && Some(o.values["from"]) == from
    && o.values["from"].Int? && o.values["to"].Int? && o.values["to"].i > 0
    && o.preserves == ["effective_batch_size"]
  }

  /** The *k*-th pair, by position. */
  predicate PairAt(overrides: seq<Override>, k: nat, micro: int, accumulation: int)
    requires 2 * k + 1 < |overrides|
  {
    var a, b := overrides[2 * k], overrides[2 * k + 1];
    && a.kind.MicroBatchResize? && b.kind.AccumulationAdjustment? && a.actionId == b.actionId
    && Moves(a, FromAt(overrides, 2 * k, micro)) && Moves(b, FromAt(overrides, 2 * k + 1, accumulation))
    && a.values["from"].i * b.values["from"].i == a.values["to"].i * b.values["to"].i
  }

  predicate AllPairsAt(overrides: seq<Override>, micro: int, accumulation: int) {
    && |overrides| % 2 == 0
    && forall k :: 0 <= k < |overrides| / 2 ==> PairAt(overrides, k, micro, accumulation)
  }

  /** Pairs, position by position: each move starts where the last one of its kind ended. */
  lemma {:induction false} PairsByPosition(p: seq<Override>, micro: int, accumulation: int)
    ensures Pairs(p, micro, accumulation) <==> AllPairsAt(p, micro, accumulation)
  {
    if |p| >= 2 && Pair(p[0], p[1], micro, accumulation) {
      var rest, m, a := p[2..], p[0].values["to"].i, p[1].values["to"].i;
      PairsByPosition(rest, m, a);
      forall k | 0 <= k < |rest| / 2 ensures PairAt(rest, k, m, a) <==> PairAt(p, k + 1, micro, accumulation) {
        PairShifts(p, k, micro, accumulation);
      }
      AllShift(p, micro, accumulation);
    } else if |p| >= 2 {
      assert !PairAt(p, 0, micro, accumulation);
    }
  }

  lemma PairShifts(p: seq<Override>, k: nat, micro: int, accumulation: int)
    requires 2 * k + 3 < |p| && Pair(p[0], p[1], micro, accumulation)
    ensures PairAt(p[2..], k, p[0].values["to"].i, p[1].values["to"].i) <==> PairAt(p, k + 1, micro, accumulation)
  {
    var rest := p[2..];
    assert rest[2 * k] == p[2 * (k + 1)] && rest[2 * k + 1] == p[2 * (k + 1) + 1];
    assert k > 0 ==> rest[2 * k - 2] == p[2 * k] && rest[2 * k - 1] == p[2 * k + 1];
  }

  lemma AllShift(p: seq<Override>, micro: int, accumulation: int)
    requires |p| >= 2 && Pair(p[0], p[1], micro, accumulation)
    requires var rest, m, a := p[2..], p[0].values["to"].i, p[1].values["to"].i;
             forall k :: 0 <= k < |rest| / 2 ==> (PairAt(rest, k, m, a) <==> PairAt(p, k + 1, micro, accumulation))
    ensures AllPairsAt(p, micro, accumulation) <==> AllPairsAt(p[2..], p[0].values["to"].i, p[1].values["to"].i)
  {
    var rest, m, a := p[2..], p[0].values["to"].i, p[1].values["to"].i;
    assert PairAt(p, 0, micro, accumulation);
    if AllPairsAt(rest, m, a) {
      forall k | 0 <= k < |p| / 2 ensures PairAt(p, k, micro, accumulation) {
        if k > 0 { assert PairAt(rest, k - 1, m, a); }
      }
    }
    if AllPairsAt(p, micro, accumulation) {
      forall k | 0 <= k < |rest| / 2 ensures PairAt(rest, k, m, a) { assert PairAt(p, k + 1, micro, accumulation); }
    }
  }

  /** Main result: a resize takes effect. The plan has the micro-batch of the last resize and the accumulation of
      the last adjustment, and is otherwise the compiled one. */
  lemma ResizeTakesEffect(spec: Spec, attempt: Attempt, runtime: string, directives: seq<Directive>,
                          numericalRecovery: bool, restoreAction: Option<string>) returns (i: nat, j: nat)
    requires Resolve(spec, attempt, runtime, directives, numericalRecovery, restoreAction).Ok?
    requires exists o :: o in attempt.overrides && Resizes(o)
    ensures LastOf(attempt.overrides, MicroBatchResize, i) && LastOf(attempt.overrides, AccumulationAdjustment, j)
    ensures "to" in attempt.overrides[i].values && "to" in attempt.overrides[j].values && spec.optimization.Some?
    ensures Resolve(spec, attempt, runtime, directives, numericalRecovery, restoreAction).value.spec
         == Spec(Some(Optimization(attempt.overrides[i].values["to"], attempt.overrides[j].values["to"], spec.optimization.value.rest)), spec.rest)
  {
    var overrides := attempt.overrides;
    LineageIsTheLanguage(spec, overrides, restoreAction);
    var n := EndOf(spec, overrides, restoreAction);
    assert n > 0;
    PairsEnd(spec, overrides, n);
    i, j := n - 2, n - 1;
  }

  /** The last pair says what was reached. */
  lemma PairsEnd(spec: Spec, overrides: seq<Override>, n: nat)
    requires 0 < n <= |overrides| <= n + 1 && PairsFit(spec, overrides[..n])
    requires n < |overrides| ==> overrides[n].kind.CheckpointRestore?
    ensures n >= 2 && LastOf(overrides, MicroBatchResize, n - 2) && LastOf(overrides, AccumulationAdjustment, n - 1)
    ensures "to" in overrides[n - 2].values && "to" in overrides[n - 1].values && spec.optimization.Some?
    ensures PairsState(spec, overrides[..n]).optimization
         == Some(Optimization(overrides[n - 2].values["to"], overrides[n - 1].values["to"], spec.optimization.value.rest))
  {
    var p, start := overrides[..n], spec.optimization.value;
    PairsAreResizes(p, start.micro.i, start.accumulation.i);
    PairsShrink(p, start.micro.i, start.accumulation.i);
    assert p[n - 2] == overrides[n - 2] && p[n - 1] == overrides[n - 1];
  }

  /** Without one, it is the compiled one. */
  lemma NothingResized(spec: Spec, attempt: Attempt, runtime: string, directives: seq<Directive>,
                       numericalRecovery: bool, restoreAction: Option<string>)
    requires Resolve(spec, attempt, runtime, directives, numericalRecovery, restoreAction).Ok?
    requires forall o :: o in attempt.overrides ==> !Resizes(o)
    ensures Resolve(spec, attempt, runtime, directives, numericalRecovery, restoreAction).value.spec == spec
  {
    LineageIsTheLanguage(spec, attempt.overrides, restoreAction);
    var n := EndOf(spec, attempt.overrides, restoreAction);
    if attempt.overrides != [] { assert attempt.overrides[0] in attempt.overrides; }
  }

  /** The directives go with a restore, are all the attempt's own, and come in order. */
  predicate DirectivesFit(directives: seq<Directive>, attempt: Attempt) {
    && (directives != [] ==> attempt.checkpoint.Some?)
    && forall i :: 0 <= i < |directives| ==> directives[i].attemptId == attempt.id && directives[i].ordinal == i
  }

  /** The lineage ends in a restore exactly if the attempt has a checkpoint, and of that one. */
  predicate RestoresTheCheckpoint(attempt: Attempt) {
    var overrides := attempt.overrides;
    if attempt.checkpoint.None? then forall o :: o in overrides ==> !o.kind.CheckpointRestore?
    else
      && overrides != []
      && var last := overrides[|overrides| - 1];
         last.kind.CheckpointRestore? && last.values == map["checkpoint_id" := Str(attempt.checkpoint.value.id)]
  }

  /** How many overrides precede the restore, if the last is one. */
  function BeforeRestore(overrides: seq<Override>): nat {
    if overrides != [] && overrides[|overrides| - 1].kind.CheckpointRestore? then |overrides| - 1 else |overrides|
  }

  /** Resize pairs from the compiled batch on, position by position, and a restore that is under no Action, the last
      pair's, or the one named. */
  predicate Legal(spec: Spec, overrides: seq<Override>, restoreAction: Option<string>) {
    var n := BeforeRestore(overrides);
    && (n > 0 ==>
          && spec.optimization.Some? && spec.optimization.value.micro.Int? && spec.optimization.value.accumulation.Int?
          && spec.optimization.value.micro.i > 0 && spec.optimization.value.accumulation.i > 0
          && AllPairsAt(overrides[..n], spec.optimization.value.micro.i, spec.optimization.value.accumulation.i))
    && (n < |overrides| ==>
          && overrides[n].values.Keys == {"checkpoint_id"} && overrides[n].values["checkpoint_id"].Str?
          && (overrides[n].actionId.None? || overrides[n].actionId == restoreAction
              || (n > 0 && overrides[n].actionId == overrides[n - 1].actionId)))
  }

  lemma LegalIsLineage(spec: Spec, overrides: seq<Override>, restoreAction: Option<string>)
    ensures Legal(spec, overrides, restoreAction) <==> IsLineage(spec, overrides, restoreAction)
  {
    var n := BeforeRestore(overrides);
    FitsByPosition(spec, overrides[..n]);
    assert overrides[..|overrides|] == overrides;
    if IsLineage(spec, overrides, restoreAction) {
      var m := EndOf(spec, overrides, restoreAction);
      if m > 0 {
        LastPair(spec, overrides[..m]);
        assert overrides[..m][m - 1] == overrides[m - 1];
      }
      assert m == n;
    }
  }

  lemma FitsByPosition(spec: Spec, p: seq<Override>)
    ensures PairsFit(spec, p) <==>
            p == [] ||
            (&& spec.optimization.Some? && spec.optimization.value.micro.Int? && spec.optimization.value.accumulation.Int?
             && spec.optimization.value.micro.i > 0 && spec.optimization.value.accumulation.i > 0
             && AllPairsAt(p, spec.optimization.value.micro.i, spec.optimization.value.accumulation.i))
  {
    if spec.optimization.Some? && BatchOk(spec.optimization.value) {
      PairsByPosition(p, spec.optimization.value.micro.i, spec.optimization.value.accumulation.i);
    }
  }

  /** Main result: what is resolved. */
  lemma ResolvedExactly(spec: Spec, attempt: Attempt, runtime: string, directives: seq<Directive>,
                        numericalRecovery: bool, restoreAction: Option<string>)
    ensures Resolve(spec, attempt, runtime, directives, numericalRecovery, restoreAction).Ok? <==>
            Legal(spec, attempt.overrides, restoreAction) && RestoresTheCheckpoint(attempt) && DirectivesFit(directives, attempt)
  {
    LineageIsTheLanguage(spec, attempt.overrides, restoreAction);
    LegalIsLineage(spec, attempt.overrides, restoreAction);
    if IsLineage(spec, attempt.overrides, restoreAction) {
      var n := EndOf(spec, attempt.overrides, restoreAction);
      RestoreIs(spec, attempt, restoreAction, n);
      FinishedExactly(spec, After(spec, attempt.overrides, |attempt.overrides|, restoreAction).value, attempt, runtime, directives, numericalRecovery);
    }
  }

  /** The state the lineage ends in names the checkpoint. */
  predicate Named(s: State, attempt: Attempt) {
    && (s.restore.None? <==> attempt.checkpoint.None?)
    && (s.restore.Some? && attempt.checkpoint.Some? ==> s.restore.value == attempt.checkpoint.value.id)
  }

  lemma RestoreIs(spec: Spec, attempt: Attempt, restoreAction: Option<string>, n: nat)
    requires n <= |attempt.overrides| <= n + 1 && PairsFit(spec, attempt.overrides[..n])
    requires n < |attempt.overrides| ==> RestoreFits(attempt.overrides[n], attempt.overrides[..n], restoreAction)
    ensures RestoresTheCheckpoint(attempt) <==>
            Named(PairsState(spec, attempt.overrides[..n]).(
                    restore := if n < |attempt.overrides| then Some(attempt.overrides[n].values["checkpoint_id"].s) else None), attempt)
  {
    var overrides := attempt.overrides;
    if n > 0 {
      PairsAreResizes(overrides[..n], spec.optimization.value.micro.i, spec.optimization.value.accumulation.i);
    }
    forall i | 0 <= i < n ensures !overrides[i].kind.CheckpointRestore? { assert overrides[..n][i] == overrides[i]; }
    if n < |overrides| {
      assert overrides[n] in overrides;
      var values := overrides[n].values;
      assert values == map["checkpoint_id" := values["checkpoint_id"]];
    }
  }

  lemma FinishedExactly(spec: Spec, s: State, attempt: Attempt, runtime: string, directives: seq<Directive>, numericalRecovery: bool)
    requires s.pairBefore.None?
    ensures Finish(spec, s, attempt, runtime, directives, numericalRecovery).Ok? <==> Named(s, attempt) && DirectivesFit(directives, attempt)
  {
  }

  /** One value under a name, or none. */
  ghost predicate Under(options: seq<Entry>, name: string, value: Option<Value>) {
    forall e :: e in options && e.key == Name(name) <==> value.Some? && e == Entry(Name(name), value.value)
  }

  lemma OptionNames()
    ensures "checkpoint_restore" != "training_interventions" && "checkpoint_restore" != "managed_numerical_recovery"
    ensures "training_interventions" != "managed_numerical_recovery"
  {
    assert |"checkpoint_restore"| == 18 && |"training_interventions"| == 22 && |"managed_numerical_recovery"| == 26;
  }

  /** Main result: what the plan carries. It is for the given runtime and for this attempt; the checkpoint, the
      directives in order, and the numerical control are among its options under their own names, each exactly if
      it was given; and nothing else is. */
  lemma PlanCarries(spec: Spec, attempt: Attempt, runtime: string, directives: seq<Directive>,
                    numericalRecovery: bool, restoreAction: Option<string>) returns (dumps: seq<Value>)
    requires Resolve(spec, attempt, runtime, directives, numericalRecovery, restoreAction).Ok?
    ensures |dumps| == |directives| && forall i :: 0 <= i < |dumps| ==> dumps[i] == directives[i].dump
    ensures var plan := Resolve(spec, attempt, runtime, directives, numericalRecovery, restoreAction).value;
            && plan.runtime == runtime && plan.target == attempt.id
            && Under(plan.options, "checkpoint_restore", if attempt.checkpoint.Some? then Some(attempt.checkpoint.value.dump) else None)
            && Under(plan.options, "training_interventions", if directives != [] then Some(Sequence(List, dumps)) else None)
            && Under(plan.options, "managed_numerical_recovery", if numericalRecovery then Some(Bool(true)) else None)
            && (forall e :: e in plan.options ==>
                  e.key == Name("checkpoint_restore") || e.key == Name("training_interventions") || e.key == Name("managed_numerical_recovery"))
            && DistinctKeys(plan.options)
  {
    dumps := DirectiveDumps(directives);
    OptionNames();
    OptionsCarry(attempt.checkpoint, directives, numericalRecovery);
  }

  lemma OptionsCarry(checkpoint: Option<Checkpoint>, directives: seq<Directive>, numericalRecovery: bool)
    ensures var options := Options(checkpoint, directives, numericalRecovery);
            && Under(options, "checkpoint_restore", if checkpoint.Some? then Some(checkpoint.value.dump) else None)
            && Under(options, "training_interventions", if directives != [] then Some(Sequence(List, DirectiveDumps(directives))) else None)
            && Under(options, "managed_numerical_recovery", if numericalRecovery then Some(Bool(true)) else None)
            && (forall e :: e in options ==>
                  e.key == Name("checkpoint_restore") || e.key == Name("training_interventions") || e.key == Name("managed_numerical_recovery"))
            && DistinctKeys(options)
  {
    OptionNames();
  }

  // ---- the identity ------------------------------------------------------------------------------

  /** The same compiled configuration, by the typed comparison. */
  predicate SameSpec(x: Spec, y: Spec) {
    && Same(x.rest, y.rest) && (x.optimization.Some? <==> y.optimization.Some?)
    && (x.optimization.Some? ==>
          && Same(x.optimization.value.micro, y.optimization.value.micro)
          && Same(x.optimization.value.accumulation, y.optimization.value.accumulation)
          && Same(x.optimization.value.rest, y.optimization.value.rest))
  }

  function Section(o: Optimization): Value {
    Mapping(false, [Entry(Name("micro_batch_size"), o.micro), Entry(Name("gradient_accumulation"), o.accumulation),
                    Entry(Name("rest"), o.rest)])
  }

  lemma SectionSame(x: Optimization, y: Optimization)
    ensures Same(Section(x), Section(y)) <==> Same(x.micro, y.micro) && Same(x.accumulation, y.accumulation) && Same(x.rest, y.rest)
  {
    var v, w := [x.micro, x.accumulation, x.rest], [y.micro, y.accumulation, y.rest];
    assert |"micro_batch_size"| == 16 && |"gradient_accumulation"| == 21 && |"rest"| == 4;
    EntriesSame(Section(x).entries, Section(y).entries, v, w);
    assert v[0] == x.micro && v[1] == x.accumulation && v[2] == x.rest;
    assert (forall i :: 0 <= i < 3 ==> Same(v[i], w[i])) <==> Same(v[0], w[0]) && Same(v[1], w[1]) && Same(v[2], w[2]);
  }

  lemma SpecSame(x: Spec, y: Spec)
    ensures Same(SpecValue(x), SpecValue(y)) <==> SameSpec(x, y)
  {
    var a := if x.optimization.Some? then Section(x.optimization.value) else Null;
    var b := if y.optimization.Some? then Section(y.optimization.value) else Null;
    var v, w := [a, x.rest], [b, y.rest];
    assert |"optimization"| == 12 && |"rest"| == 4;
    EntriesSame(SpecValue(x).entries, SpecValue(y).entries, v, w);
    assert v[0] == a && v[1] == x.rest;
    assert (forall i :: 0 <= i < 2 ==> Same(v[i], w[i])) <==> Same(v[0], w[0]) && Same(v[1], w[1]);
    if x.optimization.Some? && y.optimization.Some? { SectionSame(x.optimization.value, y.optimization.value); }
  }

  /** The options an identity has left. */
  function Left(numericalRecovery: bool): Value {
    Mapping(false, if numericalRecovery then [Entry(Name(NUMERICAL_RECOVERY), Bool(true))] else [])
  }

  lemma LeftSame(one: bool, other: bool)
    ensures Same(Left(one), Left(other)) <==> one == other
  {
    var full := [Entry(Name(NUMERICAL_RECOVERY), Bool(true))];
    assert NameSet([]) == {} && NUMERICAL_RECOVERY in NameSet(full);
    assert Same(Left(false), Left(false));
    EntriesSame(full, full, [Bool(true)], [Bool(true)]);
  }

  /** Main result: two resolved plans have one identity exactly if they agree on the resolved configuration, the
      runtime, its capabilities and the numerical control. */
  lemma IdentityExactly(plan: Plan, plan': Plan, capabilities: Value, capabilities': Value,
                        spec: Spec, attempt: Attempt, runtime: string, directives: seq<Directive>, numericalRecovery: bool,
                        restoreAction: Option<string>,
                        spec': Spec, attempt': Attempt, runtime': string, directives': seq<Directive>, numericalRecovery': bool,
                        restoreAction': Option<string>)
    requires Resolve(spec, attempt, runtime, directives, numericalRecovery, restoreAction) == Ok(plan)
    requires Resolve(spec', attempt', runtime', directives', numericalRecovery', restoreAction') == Ok(plan')
    ensures Same(ExecutionIdentity(plan, capabilities), ExecutionIdentity(plan', capabilities')) <==>
            SameSpec(plan.spec, plan'.spec) && runtime == runtime' && Same(capabilities, capabilities') && numericalRecovery == numericalRecovery'
  {
    ResolvedLeft(plan, spec, attempt, runtime, directives, numericalRecovery, restoreAction);
    ResolvedLeft(plan', spec', attempt', runtime', directives', numericalRecovery', restoreAction');
    LeftApart(plan, plan', capabilities, capabilities', numericalRecovery, numericalRecovery');
  }

  predicate Leaves(plan: Plan, numericalRecovery: bool) {
    Mapping(false, Pop(Pop(plan.options, RESTORE), INTERVENTIONS)) == Left(numericalRecovery)
  }

  lemma ResolvedLeft(plan: Plan, spec: Spec, attempt: Attempt, runtime: string, directives: seq<Directive>, numericalRecovery: bool,
                     restoreAction: Option<string>)
    requires Resolve(spec, attempt, runtime, directives, numericalRecovery, restoreAction) == Ok(plan)
    ensures plan.runtime == runtime && Leaves(plan, numericalRecovery)
  {
    OptionsLeft(attempt.checkpoint, directives, numericalRecovery);
  }

  lemma LeftApart(plan: Plan, plan': Plan, capabilities: Value, capabilities': Value, numericalRecovery: bool, numericalRecovery': bool)
    requires Leaves(plan, numericalRecovery) && Leaves(plan', numericalRecovery')
    ensures Same(ExecutionIdentity(plan, capabilities), ExecutionIdentity(plan', capabilities')) <==>
            SameSpec(plan.spec, plan'.spec) && plan.runtime == plan'.runtime && Same(capabilities, capabilities')
            && numericalRecovery == numericalRecovery'
  {
    IdentityTellsPlansApart(plan, plan', capabilities, capabilities');
    SpecSame(plan.spec, plan'.spec);
    LeftSame(numericalRecovery, numericalRecovery');
  }
}
