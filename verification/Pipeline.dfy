/** The multi-stage pipeline runner (`pipeline.py`): stages chained by their outputs, a state file
    rewritten after each, and resuming from a named stage.

    `""` stands for a string setting that is absent or empty: the source treats both alike. */
module Pipeline {
  import opened Util

  datatype Stage = Stage(name: string, recipe: string, exports: string, evaluates: bool, modelName: string, repo: string, saveTo: string)

  /** A metric as a stage reports it: a value that reading its JSON text gives back, by that text, or any
      other, by the text written for it. */
  datatype Measure = Plain(json: string) | Other(written: string)

  type Metrics = map<string, Measure>

  datatype StageKind = Train | Export | Evaluation

  datatype StageResult =
    | Completed(kind: StageKind, output: Option<string>, metrics: Metrics)
    | Failed

  type Results = seq<(string, StageResult)>

  /** A configuration, and what the stages measure given their model: deterministic executors. */
  datatype Config = Config(outputDir: string, stages: seq<Stage>, metrics: (Stage, string) -> Metrics)

  datatype StageError = NoModel | UnknownRecipe | UnknownExport | NoRepo | NoKind

  // ---- ordered dictionaries --------------------------------------------------------------------

  predicate HasResult(results: Results, name: string) {
    exists i :: 0 <= i < |results| && results[i].0 == name
  }

  function ResultOf(results: Results, name: string): (r: StageResult)
    requires HasResult(results, name)
    ensures exists i :: 0 <= i < |results| && results[i] == (name, r)
  {
    if results[0].0 == name then results[0].1
    else
      assert HasResult(results[1..], name);
      var r := ResultOf(results[1..], name);
      assert exists i :: 0 <= i < |results[1..]| && results[1..][i] == (name, r);
      r
  }

  /** `results[name] = result`: in place when the key is there, else last. */
  function Put(results: Results, name: string, result: StageResult): Results {
    if results == [] then [(name, result)]
    else if results[0].0 == name then [(name, result)] + results[1..]
    else [results[0]] + Put(results[1..], name, result)
  }

  lemma {:induction false} PutNew(results: Results, name: string, result: StageResult)
    requires !HasResult(results, name)
    ensures Put(results, name, result) == results + [(name, result)]
  {
    if results != [] {
      assert results[0].0 != name;
      forall i | 0 <= i < |results[1..]| ensures results[1..][i].0 != name {
        assert results[1..][i] == results[i + 1];
      }
      PutNew(results[1..], name, result);
    }
  }

  // ---- the state file ----------------------------------------------------------------------------

  /** What the state file keeps of a metric: `json.dumps` with `default=str`. */
  function Json(m: Measure): Measure {
    if m.Plain? then m else Plain(m.written)
  }

  function Written(result: StageResult): StageResult {
    if result.Failed? then result
    else result.(metrics := map name | name in result.metrics :: Json(result.metrics[name]))
  }

  /** `_save_state`, as it is read back. */
  function WrittenAll(results: Results): Results {
    seq(|results|, i requires 0 <= i < |results| => (results[i].0, Written(results[i].1)))
  }

  predicate PlainResult(result: StageResult) {
    result.Completed? ==> forall name :: name in result.metrics ==> result.metrics[name].Plain?
  }

  lemma WrittenPlain(result: StageResult)
    ensures Written(result) == result <==> PlainResult(result)
    ensures Written(Written(result)) == Written(result)
  {
    if result.Completed? {
      var metrics := map name | name in result.metrics :: Json(result.metrics[name]);
      if PlainResult(result) {
        assert metrics == result.metrics;
      } else {
        var name :| name in result.metrics && !result.metrics[name].Plain?;
        assert metrics[name].Plain?;
      }
      assert (map name | name in metrics :: Json(metrics[name])) == metrics;
    }
  }

  /** Results of which the first *k* were read back from the state file. */
  function Reread(results: Results, k: nat): Results
    requires k <= |results|
  {
    WrittenAll(results[..k]) + results[k..]
  }

  lemma WrittenReread(results: Results, k: nat)
    requires k <= |results|
    ensures WrittenAll(Reread(results, k)) == WrittenAll(results)
  {
    forall i | 0 <= i < |results| ensures WrittenAll(Reread(results, k))[i] == WrittenAll(results)[i] {
      WrittenPlain(results[i].1);
    }
  }

  lemma RereadNext(results: Results, last: (string, StageResult), k: nat)
    requires k <= |results|
    ensures Reread(results + [last], k) == Reread(results, k) + [last]
  {
    assert (results + [last])[..k] == results[..k];
    assert (results + [last])[k..] == results[k..] + [last];
  }

  /** Reading results back changes nothing exactly when their metrics are all values JSON gives back. */
  lemma RereadPlain(results: Results, k: nat)
    requires k <= |results|
    ensures Reread(results, k) == results <==> forall i :: 0 <= i < k ==> PlainResult(results[i].1)
  {
    forall i | 0 <= i < k ensures Reread(results, k)[i] == results[i] <==> PlainResult(results[i].1) {
      WrittenPlain(results[i].1);
      assert Reread(results, k)[i] == (results[i].0, Written(results[i].1));
    }
    if forall i :: 0 <= i < k ==> PlainResult(results[i].1) {
      assert forall i :: 0 <= i < |results| ==> Reread(results, k)[i] == results[i];
    }
  }

  // ---- one stage -------------------------------------------------------------------------------

  function OutputPath(config: Config, stage: Stage): string {
    config.outputDir + "/" + stage.name
  }

  function Or(a: string, b: string): string {
    if a != "" then a else b
  }

  /** What the stage's runner returns when nothing outside it fails. */
  function RunStage(config: Config, stage: Stage, model: Option<string>): Result<StageResult, StageError> {
    if stage.recipe != "" then
      if model.None? then Err(NoModel)
      else if stage.recipe !in ["finetune", "pretrain", "align"] then Err(UnknownRecipe)
      else Ok(Completed(Train, Some(OutputPath(config, stage)), config.metrics(stage, model.value)))
    else if stage.exports != "" then
      if model.None? then Err(NoModel)
      else if stage.exports == "merge" then
        Ok(Completed(Export, Some(Or(stage.saveTo, OutputPath(config, stage))), map[]))
      else if stage.exports == "gguf" then
        Ok(Completed(Export, Some(Or(stage.saveTo, OutputPath(config, stage) + "/model.gguf")), map[]))
      else if stage.exports == "push_to_hub" then
        if stage.repo == "" then Err(NoRepo)
        else Ok(Completed(Export, Some(stage.repo), map[]))
      else Err(UnknownExport)
    else if stage.evaluates then
      if model.None? then Err(NoModel) else Ok(Completed(Evaluation, None, config.metrics(stage, model.value)))
    else Err(NoKind)
  }

  function ModelFor(stage: Stage, previous: Option<string>): Option<string> {
    if stage.modelName != "" then Some(stage.modelName) else previous
  }

  /** The output the next stage inherits. */
  function Inherit(result: StageResult, previous: Option<string>): Option<string> {
    match result
    case Completed(Train, output, _) => output
    case Completed(Export, output, _) => if output.Some? && output.value != "" then output else previous
    case _ => previous
  }

  // ---- one attempt -----------------------------------------------------------------------------

  /** What an attempt leaves: its results, the state file, and the model path each stage it ran was given. */
  datatype Outcome = Outcome(
    results: Results, completed: bool, saved: Option<Results>, calls: seq<(string, Option<string>)>)

  /** The saved results before the stage to resume from, and the last of their outputs. */
  function Load(saved: Results, resumeFrom: string, results: Results, previous: Option<string>)
    : (Results, Option<string>)
  {
    if saved == [] || saved[0].0 == resumeFrom then (results, previous)
    else
      var (name, result) := saved[0];
      Load(saved[1..], resumeFrom, Put(results, name, result), if result.Completed? then result.output else None)
  }

  /** The loop over the stages, from stage *i*. */
  function Loop(config: Config, resumeFrom: string, fails: Stage -> bool, i: nat, skipping: bool,
                   results: Results, previous: Option<string>, saved: Option<Results>, calls: seq<(string, Option<string>)>)
    : Outcome
    requires i <= |config.stages|
    decreases |config.stages| - i
  {
    if i == |config.stages| then Outcome(results, true, saved, calls)
    else
      var stage := config.stages[i];
      if skipping && stage.name != resumeFrom then
        Loop(config, resumeFrom, fails, i + 1, true, results, SkipOutput(results, stage.name, previous), saved, calls)
      else
        var model := ModelFor(stage, previous);
        var made := RunStage(config, stage, model);
        if made.Err? || fails(stage) then
          var failed := Put(results, stage.name, Failed);
          Outcome(failed, false, Some(WrittenAll(failed)), calls + [(stage.name, model)])
        else
          var stored := Put(results, stage.name, made.value);
          Loop(config, resumeFrom, fails, i + 1, false, stored, Inherit(made.value, previous), Some(WrittenAll(stored)),
               calls + [(stage.name, model)])
  }

  /** What a skipped stage leaves to inherit: its recorded output, if it has one. */
  function SkipOutput(results: Results, name: string, previous: Option<string>): Option<string> {
    if HasResult(results, name) && ResultOf(results, name).Completed?
       && ResultOf(results, name).output.Some? && ResultOf(results, name).output.value != ""
    then ResultOf(results, name).output
    else previous
  }

  /** One run, resuming from a stage or from the start; *fails* says which stages fail this time. */
  function Attempt(config: Config, resumeFrom: Option<string>, saved: Option<Results>, fails: Stage -> bool): Outcome {
    match resumeFrom
    case None => Loop(config, "", fails, 0, false, [], None, saved, [])
    case Some(name) =>
      var (results, previous) :=
        if name != "" && saved.Some? then Load(saved.value, name, [], None) else ([], None);
      Loop(config, name, fails, 0, true, results, previous, saved, [])
  }

  /** `run_pipeline` is that run. */
  method RunPipeline(config: Config, resumeFrom: Option<string>, saved: Option<Results>, fails: Stage -> bool)
    returns (outcome: Outcome)
    ensures outcome == Attempt(config, resumeFrom, saved, fails)
  {
    var skipping := resumeFrom.Some?;
    var resume := if skipping then resumeFrom.value else "";
    var results: Results := [];
    var previous: Option<string> := None;
    var state, calls := saved, [];
    if skipping && resume != "" && saved.Some? {
      var k := 0;
      while k < |saved.value| && saved.value[k].0 != resume
        invariant 0 <= k <= |saved.value|
        invariant Load(saved.value, resume, [], None) == Load(saved.value[k..], resume, results, previous)
      {
        var (name, result) := saved.value[k];
        results := Put(results, name, result);
        previous := if result.Completed? then result.output else None;
        assert saved.value[k..][1..] == saved.value[k + 1..];
        k := k + 1;
      }
    }
    for i := 0 to |config.stages|
      invariant Attempt(config, resumeFrom, saved, fails)
             == Loop(config, resume, fails, i, skipping, results, previous, state, calls)
    {
      var stage := config.stages[i];
      if skipping {
        if stage.name == resume {
          skipping := false;
        } else {
          previous := SkipOutput(results, stage.name, previous);
          continue;
        }
      }
      var model := ModelFor(stage, previous);
      calls := calls + [(stage.name, model)];
      var made := RunStage(config, stage, model);
      if made.Err? || fails(stage) {
        results := Put(results, stage.name, Failed);
        state := Some(WrittenAll(results));
        return Outcome(results, false, state, calls);
      }
      previous := Inherit(made.value, previous);
      results := Put(results, stage.name, made.value);
      state := Some(WrittenAll(results));
    }
    return Outcome(results, true, state, calls);
  }

  // ---- the uninterrupted run ----------------------------------------------------------------------

  predicate DistinctNames(stages: seq<Stage>) {
    && (forall i :: 0 <= i < |stages| ==> stages[i].name != "")
    && (forall i, j :: 0 <= i < j < |stages| ==> stages[i].name != stages[j].name)
  }

  /** The results of the first *n* stages when nothing fails, and the output the next one inherits. */
  function Ideal(config: Config, n: nat): (r: Result<(Results, Option<string>), StageError>)
    requires n <= |config.stages|
    ensures r.Ok? ==> |r.value.0| == n
  {
    if n == 0 then Ok(([], None))
    else
      var (results, previous) :- Ideal(config, n - 1);
      var stage := config.stages[n - 1];
      var made :- RunStage(config, stage, ModelFor(stage, previous));
      Ok((results + [(stage.name, made)], Inherit(made, previous)))
  }

  predicate IdealCall(config: Config, call: (string, Option<string>), k: nat) {
    && k < |config.stages| && Ideal(config, k).Ok?
    && call == (config.stages[k].name, ModelFor(config.stages[k], Ideal(config, k).value.1))
  }

  /** Every stage that was run was given the model path it gets in the uninterrupted run. */
  ghost predicate IdealCalls(config: Config, calls: seq<(string, Option<string>)>) {
    forall call :: call in calls ==> IsIdealCall(config, call)
  }

  ghost predicate IsIdealCall(config: Config, call: (string, Option<string>)) {
    exists k: nat :: IdealCall(config, call, k)
  }

  /** The results are those of the first *j* stages of the uninterrupted run, the first *k* as read back,
      then perhaps a failure. */
  predicate Reached(config: Config, results: Results, j: nat, k: nat) {
    && k <= j <= |config.stages| && Ideal(config, j).Ok?
    && var done := Reread(Ideal(config, j).value.0, k);
       results == done || (j < |config.stages| && results == done + [(config.stages[j].name, Failed)])
  }

  /** A state file that records the first *j* stages of the uninterrupted run, then perhaps a failure. */
  predicate Records(config: Config, saved: Results, j: nat) {
    && j <= |config.stages| && Ideal(config, j).Ok?
    && var done := WrittenAll(Ideal(config, j).value.0);
       saved == done || (j < |config.stages| && saved == done + [(config.stages[j].name, Failed)])
  }

  lemma ReachedRecords(config: Config, results: Results, j: nat, k: nat)
    requires Reached(config, results, j, k)
    ensures Records(config, WrittenAll(results), j)
  {
    var ideal := Ideal(config, j).value.0;
    var done := Reread(ideal, k);
    WrittenReread(ideal, k);
    if results != done {
      var failure := (config.stages[j].name, Failed);
      assert WrittenAll(done + [failure]) == WrittenAll(done) + [failure];
    }
  }

  lemma {:induction false} IdealShape(config: Config, n: nat)
    requires n <= |config.stages| && Ideal(config, n).Ok?
    ensures var results := Ideal(config, n).value.0;
            |results| == n && forall i :: 0 <= i < n ==> results[i].0 == config.stages[i].name && results[i].1.Completed?
  {
    if n > 0 { IdealShape(config, n - 1); }
  }

  lemma {:induction false} IdealPrefix(config: Config, k: nat, n: nat)
    requires k <= n <= |config.stages| && Ideal(config, n).Ok?
    ensures Ideal(config, k).Ok? && Ideal(config, k).value.0 == Ideal(config, n).value.0[..k]
    decreases n
  {
    IdealShape(config, n);
    if k < n {
      IdealShape(config, n - 1);
      IdealPrefix(config, k, n - 1);
      assert Ideal(config, n).value.0[..n - 1] == Ideal(config, n - 1).value.0;
    }
  }

  // ---- running on ----------------------------------------------------------------------------------

  /** What an attempt that follows the uninterrupted run from stage *k* leaves. */
  ghost predicate Follows(config: Config, outcome: Outcome, k: nat) {
    && k <= |config.stages|
    && (exists j: nat :: Reached(config, outcome.results, j, k))
    && outcome.saved == (if config.stages == [] then None else Some(WrittenAll(outcome.results)))
    && IdealCalls(config, outcome.calls)
    && (outcome.completed ==>
          Ideal(config, |config.stages|).Ok? && outcome.results == Reread(Ideal(config, |config.stages|).value.0, k))
  }

  /** The stage to come has no result yet. */
  lemma NotYet(config: Config, i: nat, k: nat)
    requires DistinctNames(config.stages) && k <= i < |config.stages| && Ideal(config, i).Ok?
    ensures |Ideal(config, i).value.0| == i && !HasResult(Reread(Ideal(config, i).value.0, k), config.stages[i].name)
  {
    IdealShape(config, i);
  }

  /** A stage that fails is the last result. */
  lemma StopsHere(config: Config, i: nat, k: nat, results: Results, calls: seq<(string, Option<string>)>)
    requires k <= i < |config.stages| && Ideal(config, i).Ok? && IdealCalls(config, calls)
    requires results == Reread(Ideal(config, i).value.0, k) && !HasResult(results, config.stages[i].name)
    ensures var failed := Put(results, config.stages[i].name, Failed);
            Follows(config, Outcome(failed, false, Some(WrittenAll(failed)), calls), k)
  {
    PutNew(results, config.stages[i].name, Failed);
    assert Reached(config, results + [(config.stages[i].name, Failed)], i, k);
  }

  /** A stage that does not leaves the results of one stage more. */
  lemma GoesOn(config: Config, i: nat, k: nat, results: Results, previous: Option<string>, made: StageResult)
    requires k <= i < |config.stages| && Ideal(config, i).Ok? && previous == Ideal(config, i).value.1
    requires results == Reread(Ideal(config, i).value.0, k) && !HasResult(results, config.stages[i].name)
    requires RunStage(config, config.stages[i], ModelFor(config.stages[i], previous)) == Ok(made)
    ensures Ideal(config, i + 1).Ok? && Ideal(config, i + 1).value.1 == Inherit(made, previous)
    ensures Put(results, config.stages[i].name, made) == Reread(Ideal(config, i + 1).value.0, k)
  {
    PutNew(results, config.stages[i].name, made);
    RereadNext(Ideal(config, i).value.0, (config.stages[i].name, made), k);
  }

  /** Once a stage is reached with the results and output of the uninterrupted run, the loop follows it. */
  lemma {:induction false} RunsOn(
    config: Config, resumeFrom: string, fails: Stage -> bool, i: nat, k: nat,
    results: Results, previous: Option<string>, saved: Option<Results>, calls: seq<(string, Option<string>)>)
    requires DistinctNames(config.stages) && k <= i <= |config.stages| && Ideal(config, i).Ok? && IdealCalls(config, calls)
    requires results == Reread(Ideal(config, i).value.0, k) && previous == Ideal(config, i).value.1
    requires i < |config.stages| || saved == if config.stages == [] then None else Some(WrittenAll(results))
    ensures Follows(config, Loop(config, resumeFrom, fails, i, false, results, previous, saved, calls), k)
    decreases |config.stages| - i
  {
    IdealShape(config, i);
    if i == |config.stages| {
      assert Reached(config, results, i, k);
    } else {
      var stage := config.stages[i];
      var model := ModelFor(stage, previous);
      assert IdealCall(config, (stage.name, model), i);
      assert IdealCalls(config, calls + [(stage.name, model)]);
      NotYet(config, i, k);
      var made := RunStage(config, stage, model);
      if made.Err? || fails(stage) {
        StopsHere(config, i, k, results, calls + [(stage.name, model)]);
      } else {
        GoesOn(config, i, k, results, previous, made.value);
        var stored := Put(results, stage.name, made.value);
        RunsOn(config, resumeFrom, fails, i + 1, k, stored, Inherit(made.value, previous), Some(WrittenAll(stored)),
               calls + [(stage.name, model)]);
      }
    }
  }

  lemma Unnamed(config: Config, i: nat, results: Results)
    requires DistinctNames(config.stages) && i < |config.stages| && Ideal(config, i).Ok? && results == Ideal(config, i).value.0
    ensures !HasResult(results, config.stages[i].name)
  {
    IdealShape(config, i);
  }

  /** The next stage of a pipeline whose stages can all run. */
  lemma IdealNext(config: Config, i: nat, results: Results, previous: Option<string>) returns (made: StageResult)
    requires DistinctNames(config.stages) && i < |config.stages| && Ideal(config, |config.stages|).Ok?
    requires Ideal(config, i) == Ok((results, previous))
    ensures var stage := config.stages[i];
            && RunStage(config, stage, ModelFor(stage, previous)) == Ok(made)
            && Ideal(config, i + 1) == Ok((results + [(stage.name, made)], Inherit(made, previous)))
            && Put(results, stage.name, made) == results + [(stage.name, made)]
  {
    IdealPrefix(config, i + 1, |config.stages|);
    made := RunStage(config, config.stages[i], ModelFor(config.stages[i], previous)).value;
    Unnamed(config, i, results);
    PutNew(results, config.stages[i].name, made);
  }

  /** One turn of the loop that runs a stage. */
  lemma LoopGoesOn(config: Config, fails: Stage -> bool, i: nat, results: Results, previous: Option<string>, made: StageResult,
                   saved: Option<Results>, calls: seq<(string, Option<string>)>)
    requires i < |config.stages| && !fails(config.stages[i])
    requires RunStage(config, config.stages[i], ModelFor(config.stages[i], previous)) == Ok(made)
    ensures var stage := config.stages[i];
            var stored := Put(results, stage.name, made);
            Loop(config, "", fails, i, false, results, previous, saved, calls) ==
            Loop(config, "", fails, i + 1, false, stored, Inherit(made, previous), Some(WrittenAll(stored)),
                 calls + [(stage.name, ModelFor(stage, previous))])
  {
  }

  /** Without failures, a pipeline whose stages can all run completes. */
  lemma {:induction false} Completes(
    config: Config, i: nat, results: Results, previous: Option<string>, saved: Option<Results>, calls: seq<(string, Option<string>)>)
    requires DistinctNames(config.stages) && i <= |config.stages| && Ideal(config, |config.stages|).Ok?
    requires Ideal(config, i) == Ok((results, previous))
    ensures Loop(config, "", _ => false, i, false, results, previous, saved, calls).completed
    ensures Loop(config, "", _ => false, i, false, results, previous, saved, calls).results == Ideal(config, |config.stages|).value.0
    decreases |config.stages| - i
  {
    if i < |config.stages| {
      var stage := config.stages[i];
      var made := IdealNext(config, i, results, previous);
      var stored := results + [(stage.name, made)];
      LoopGoesOn(config, _ => false, i, results, previous, made, saved, calls);
      Completes(config, i + 1, stored, Inherit(made, previous), Some(WrittenAll(stored)),
                calls + [(stage.name, ModelFor(stage, previous))]);
    }
  }

  // ---- resuming ------------------------------------------------------------------------------------

  /** The last recorded output, if any stage recorded one. */
  function LastOutput(results: Results): Option<string> {
    if results == [] then None
    else
      var last := results[|results| - 1].1;
      if last.Completed? && last.output.Some? then last.output else LastOutput(results[..|results| - 1])
  }

  /** The output of the last result alone: what loading leaves to inherit. */
  function FinalOutput(results: Results): Option<string> {
    if results != [] && results[|results| - 1].1.Completed? then results[|results| - 1].1.output else None
  }

  lemma {:induction false} LastOutputWritten(results: Results)
    ensures LastOutput(WrittenAll(results)) == LastOutput(results)
  {
    if results != [] {
      var n := |results| - 1;
      LastOutputWritten(results[..n]);
      assert WrittenAll(results)[..n] == WrittenAll(results[..n]);
    }
  }

  lemma {:induction false} InheritsLastOutput(config: Config, n: nat)
    requires n <= |config.stages| && Ideal(config, n).Ok?
    ensures Ideal(config, n).value.1 == LastOutput(Ideal(config, n).value.0)
    ensures forall i :: 0 <= i < |Ideal(config, n).value.0| ==>
                          Ideal(config, n).value.0[i].1.Completed?
                          && (Ideal(config, n).value.0[i].1.output.Some? ==> Ideal(config, n).value.0[i].1.output.value != "")
  {
    if n > 0 {
      InheritsLastOutput(config, n - 1);
      var results := Ideal(config, n).value.0;
      assert results[..|results| - 1] == Ideal(config, n - 1).value.0;
    }
  }

  lemma {:induction false} Loads(saved: Results, name: string, k: nat, p: nat, done: Results)
    requires p <= k <= |saved| && done == saved[..p]
    requires k == |saved| || saved[k].0 == name
    requires forall i :: 0 <= i < k ==> saved[i].0 != name && saved[i].1.Completed?
    requires forall i, j :: 0 <= i < j < k ==> saved[i].0 != saved[j].0
    ensures Load(saved[p..], name, done, FinalOutput(done)) == (saved[..k], FinalOutput(saved[..k]))
    decreases k - p
  {
    if p < k {
      var (n, r) := saved[p];
      assert !HasResult(done, n);
      PutNew(done, n, r);
      assert saved[p..][0] == saved[p] && saved[p..][1..] == saved[p + 1..];
      assert saved[..p + 1] == done + [(n, r)];
      Loads(saved, name, k, p + 1, saved[..p + 1]);
    }
  }

  /** Skipping over the loaded stages finds the output the uninterrupted run hands on, even when the
      last of them, an evaluation, recorded none. */
  lemma {:induction false} Skips(
    config: Config, fails: Stage -> bool, k: nat, i: nat, results: Results, previous: Option<string>, saved: Option<Results>)
    requires DistinctNames(config.stages) && i <= k < |config.stages|
    requires Ideal(config, k).Ok? && results == WrittenAll(Ideal(config, k).value.0)
    requires |results| == k && previous == if LastOutput(results[..i]).Some? then LastOutput(results[..i]) else FinalOutput(results)
    ensures Loop(config, config.stages[k].name, fails, i, true, results, previous, saved, [])
         == Loop(config, config.stages[k].name, fails, k, true, results, Ideal(config, k).value.1, saved, [])
    decreases k - i
  {
    if i == k {
      InheritsLastOutput(config, k);
      LastOutputWritten(Ideal(config, k).value.0);
      assert results[..k] == results;
    } else {
      var next := SkipOutput(results, config.stages[i].name, previous);
      SkipsOne(config, k, i, results, previous);
      assert config.stages[i].name != config.stages[k].name;
      Skips(config, fails, k, i + 1, results, next, saved);
    }
  }

  /** The result under a name that occurs once. */
  lemma OneResult(results: Results, i: nat)
    requires i < |results| && forall j :: 0 <= j < |results| && results[j].0 == results[i].0 ==> j == i
    ensures HasResult(results, results[i].0) && ResultOf(results, results[i].0) == results[i].1
  {
  }

  /** What is recorded of a stage, and found under its name. */
  lemma RecordedAt(config: Config, k: nat, i: nat, results: Results)
    requires DistinctNames(config.stages) && i < k < |config.stages|
    requires Ideal(config, k).Ok? && results == WrittenAll(Ideal(config, k).value.0)
    ensures |results| == k && results[i].1.Completed? && (results[i].1.output.Some? ==> results[i].1.output.value != "")
    ensures HasResult(results, config.stages[i].name) && ResultOf(results, config.stages[i].name) == results[i].1
  {
    InheritsLastOutput(config, k);
    IdealShape(config, k);
    assert results[i].0 == config.stages[i].name;
    OneResult(results, i);
  }

  /** One skipped stage: its recorded output is the last one so far, or nothing changes. */
  lemma SkipsOne(config: Config, k: nat, i: nat, results: Results, previous: Option<string>)
    requires DistinctNames(config.stages) && i < k < |config.stages|
    requires Ideal(config, k).Ok? && results == WrittenAll(Ideal(config, k).value.0) && |results| == k
    requires previous == if LastOutput(results[..i]).Some? then LastOutput(results[..i]) else FinalOutput(results)
    ensures SkipOutput(results, config.stages[i].name, previous)
         == if LastOutput(results[..i + 1]).Some? then LastOutput(results[..i + 1]) else FinalOutput(results)
  {
    RecordedAt(config, k, i, results);
    assert results[..i + 1][..i] == results[..i];
    assert LastOutput(results[..i + 1]) == if results[i].1.output.Some? then results[i].1.output else LastOutput(results[..i]);
  }

  /** The stage to resume from is recorded as failed, or comes before everything that is. */
  predicate CanResume(config: Config, saved: Results, k: nat) {
    k < |config.stages| && k <= |saved| && forall i :: 0 <= i < k ==> saved[i].1.Completed?
  }

  /** One attempt, resumed or fresh, from a state some attempt left. */
  lemma AttemptFollows(config: Config, resume: Option<nat>, saved: Option<Results>, fails: Stage -> bool)
    requires DistinctNames(config.stages) && (config.stages == [] ==> saved.None?)
    requires saved.Some? ==> exists j: nat :: Records(config, saved.value, j)
    requires resume.Some? ==> saved.Some? && CanResume(config, saved.value, resume.value)
    ensures Follows(config, Attempt(config, if resume.Some? then Some(config.stages[resume.value].name) else None, saved, fails),
                    if resume.Some? then resume.value else 0)
  {
    if resume.None? {
      RunsOn(config, "", fails, 0, 0, [], None, saved, []);
    } else {
      ResumedFollows(config, resume.value, saved.value, fails);
    }
  }

  /** What is recorded before the stage to resume from is the uninterrupted run's. */
  lemma RecordedBefore(config: Config, saved: Results, k: nat)
    requires exists j: nat :: Records(config, saved, j)
    requires CanResume(config, saved, k)
    ensures Ideal(config, k).Ok? && saved[..k] == WrittenAll(Ideal(config, k).value.0)
    ensures forall i :: 0 <= i < |saved| && i < |config.stages| ==> saved[i].0 == config.stages[i].name
    ensures |saved| <= |config.stages|
  {
    var j: nat :| Records(config, saved, j);
    RecordedNames(config, saved, j);
    if k > j {
      assert false;
    }
    IdealPrefix(config, k, j);
    assert saved[..k] == WrittenAll(Ideal(config, j).value.0[..k]);
  }

  lemma RecordedNames(config: Config, saved: Results, j: nat)
    requires Records(config, saved, j)
    ensures j <= |saved| <= j + 1 && |saved| <= |config.stages| && saved[..j] == WrittenAll(Ideal(config, j).value.0)
    ensures |saved| == j + 1 ==> saved[j].1.Failed?
    ensures forall i :: 0 <= i < |saved| && i < |config.stages| ==> saved[i].0 == config.stages[i].name
  {
    IdealShape(config, j);
  }

  /** A resumed attempt takes up the loop at the stage it names, with what is recorded before. */
  lemma ResumedStarts(config: Config, k: nat, saved: Results, fails: Stage -> bool)
    requires DistinctNames(config.stages)
    requires exists j: nat :: Records(config, saved, j)
    requires CanResume(config, saved, k)
    ensures Ideal(config, k).Ok? && saved[..k] == WrittenAll(Ideal(config, k).value.0)
    ensures Attempt(config, Some(config.stages[k].name), Some(saved), fails)
         == Loop(config, config.stages[k].name, fails, k, true, saved[..k], Ideal(config, k).value.1, Some(saved), [])
  {
    var name, results := config.stages[k].name, saved[..k];
    RecordedBefore(config, saved, k);
    Loads(saved, name, k, 0, []);
    assert saved[0..] == saved;
    assert results[..0] == [];
    Skips(config, fails, k, 0, results, FinalOutput(results), Some(saved));
  }

  lemma ResumedFollows(config: Config, k: nat, saved: Results, fails: Stage -> bool)
    requires DistinctNames(config.stages)
    requires exists j: nat :: Records(config, saved, j)
    requires CanResume(config, saved, k)
    ensures Follows(config, Attempt(config, Some(config.stages[k].name), Some(saved), fails), k)
  {
    ResumedStarts(config, k, saved, fails);
    var name, results, previous := config.stages[k].name, saved[..k], Ideal(config, k).value.1;
    assert Loop(config, name, fails, k, true, results, previous, Some(saved), [])
        == Loop(config, name, fails, k, false, results, previous, Some(saved), []);
    assert Reread(Ideal(config, k).value.0, k) == results by { IdealShape(config, k); assert Ideal(config, k).value.0[..k] == Ideal(config, k).value.0; }
    RunsOn(config, name, fails, k, k, results, previous, Some(saved), []);
  }

  // ---- whole histories -----------------------------------------------------------------------------

  datatype Try = Try(resume: Option<nat>, fails: Stage -> bool)

  /** The outcome of try *t*, each try starting from the state file the one before left. */
  function OutcomeOf(config: Config, tries: seq<Try>, t: nat): Outcome
    requires t < |tries|
    decreases t, 1
  {
    var resume := tries[t].resume;
    Attempt(config,
            if resume.Some? && resume.value < |config.stages| then Some(config.stages[resume.value].name) else None,
            SavedBefore(config, tries, t), tries[t].fails)
  }

  function SavedBefore(config: Config, tries: seq<Try>, t: nat): Option<Results>
    requires t <= |tries|
    decreases t, 0
  {
    if t == 0 then None else OutcomeOf(config, tries, t - 1).saved
  }

  /** Every resumed try names the failed stage or an earlier one. */
  predicate Resumable(config: Config, tries: seq<Try>) {
    forall t :: 0 <= t < |tries| && tries[t].resume.Some? ==>
                  && SavedBefore(config, tries, t).Some?
                  && CanResume(config, SavedBefore(config, tries, t).value, tries[t].resume.value)
  }

  /** The first stage try *t* runs: those before it are read from the state file. */
  function FirstRun(tries: seq<Try>, t: nat): nat
    requires t < |tries|
  {
    if tries[t].resume.Some? then tries[t].resume.value else 0
  }

  lemma {:induction false} TryFollows(config: Config, tries: seq<Try>, t: nat)
    requires DistinctNames(config.stages) && Resumable(config, tries) && t < |tries|
    ensures Follows(config, OutcomeOf(config, tries, t), FirstRun(tries, t))
  {
    if t > 0 {
      TryFollows(config, tries, t - 1);
      var before := OutcomeOf(config, tries, t - 1);
      var j: nat :| Reached(config, before.results, j, FirstRun(tries, t - 1));
      ReachedRecords(config, before.results, j, FirstRun(tries, t - 1));
    }
    AttemptFollows(config, tries[t].resume, SavedBefore(config, tries, t), tries[t].fails);
  }

  /** The uninterrupted run: what it leaves. */
  lemma WholeRun(config: Config)
    requires DistinctNames(config.stages) && Ideal(config, |config.stages|).Ok?
    ensures Attempt(config, None, None, _ => false).completed
    ensures Attempt(config, None, None, _ => false).results == Ideal(config, |config.stages|).value.0
    ensures Follows(config, Attempt(config, None, None, _ => false), 0)
  {
    Completes(config, 0, [], None, None, []);
    RunsOn(config, "", _ => false, 0, 0, [], None, None, []);
  }

  /** What two attempts that complete have in common: the state file, and the results up to reading back. */
  lemma BothComplete(config: Config, outcome: Outcome, k: nat, whole: Outcome)
    requires Follows(config, outcome, k) && outcome.completed
    requires Follows(config, whole, 0) && Ideal(config, |config.stages|).Ok?
    requires whole.results == Ideal(config, |config.stages|).value.0
    ensures outcome.saved == whole.saved && k <= |whole.results| && outcome.results == Reread(whole.results, k)
    ensures outcome.results == whole.results <==> forall i :: 0 <= i < k ==> PlainResult(whole.results[i].1)
  {
    WrittenReread(whole.results, k);
    RereadPlain(whole.results, k);
  }

  /** Main result: after any sequence of failures and resumes, every stage that runs gets the model path of
      an uninterrupted run. A try that completes leaves the state file of that run, and its results, those
      it did not run itself as the state file gives them back: the same if and only if their metrics are
      values JSON gives back. */
  lemma ResumeRefinesUninterruptedRun(config: Config, tries: seq<Try>, t: nat)
    requires DistinctNames(config.stages) && Resumable(config, tries) && t < |tries|
    ensures IdealCalls(config, OutcomeOf(config, tries, t).calls)
    ensures OutcomeOf(config, tries, t).completed ==>
              var whole := Attempt(config, None, None, _ => false);
              && whole.completed && OutcomeOf(config, tries, t).saved == whole.saved
              && FirstRun(tries, t) <= |whole.results|
              && OutcomeOf(config, tries, t).results == Reread(whole.results, FirstRun(tries, t))
              && (OutcomeOf(config, tries, t).results == whole.results
                  <==> forall i :: 0 <= i < FirstRun(tries, t) ==> PlainResult(whole.results[i].1))
  {
    TryFollows(config, tries, t);
    if OutcomeOf(config, tries, t).completed {
      WholeRun(config);
      BothComplete(config, OutcomeOf(config, tries, t), FirstRun(tries, t), Attempt(config, None, None, _ => false));
    }
  }
}
