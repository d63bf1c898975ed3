/** What a pipeline does, on its configuration alone: which stages run, in what order, on which model, and what
    each leaves to the next. */
module PipelineMeaning {
  import opened Util
  import opened Pipeline

  // ---- one stage -------------------------------------------------------------------------------

  /** Where a stage puts a model: training into its own directory, an export where its settings say. */
  function Produces(config: Config, stage: Stage): Option<string> {
    if stage.recipe != "" then Some(config.outputDir + "/" + stage.name)
    else if stage.exports == "push_to_hub" then Some(stage.repo)
    else if stage.exports != "" && stage.saveTo != "" then Some(stage.saveTo)
    else if stage.exports == "merge" then Some(config.outputDir + "/" + stage.name)
    else if stage.exports == "gguf" then Some(config.outputDir + "/" + stage.name + "/model.gguf")
    else None
  }

  /** Training comes before exporting, and exporting before evaluating, when a stage asks for more than one. */
  predicate Runnable(stage: Stage) {
    if stage.recipe != "" then stage.recipe == "finetune" || stage.recipe == "pretrain" || stage.recipe == "align"
    else if stage.exports != "" then
      stage.exports == "merge" || stage.exports == "gguf" || (stage.exports == "push_to_hub" && stage.repo != "")
    else stage.evaluates
  }

  /** The result of a stage that ran. */
  predicate Leaves(config: Config, stage: Stage, model: string, result: StageResult) {
    && result.Completed? && result.output == Produces(config, stage)
    && (result.kind.Train? <==> stage.recipe != "")
    && (result.kind.Export? <==> stage.recipe == "" && stage.exports != "")
    && result.metrics == if result.kind.Export? then map[] else config.metrics(stage, model)
  }

  lemma StageRuns(config: Config, stage: Stage, model: Option<string>)
    ensures RunStage(config, stage, model).Ok? <==> model.Some? && Runnable(stage)
    ensures RunStage(config, stage, model).Ok? ==> Leaves(config, stage, model.value, RunStage(config, stage, model).value)
  {
    var path := config.outputDir + "/" + stage.name;
    assert path == OutputPath(config, stage);
    assert |"merge"| == 5 && |"gguf"| == 4 && |"push_to_hub"| == 11;
  }

  // ---- the model of each stage -------------------------------------------------------------------

  /** What the stages before stage *k* hand on: what the last of them that puts a model anywhere produces. */
  function Handed(config: Config, k: nat): Option<string>
    requires k <= |config.stages|
  {
    if k == 0 then None
    else if Produces(config, config.stages[k - 1]).Some? then Produces(config, config.stages[k - 1])
    else Handed(config, k - 1)
  }

  lemma {:induction false} HandedIsTheLast(config: Config, k: nat, j: nat)
    requires j < k <= |config.stages| && Produces(config, config.stages[j]).Some?
    requires forall i :: j < i < k ==> Produces(config, config.stages[i]).None?
    ensures Handed(config, k) == Produces(config, config.stages[j])
  {
    if j < k - 1 { HandedIsTheLast(config, k - 1, j); }
  }

  /** A stage runs on the model it names, or else on what was handed on. */
  function Given(config: Config, k: nat): Option<string>
    requires k < |config.stages|
  {
    if config.stages[k].modelName == "" then Handed(config, k) else Some(config.stages[k].modelName)
  }

  /** The stage has a model, and can run. */
  predicate Fine(config: Config, k: nat)
    requires k < |config.stages|
  {
    Given(config, k).Some? && Runnable(config.stages[k])
  }

  lemma {:induction false} Hands(config: Config, n: nat)
    requires n <= |config.stages| && Ideal(config, n).Ok?
    ensures Ideal(config, n).value.1 == Handed(config, n)
  {
    if n > 0 {
      var stage := config.stages[n - 1];
      Hands(config, n - 1);
      StageRuns(config, stage, ModelFor(stage, Ideal(config, n - 1).value.1));
      if stage.exports == "push_to_hub" && stage.recipe == "" { assert stage.repo != ""; }
      ProducesSomething(config, stage);
    }
  }

  lemma ProducesSomething(config: Config, stage: Stage)
    requires Runnable(stage)
    ensures Produces(config, stage).Some? <==> stage.recipe != "" || stage.exports != ""
    ensures Produces(config, stage).Some? ==> Produces(config, stage).value != ""
  {
  }

  /** The uninterrupted run gets as far as its stages can run. */
  lemma {:induction false} RunsAsFar(config: Config, n: nat)
    requires n <= |config.stages|
    ensures Ideal(config, n).Ok? <==> forall k :: 0 <= k < n ==> Fine(config, k)
  {
    if n > 0 {
      RunsAsFar(config, n - 1);
      if Ideal(config, n - 1).Ok? {
        IdealRuns(config, n - 1);
      }
    }
  }

  /** One more stage of the uninterrupted run. */
  lemma IdealRuns(config: Config, n: nat)
    requires n < |config.stages| && Ideal(config, n).Ok?
    ensures ModelFor(config.stages[n], Ideal(config, n).value.1) == Given(config, n)
    ensures Ideal(config, n + 1).Ok? <==> Fine(config, n)
    ensures RunStage(config, config.stages[n], Given(config, n)).Ok? <==> Fine(config, n)
  {
    Hands(config, n);
    StageRuns(config, config.stages[n], Given(config, n));
  }

  /** Main result: what the uninterrupted run records: every stage, in order, on its model. */
  lemma {:induction false} Recorded(config: Config, n: nat, k: nat)
    requires k < n <= |config.stages| && Ideal(config, n).Ok?
    ensures |Ideal(config, n).value.0| == n && Given(config, k).Some?
    ensures Ideal(config, n).value.0[k].0 == config.stages[k].name
    ensures Leaves(config, config.stages[k], Given(config, k).value, Ideal(config, n).value.0[k].1)
  {
    if k == n - 1 {
      IdealRuns(config, n - 1);
      StageRuns(config, config.stages[k], Given(config, k));
    } else {
      Recorded(config, n - 1, k);
    }
  }

  // ---- the stages an attempt runs ------------------------------------------------------------------

  /** Stages *i* up to *j*, each on its model. */
  function Calls(config: Config, i: nat, j: nat): seq<(string, Option<string>)>
    requires i <= j <= |config.stages|
  {
    seq(j - i, n requires 0 <= n < j - i => (config.stages[i + n].name, Given(config, i + n)))
  }

  lemma CallsNext(config: Config, i: nat, j: nat)
    requires i < j <= |config.stages|
    ensures Calls(config, i, j) == [(config.stages[i].name, Given(config, i))] + Calls(config, i + 1, j)
  {
  }

  /** An attempt that runs the stages from *i* on, in order, up to the first that fails or cannot run. */
  ghost predicate RunsUpTo(config: Config, fails: Stage -> bool, i: nat, calls: seq<(string, Option<string>)>, outcome: Outcome, j: nat) {
    && i <= j <= |config.stages|
    && (forall k :: i <= k < j ==> Fine(config, k) && !fails(config.stages[k]))
    && (outcome.completed <==> j == |config.stages|)
    && (j < |config.stages| ==> !Fine(config, j) || fails(config.stages[j]))
    && outcome.calls == calls + Calls(config, i, if j < |config.stages| then j + 1 else j)
  }

  lemma RunsOneMore(config: Config, fails: Stage -> bool, i: nat, calls: seq<(string, Option<string>)>, outcome: Outcome, j: nat)
    requires i < |config.stages| && Fine(config, i) && !fails(config.stages[i])
    requires RunsUpTo(config, fails, i + 1, calls + [(config.stages[i].name, Given(config, i))], outcome, j)
    ensures RunsUpTo(config, fails, i, calls, outcome, j)
  {
    CallsNext(config, i, if j < |config.stages| then j + 1 else j);
  }

  lemma {:induction false} LoopRuns(
    config: Config, resumeFrom: string, fails: Stage -> bool, i: nat,
    results: Results, previous: Option<string>, saved: Option<Results>, calls: seq<(string, Option<string>)>) returns (j: nat)
    requires i <= |config.stages| && Ideal(config, i).Ok? && previous == Ideal(config, i).value.1
    ensures RunsUpTo(config, fails, i, calls, Loop(config, resumeFrom, fails, i, false, results, previous, saved, calls), j)
    decreases |config.stages| - i
  {
    j := i;
    if i < |config.stages| {
      var stage, model := config.stages[i], Given(config, i);
      IdealRuns(config, i);
      if Fine(config, i) && !fails(stage) {
        var made := RunStage(config, stage, model).value;
        var stored := Put(results, stage.name, made);
        j := LoopRuns(config, resumeFrom, fails, i + 1, stored, Inherit(made, previous), Some(WrittenAll(stored)), calls + [(stage.name, model)]);
        RunsOneMore(config, fails, i, calls, Loop(config, resumeFrom, fails, i, false, results, previous, saved, calls), j);
      } else {
        assert Calls(config, i, i + 1) == [(stage.name, model)];
      }
    }
  }

  /** Main result: an attempt runs the stages from the one it starts at, in order and each once, on the models of the
      uninterrupted run, up to the first that fails or cannot run; it completes if there is none. */
  lemma TryRuns(config: Config, tries: seq<Try>, t: nat) returns (j: nat)
    requires DistinctNames(config.stages) && Resumable(config, tries) && t < |tries|
    ensures RunsUpTo(config, tries[t].fails, FirstRun(tries, t), [], OutcomeOf(config, tries, t), j)
  {
    var saved, fails := SavedBefore(config, tries, t), tries[t].fails;
    if tries[t].resume.None? {
      j := LoopRuns(config, "", fails, 0, [], None, saved, []);
    } else {
      SavedRecords(config, tries, t);
      var k := tries[t].resume.value;
      ResumedStarts(config, k, saved.value, fails);
      var name, results, previous := config.stages[k].name, saved.value[..k], Ideal(config, k).value.1;
      assert Loop(config, name, fails, k, true, results, previous, saved, [])
          == Loop(config, name, fails, k, false, results, previous, saved, []);
      j := LoopRuns(config, name, fails, k, results, previous, saved, []);
    }
  }

  /** What a try starts from is what some stages recorded. */
  lemma SavedRecords(config: Config, tries: seq<Try>, t: nat)
    requires DistinctNames(config.stages) && Resumable(config, tries) && t < |tries| && tries[t].resume.Some?
    ensures SavedBefore(config, tries, t).Some? && exists j: nat :: Records(config, SavedBefore(config, tries, t).value, j)
  {
    var before := OutcomeOf(config, tries, t - 1);
    TryFollows(config, tries, t - 1);
    var j: nat :| Reached(config, before.results, j, FirstRun(tries, t - 1));
    ReachedRecords(config, before.results, j, FirstRun(tries, t - 1));
  }
}
