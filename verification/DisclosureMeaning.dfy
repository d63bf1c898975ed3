/** What a released report says, on the tasks and their observations: which values it releases and what they are,
    which it withholds, what it counts as absent, and when it fails. */
module DisclosureMeaning {
  import opened Util
  import opened Disclosure

  // ---- what was observed ---------------------------------------------------------------------------

  /** The first observation of the metric is this. */
  predicate Observed(observations: seq<Observation>, m: Metric, o: Outcome) {
    exists i :: 0 <= i < |observations| && observations[i] == Observation(m, o) && forall j :: 0 <= j < i ==> observations[j].metric != m
  }

  lemma {:induction false} ObservedIs(observations: seq<Observation>, m: Metric, o: Outcome)
    ensures Find(observations, m) == Some(o) <==> Observed(observations, m, o)
  {
    if observations != [] {
      var rest := observations[1..];
      ObservedIs(rest, m, o);
      if observations[0].metric != m {
        if Observed(rest, m, o) {
          var i :| 0 <= i < |rest| && rest[i] == Observation(m, o) && forall j :: 0 <= j < i ==> rest[j].metric != m;
          assert observations[i + 1] == rest[i];
          forall j | 0 <= j < i + 1 ensures observations[j].metric != m { if j > 0 { assert observations[j] == rest[j - 1]; } }
        }
        if Observed(observations, m, o) {
          var i :| 0 <= i < |observations| && observations[i] == Observation(m, o) && forall j :: 0 <= j < i ==> observations[j].metric != m;
          assert rest[i - 1] == observations[i];
          forall j | 0 <= j < i - 1 ensures rest[j].metric != m { assert rest[j] == observations[j + 1]; }
        }
      }
    }
  }

  /** The metric has these values, one a task. */
  predicate Measured(tasks: seq<Task>, m: Metric, values: seq<real>) {
    && |values| == |tasks| > 0
    && forall i :: 0 <= i < |tasks| ==> Observed(tasks[i].observations, m, Value(values[i]))
  }

  function Total(values: seq<real>): real {
    if values == [] then 0.0 else Total(values[..|values| - 1]) + values[|values| - 1]
  }

  /** A metric with a value on every task. */
  ghost predicate Everywhere(tasks: seq<Task>, m: Metric) {
    exists values :: Measured(tasks, m, values)
  }

  function ValuesOf(column: seq<Option<Outcome>>): seq<real>
    requires forall i :: 0 <= i < |column| ==> IsValue(column[i])
  {
    seq(|column|, i requires 0 <= i < |column| && IsValue(column[i]) => column[i].value.value)
  }

  lemma {:induction false} SumIsTotal(column: seq<Option<Outcome>>)
    requires forall i :: 0 <= i < |column| ==> IsValue(column[i])
    ensures Sum(column) == Total(ValuesOf(column))
  {
    if column != [] {
      var n := |column| - 1;
      SumIsTotal(column[..n]);
      assert ValuesOf(column)[..n] == ValuesOf(column[..n]);
    }
  }

  lemma MeasuredIs(tasks: seq<Task>, m: Metric, values: seq<real>)
    ensures Measured(tasks, m, values) <==> Whole(Column(tasks, m)) && values == ValuesOf(Column(tasks, m))
  {
    var column := Column(tasks, m);
    if |values| == |tasks| {
      forall i | 0 <= i < |tasks|
        ensures Observed(tasks[i].observations, m, Value(values[i])) <==> column[i] == Some(Value(values[i]))
      {
        ObservedIs(tasks[i].observations, m, Value(values[i]));
      }
    }
  }

  lemma WholeIsEverywhere(tasks: seq<Task>, m: Metric)
    ensures Whole(Column(tasks, m)) <==> Everywhere(tasks, m)
  {
    if Whole(Column(tasks, m)) {
      MeasuredIs(tasks, m, ValuesOf(Column(tasks, m)));
    }
    if Everywhere(tasks, m) {
      var values :| Measured(tasks, m, values);
      MeasuredIs(tasks, m, values);
    }
  }

  // ---- what is released ----------------------------------------------------------------------------

  /** The mean is the total by the number of tasks. */
  predicate IsMean(mean: real, values: seq<real>) {
    mean * |values| as real == Total(values)
  }

  lemma QuotientIs(s: real, n: real, q: real)
    requires n > 0.0
    ensures q == s / n <==> q * n == s
  {
    assert s / n * n == s;
    if q * n == s { assert q == q * n / n; }
  }

  lemma MeanIs(tasks: seq<Task>, m: Metric, values: seq<real>, mean: real)
    requires Measured(tasks, m, values)
    ensures Column(tasks, m) != [] && (mean == Mean(Column(tasks, m)) <==> IsMean(mean, values))
  {
    MeasuredIs(tasks, m, values);
    SumIsTotal(Column(tasks, m));
    QuotientIs(Total(values), |tasks| as real, mean);
  }

  /** Main result: what is released. A metric of the list with a value on every task, over all of them, as the mean
      of these values and no slice; unless it is computed from the reference and there is one task. */
  lemma ReleasedExactly(tasks: seq<Task>, metrics: seq<Metric>, units: Metric -> string, v: RunValue)
    ensures v in ReportOf(tasks, metrics, units).released <==>
            && v.metric in metrics && !v.slice && v.samples == |tasks| && v.unit == units(v.metric)
            && (v.metric.TaskSuccess? || v.metric.Quality? ==> |tasks| != 1)
            && exists values :: Measured(tasks, v.metric, values) && IsMean(v.value, values)
  {
    ReleasedTell(Values(tasks, metrics, units), v);
    if !v.slice {
      ValuesTell(tasks, metrics, units, v);
      RunValueIs(tasks, units, v);
    }
  }

  lemma RunValueIs(tasks: seq<Task>, units: Metric -> string, v: RunValue)
    ensures IsRunValue(tasks, units, v) <==>
            && !v.slice && v.samples == |tasks| && v.unit == units(v.metric)
            && exists values :: Measured(tasks, v.metric, values) && IsMean(v.value, values)
  {
    var column := Column(tasks, v.metric);
    WholeIsEverywhere(tasks, v.metric);
    if Whole(column) {
      var values := ValuesOf(column);
      MeasuredIs(tasks, v.metric, values);
      MeanIs(tasks, v.metric, values, v.value);
      forall w | Measured(tasks, v.metric, w) ensures w == values { MeasuredIs(tasks, v.metric, w); }
    }
  }

  // ---- what is withheld ----------------------------------------------------------------------------

  /** Every task was scored. */
  ghost predicate AllScored(tasks: seq<Task>) {
    Everywhere(tasks, TaskSuccess)
  }

  /** A task was scored a success. */
  ghost predicate SomeSuccess(tasks: seq<Task>) {
    exists t :: t in tasks && Observed(t.observations, TaskSuccess, Value(1.0))
  }

  lemma {:induction false} SuccessesIs(tasks: seq<Task>, t: Task)
    ensures t in Successes(tasks) <==> t in tasks && Observed(t.observations, TaskSuccess, Value(1.0))
  {
    if tasks != [] {
      var n := |tasks| - 1;
      SuccessesIs(tasks[..n], t);
      ObservedIs(tasks[n].observations, TaskSuccess, Value(1.0));
      assert tasks == tasks[..n] + [tasks[n]];
    }
  }

  lemma SucceededIs(tasks: seq<Task>)
    ensures Succeeded(tasks) != [] <==> AllScored(tasks) && SomeSuccess(tasks)
    ensures forall t :: t in Succeeded(tasks) ==> t in tasks
  {
    WholeIsEverywhere(tasks, TaskSuccess);
    forall t ensures t in Successes(tasks) <==> t in tasks && Observed(t.observations, TaskSuccess, Value(1.0)) { SuccessesIs(tasks, t); }
    if Successes(tasks) != [] { assert Successes(tasks)[0] in Successes(tasks); }
  }

  /** Main result: what is withheld. The value of a metric computed from the reference over one task; and the slice of
      every other metric that has one: with a value on every task, all tasks being scored and one a success. */
  lemma WithheldExactly(tasks: seq<Task>, metrics: seq<Metric>, units: Metric -> string, m: Metric)
    ensures (m, false) in ReportOf(tasks, metrics, units).withheld <==>
            m in metrics && (m.TaskSuccess? || m.Quality?) && |tasks| == 1 && Everywhere(tasks, m)
    ensures (m, true) in ReportOf(tasks, metrics, units).withheld <==>
            m in metrics && m.Execution? && Everywhere(tasks, m) && AllScored(tasks) && SomeSuccess(tasks)
  {
    WholeWithheld(tasks, metrics, units, m);
    SliceWithheld(tasks, metrics, units, m);
  }

  lemma WholeWithheld(tasks: seq<Task>, metrics: seq<Metric>, units: Metric -> string, m: Metric)
    ensures (m, false) in Withheld(Values(tasks, metrics, units)) <==>
            m in metrics && (m.TaskSuccess? || m.Quality?) && |tasks| == 1 && Everywhere(tasks, m)
  {
    var values, column := Values(tasks, metrics, units), Column(tasks, m);
    WithheldTell(values, (m, false));
    WholeIsEverywhere(tasks, m);
    if Whole(column) { ValuesTell(tasks, metrics, units, RunValue(m, false, Mean(column), |column|, units(m))); }
    forall v | v in values && !v.slice && v.metric == m ensures IsRunValue(tasks, units, v) && m in metrics {
      ValuesTell(tasks, metrics, units, v);
    }
  }

  lemma SliceWithheld(tasks: seq<Task>, metrics: seq<Metric>, units: Metric -> string, m: Metric)
    ensures (m, true) in Withheld(Values(tasks, metrics, units)) <==>
            m in metrics && m.Execution? && Everywhere(tasks, m) && AllScored(tasks) && SomeSuccess(tasks)
  {
    WithheldTell(Values(tasks, metrics, units), (m, true));
    SlicesTell(tasks, metrics, units, m);
    WholeIsEverywhere(tasks, m);
    SucceededIs(tasks);
    if Whole(Column(tasks, m)) { WholeSubset(tasks, Succeeded(tasks), m); }
  }

  // ---- absences, tasks and the failure --------------------------------------------------------------

  function AbsentIn(column: seq<Option<Outcome>>, reason: Reason): set<nat> {
    set i | 0 <= i < |column| && column[i] == Some(Absent(reason))
  }

  lemma {:induction false} AbsencesCount(column: seq<Option<Outcome>>, reason: Reason)
    ensures Absences(column, reason) == |AbsentIn(column, reason)|
  {
    if column != [] {
      var n := |column| - 1;
      AbsencesCount(column[..n], reason);
      assert AbsentIn(column, reason) == AbsentIn(column[..n], reason) + if column[n] == Some(Absent(reason)) then {n} else {};
    }
  }

  /** The tasks on which the metric is absent for this reason. */
  function AbsentOn(tasks: seq<Task>, m: Metric, reason: Reason): set<nat> {
    set i | 0 <= i < |tasks| && Observed(tasks[i].observations, m, Absent(reason))
  }

  lemma AbsencesAreTasks(tasks: seq<Task>, m: Metric, reason: Reason)
    ensures Absences(Column(tasks, m), reason) == |AbsentOn(tasks, m, reason)|
  {
    AbsencesCount(Column(tasks, m), reason);
    forall i | 0 <= i < |tasks|
      ensures Observed(tasks[i].observations, m, Absent(reason)) <==> Column(tasks, m)[i] == Some(Absent(reason))
    {
      ObservedIs(tasks[i].observations, m, Absent(reason));
    }
    assert AbsentOn(tasks, m, reason) == AbsentIn(Column(tasks, m), reason);
  }

  /** The absences reported: each metric and reason there is, with the number of tasks. */
  lemma AbsencesExactly(tasks: seq<Task>, metrics: seq<Metric>, units: Metric -> string, c: AbsenceCount)
    ensures c in ReportOf(tasks, metrics, units).absences <==>
            c.metric in metrics && c.tasks == |AbsentOn(tasks, c.metric, c.reason)| > 0
  {
    CountsTell(tasks, metrics, c);
    AbsencesAreTasks(tasks, c.metric, c.reason);
  }

  /** The tasks reported are the tasks, each with its execution observations in order. */
  lemma TasksExactly(tasks: seq<Task>, metrics: seq<Metric>, units: Metric -> string)
    ensures var shown := ReportOf(tasks, metrics, units).tasks;
            && |shown| == |tasks|
            && forall i :: 0 <= i < |tasks| ==>
                 shown[i].id == tasks[i].id && shown[i].position == tasks[i].position && OnlyExecution(shown[i].observations, tasks[i].observations)
  {
    forall i | 0 <= i < |tasks| ensures OnlyExecution(WithoutReference(tasks[i].observations), tasks[i].observations) {
      ExecutionKept(tasks[i].observations);
    }
  }

  /** The observations of execution metrics, in order. */
  predicate OnlyExecution(shown: seq<Observation>, all: seq<Observation>) {
    if all == [] then shown == []
    else if all[0].metric.Execution? then shown != [] && shown[0] == all[0] && OnlyExecution(shown[1..], all[1..])
    else OnlyExecution(shown, all[1..])
  }

  lemma {:induction false} ExecutionKept(observations: seq<Observation>)
    ensures OnlyExecution(WithoutReference(observations), observations)
  {
    if observations != [] {
      ExecutionKept(observations[1..]);
      var kept := WithoutReference(observations[1..]);
      assert [] + kept == kept && ([observations[0]] + kept)[1..] == kept;
    }
  }

  lemma RowSome(tasks: seq<Task>, succeeded: seq<Task>, m: Metric, unit: string)
    ensures RowValues(tasks, succeeded, m, unit) != [] <==> Whole(Column(tasks, m))
  {
  }

  lemma {:induction false} SomeValue(tasks: seq<Task>, metrics: seq<Metric>, units: Metric -> string)
    ensures Values(tasks, metrics, units) != [] <==> exists m :: m in metrics && Whole(Column(tasks, m))
  {
    if metrics != [] {
      var n := |metrics| - 1;
      SomeValue(tasks, metrics[..n], units);
      RowSome(tasks, Succeeded(tasks), metrics[n], units(metrics[n]));
      assert metrics == metrics[..n] + [metrics[n]];
    }
  }

  /** Every score and quality that was recorded was cancelled. */
  predicate NothingScored(tasks: seq<Task>) {
    forall t, o :: t in tasks && o in t.observations && (o.metric.TaskSuccess? || o.metric.Quality?) ==> o.outcome == Absent(UnscoredCancelled)
  }

  /** When a report fails, and how it says so: nothing scored, no metric with a value everywhere, or only ones that are
      withheld. */
  lemma FailsExactly(tasks: seq<Task>, metrics: seq<Metric>, units: Metric -> string)
    ensures var failure := ReportOf(tasks, metrics, units).failure;
            && (failure == Some(AllCancelled) <==> NothingScored(tasks))
            && (failure == Some(NoRunValue) <==> !NothingScored(tasks) && forall m :: m in metrics ==> !Everywhere(tasks, m))
            && (failure == Some(AllWithheld) <==>
                  && !NothingScored(tasks) && (exists m :: m in metrics && Everywhere(tasks, m))
                  && |tasks| == 1 && forall m :: m in metrics && Everywhere(tasks, m) ==> m.TaskSuccess? || m.Quality?)
  {
    SomeValue(tasks, metrics, units);
    forall m | m in metrics ensures Whole(Column(tasks, m)) <==> Everywhere(tasks, m) { WholeIsEverywhere(tasks, m); }
    SomeReleased(tasks, metrics, units);
  }

  lemma SomeReleased(tasks: seq<Task>, metrics: seq<Metric>, units: Metric -> string)
    ensures Released(Values(tasks, metrics, units)) != [] <==>
            exists m :: m in metrics && Everywhere(tasks, m) && (m.TaskSuccess? || m.Quality? ==> |tasks| != 1)
  {
    var released := Released(Values(tasks, metrics, units));
    if released != [] {
      var v := released[0];
      assert v in released;
      ReleasedExactly(tasks, metrics, units, v);
    }
    forall m | m in metrics && Everywhere(tasks, m) && (m.TaskSuccess? || m.Quality? ==> |tasks| != 1) ensures released != [] {
      MeasuredReleased(tasks, metrics, units, m);
    }
  }

  lemma MeasuredReleased(tasks: seq<Task>, metrics: seq<Metric>, units: Metric -> string, m: Metric)
    requires m in metrics && Everywhere(tasks, m) && (m.TaskSuccess? || m.Quality? ==> |tasks| != 1)
    ensures Released(Values(tasks, metrics, units)) != []
  {
    var values :| Measured(tasks, m, values);
    MeasuredIs(tasks, m, values);
    var v := RunValue(m, false, Mean(Column(tasks, m)), |tasks|, units(m));
    MeanIs(tasks, m, values, v.value);
    ReleasedExactly(tasks, metrics, units, v);
  }
}
