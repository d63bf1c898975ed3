/** Run values and what the released report says of them (`core/harness_evaluation.py`, `aggregate_run`;
    `evaluation/harness.py`, `_disclose`, `_released_tasks` and the report's assembly). Means are real. */
module Disclosure {
  import opened Util

  /** The catalog: the two metrics computed against a held-out reference, and the execution metrics by position. */
  datatype Metric = TaskSuccess | Quality | Execution(index: nat)

  datatype Reason = JudgeFailed | NoAttestedResult | NotApplicable | NotRecorded | SpendUnaccounted | UnscoredCancelled

  /** In the order their names sort. */
  const REASONS := [JudgeFailed, NoAttestedResult, NotApplicable, NotRecorded, SpendUnaccounted, UnscoredCancelled]

  datatype Outcome = Value(value: real) | Absent(reason: Reason)

  datatype Observation = Observation(metric: Metric, outcome: Outcome)

  datatype Task = Task(id: string, position: nat, observations: seq<Observation>)

  datatype RunValue = RunValue(metric: Metric, slice: bool, value: real, samples: nat, unit: string)

  datatype AbsenceCount = AbsenceCount(metric: Metric, reason: Reason, tasks: nat)

  predicate ReferenceDerived(m: Metric) {
    m.TaskSuccess? || m.Quality?
  }

  function Find(observations: seq<Observation>, m: Metric): Option<Outcome> {
    if observations == [] then None
    else if observations[0].metric == m then Some(observations[0].outcome)
    else Find(observations[1..], m)
  }

  /** A metric over the tasks, in assignment order. */
  function Column(tasks: seq<Task>, m: Metric): seq<Option<Outcome>> {
    seq(|tasks|, i requires 0 <= i < |tasks| => Find(tasks[i].observations, m))
  }

  predicate IsValue(o: Option<Outcome>) {
    o.Some? && o.value.Value?
  }

  /** Observed, with a value, on every task. */
  predicate Whole(column: seq<Option<Outcome>>) {
    column != [] && forall i :: 0 <= i < |column| ==> IsValue(column[i])
  }

  function Absences(column: seq<Option<Outcome>>, reason: Reason): nat {
    if column == [] then 0
    else
      var n := |column| - 1;
      Absences(column[..n], reason) + (if column[n] == Some(Absent(reason)) then 1 else 0)
  }

  function Sum(column: seq<Option<Outcome>>): real {
    if column == [] then 0.0
    else
      var n := |column| - 1;
      Sum(column[..n]) + (if IsValue(column[n]) then column[n].value.value else 0.0)
  }

  function Mean(column: seq<Option<Outcome>>): real
    requires column != []
  {
    Sum(column) / |column| as real
  }

  predicate Succeeds(t: Task) {
    Find(t.observations, TaskSuccess) == Some(Value(1.0))
  }

  function Successes(tasks: seq<Task>): seq<Task> {
    if tasks == [] then []
    else
      var n := |tasks| - 1;
      Successes(tasks[..n]) + (if Succeeds(tasks[n]) then [tasks[n]] else [])
  }

  /** The tasks of the slice, when every task was scored. */
  function Succeeded(tasks: seq<Task>): seq<Task> {
    if Whole(Column(tasks, TaskSuccess)) then Successes(tasks) else []
  }

  function RowValues(tasks: seq<Task>, succeeded: seq<Task>, m: Metric, unit: string): seq<RunValue> {
    var column, subset := Column(tasks, m), Column(succeeded, m);
    if !Whole(column) then []
    else
      [RunValue(m, false, Mean(column), |column|, unit)]
      + if !ReferenceDerived(m) && Whole(subset) then [RunValue(m, true, Mean(subset), |subset|, unit)] else []
  }

  /** The absences of a metric by the first *k* reasons. */
  function RowCounts(column: seq<Option<Outcome>>, m: Metric, k: nat): seq<AbsenceCount>
    requires k <= |REASONS|
  {
    if k == 0 then []
    else
      var n := Absences(column, REASONS[k - 1]);
      RowCounts(column, m, k - 1) + if n > 0 then [AbsenceCount(m, REASONS[k - 1], n)] else []
  }

  function Values(tasks: seq<Task>, metrics: seq<Metric>, units: Metric -> string): seq<RunValue> {
    if metrics == [] then []
    else
      var n := |metrics| - 1;
      Values(tasks, metrics[..n], units) + RowValues(tasks, Succeeded(tasks), metrics[n], units(metrics[n]))
  }

  function Counts(tasks: seq<Task>, metrics: seq<Metric>): seq<AbsenceCount> {
    if metrics == [] then []
    else
      var n := |metrics| - 1;
      Counts(tasks, metrics[..n]) + RowCounts(Column(tasks, metrics[n]), metrics[n], |REASONS|)
  }

  /** The dict of reasons holds every reason seen, with how often. */
  predicate Tallies(reasons: map<Reason, nat>, column: seq<Option<Outcome>>) {
    forall r: Reason :: if r in reasons then reasons[r] == Absences(column, r) > 0 else Absences(column, r) == 0
  }

  method TallyReasons(column: seq<Option<Outcome>>) returns (reasons: map<Reason, nat>)
    ensures Tallies(reasons, column)
  {
    reasons := map[];
    for i := 0 to |column|
      invariant Tallies(reasons, column[..i])
    {
      assert column[..i + 1][..i] == column[..i];
      if column[i].Some? && column[i].value.Absent? {
        var r := column[i].value.reason;
        reasons := reasons[r := (if r in reasons then reasons[r] else 0) + 1];
      }
    }
    assert column[..|column|] == column;
  }

  lemma {:induction false} AbsenceCounted(column: seq<Option<Outcome>>, i: nat)
    requires i < |column| && column[i].Some? && column[i].value.Absent?
    ensures Absences(column, column[i].value.reason) > 0
  {
    var n := |column| - 1;
    if i < n { AbsenceCounted(column[..n], i); }
  }

  lemma {:induction false} AbsenceSeen(column: seq<Option<Outcome>>, r: Reason) returns (i: nat)
    requires Absences(column, r) > 0
    ensures i < |column| && column[i] == Some(Absent(r))
  {
    var n := |column| - 1;
    if column[n] == Some(Absent(r)) { i := n; } else { i := AbsenceSeen(column[..n], r); }
  }

  /** No absence and nothing missing: the metric is observed on every task. */
  lemma TallyTells(reasons: map<Reason, nat>, column: seq<Option<Outcome>>)
    requires Tallies(reasons, column)
    ensures Whole(column) <==> reasons == map[] && column != [] && forall i :: 0 <= i < |column| ==> column[i].Some?
  {
    if reasons != map[] {
      var r :| r in reasons;
      var i := AbsenceSeen(column, r);
    } else {
      forall i | 0 <= i < |column| && column[i].Some? ensures IsValue(column[i]) {
        if column[i].value.Absent? { AbsenceCounted(column, i); }
      }
    }
  }

  method ListReasons(m: Metric, column: seq<Option<Outcome>>, reasons: map<Reason, nat>) returns (listed: seq<AbsenceCount>)
    requires Tallies(reasons, column)
    ensures listed == RowCounts(column, m, |REASONS|)
  {
    listed := [];
    for k := 0 to |REASONS|
      invariant listed == RowCounts(column, m, k)
    {
      if REASONS[k] in reasons { listed := listed + [AbsenceCount(m, REASONS[k], reasons[REASONS[k]])]; }
    }
  }

  /** What the loop appends for one metric. */
  method MetricValues(tasks: seq<Task>, succeeded: seq<Task>, m: Metric, unit: string, reasons: map<Reason, nat>)
    returns (values: seq<RunValue>)
    requires Tallies(reasons, Column(tasks, m))
    ensures values == RowValues(tasks, succeeded, m, unit)
  {
    var column := Column(tasks, m);
    TallyTells(reasons, column);
    if reasons != map[] || column == [] || exists i :: 0 <= i < |column| && column[i].None? {
      return [];
    }
    values := [RunValue(m, false, Mean(column), |column|, unit)];
    var subset := Column(succeeded, m);
    if succeeded != [] && !ReferenceDerived(m) && Whole(subset) {
      values := values + [RunValue(m, true, Mean(subset), |subset|, unit)];
    }
  }

  /** `aggregate_run`: a metric absent on any task has no run value; the successful-tasks slice needs
      every task scored and at least one success. */
  method AggregateRun(tasks: seq<Task>, metrics: seq<Metric>, units: Metric -> string)
    returns (values: seq<RunValue>, counts: seq<AbsenceCount>)
    ensures values == Values(tasks, metrics, units)
    ensures counts == Counts(tasks, metrics)
  {
    values, counts := [], [];
    var succeeded := Succeeded(tasks);
    for i := 0 to |metrics|
      invariant values == Values(tasks, metrics[..i], units) && counts == Counts(tasks, metrics[..i])
    {
      assert metrics[..i + 1][..i] == metrics[..i];
      var m := metrics[i];
      var reasons := TallyReasons(Column(tasks, m));
      var listed := ListReasons(m, Column(tasks, m), reasons);
      counts := counts + listed;
      var found := MetricValues(tasks, succeeded, m, units(m), reasons);
      values := values + found;
    }
    assert metrics[..|metrics|] == metrics;
  }

  // ---- the released report ------------------------------------------------------------------------

  datatype Failure = AllCancelled | NoRunValue | AllWithheld

  /** What a released report says that depends on the observations. *withheld* names the metric and the slice. */
  datatype Report = Report(
    released: seq<RunValue>, withheld: seq<(Metric, bool)>, absences: seq<AbsenceCount>, tasks: seq<Task>, failure: Option<Failure>)

  /** `_disclose` under `aggregate`. */
  predicate Withholds(v: RunValue) {
    v.slice || (ReferenceDerived(v.metric) && v.samples == 1)
  }

  function Released(values: seq<RunValue>): seq<RunValue> {
    if values == [] then []
    else
      var n := |values| - 1;
      Released(values[..n]) + if Withholds(values[n]) then [] else [values[n]]
  }

  function Withheld(values: seq<RunValue>): seq<(Metric, bool)> {
    if values == [] then []
    else
      var n := |values| - 1;
      Withheld(values[..n]) + if Withholds(values[n]) then [(values[n].metric, values[n].slice)] else []
  }

  method Disclose(values: seq<RunValue>) returns (released: seq<RunValue>, withheld: seq<(Metric, bool)>)
    ensures released == Released(values) && withheld == Withheld(values)
    ensures forall v :: v in released ==> v in values && !Withholds(v)
    ensures |released| + |withheld| == |values|
  {
    released, withheld := [], [];
    for i := 0 to |values|
      invariant released == Released(values[..i]) && withheld == Withheld(values[..i]) && |released| + |withheld| == i
      invariant forall v :: v in released ==> v in values && !Withholds(v)
    {
      assert values[..i + 1][..i] == values[..i];
      if Withholds(values[i]) { withheld := withheld + [(values[i].metric, values[i].slice)]; }
      else { released := released + [values[i]]; }
    }
    assert values[..|values|] == values;
  }

  function WithoutReference(observations: seq<Observation>): seq<Observation> {
    if observations == [] then []
    else (if ReferenceDerived(observations[0].metric) then [] else [observations[0]]) + WithoutReference(observations[1..])
  }

  /** `_released_tasks` under `aggregate`. */
  function ReleasedTasks(tasks: seq<Task>): seq<Task> {
    seq(|tasks|, i requires 0 <= i < |tasks| => tasks[i].(observations := WithoutReference(tasks[i].observations)))
  }

  predicate AllCancelledIn(tasks: seq<Task>) {
    forall t, o :: t in tasks && o in t.observations && ReferenceDerived(o.metric) ==> o.outcome == Absent(UnscoredCancelled)
  }

  function FailureOf(tasks: seq<Task>, values: seq<RunValue>): Option<Failure> {
    if AllCancelledIn(tasks) then Some(AllCancelled)
    else if values == [] then Some(NoRunValue)
    else if Released(values) == [] then Some(AllWithheld)
    else None
  }

  function ReportOf(tasks: seq<Task>, metrics: seq<Metric>, units: Metric -> string): Report {
    var values := Values(tasks, metrics, units);
    Report(Released(values), Withheld(values), Counts(tasks, metrics), ReleasedTasks(tasks), FailureOf(tasks, values))
  }

  // ---- what the report reveals ----------------------------------------------------------------------

  /** One task of an outcome evaluation: how it was scored, and its execution measurements. */
  datatype Row = Row(id: string, position: nat, score: Outcome, execution: seq<Observation>)

  function Assemble(rows: seq<Row>): seq<Task> {
    seq(|rows|, i requires 0 <= i < |rows| =>
      Task(rows[i].id, rows[i].position, [Observation(TaskSuccess, rows[i].score)] + rows[i].execution))
  }

  /** `success_observation` and `execution_observations`: a score is 0, 1 or absent, and execution
      measurements are of execution metrics only. */
  predicate RowOk(row: Row) {
    && (row.score.Value? ==> row.score.value == 0.0 || row.score.value == 1.0)
    && forall o :: o in row.execution ==> o.metric.Execution?
  }

  predicate RowsOk(rows: seq<Row>) {
    forall i :: 0 <= i < |rows| ==> RowOk(rows[i])
  }

  /** The metrics of `harness-outcome`: `task_success`, then execution metrics. */
  predicate OutcomeMetrics(metrics: seq<Metric>) {
    metrics != [] && metrics[0] == TaskSuccess && forall i :: 0 < i < |metrics| ==> metrics[i].Execution?
  }

  function Scores(rows: seq<Row>): seq<Outcome> {
    seq(|rows|, i requires 0 <= i < |rows| => rows[i].score)
  }

  predicate Scored(rows: seq<Row>) {
    forall i :: 0 <= i < |rows| ==> rows[i].score.Value?
  }

  /** The same tasks with the same execution observations. */
  predicate SameExecution(a: seq<Row>, b: seq<Row>) {
    |a| == |b| && forall i :: 0 <= i < |a| ==> a[i].(score := b[i].score) == b[i]
  }

  /** As many absences for each reason. */
  predicate SameAbsences(a: seq<Row>, b: seq<Row>) {
    forall r: Reason :: multiset(Scores(a))[Absent(r)] == multiset(Scores(b))[Absent(r)]
  }

  /** As many absences for each reason, and when every task is scored, as many successes. */
  predicate SameAggregate(a: seq<Row>, b: seq<Row>) {
    && SameAbsences(a, b)
    && (Scored(a) && Scored(b) ==> multiset(Scores(a))[Value(1.0)] == multiset(Scores(b))[Value(1.0)])
  }

  // ---- columns -----------------------------------------------------------------------------------------

  lemma ScoreColumn(rows: seq<Row>)
    ensures |Column(Assemble(rows), TaskSuccess)| == |rows|
    ensures forall i :: 0 <= i < |rows| ==> Column(Assemble(rows), TaskSuccess)[i] == Some(rows[i].score)
  {
  }

  lemma ExecutionColumn(a: seq<Row>, b: seq<Row>, m: Metric)
    requires SameExecution(a, b) && m.Execution?
    ensures Column(Assemble(a), m) == Column(Assemble(b), m)
  {
    var ta, tb := Assemble(a), Assemble(b);
    forall i | 0 <= i < |a| ensures Find(ta[i].observations, m) == Find(tb[i].observations, m) {
      assert ta[i].observations[1..] == a[i].execution && tb[i].observations[1..] == b[i].execution;
      assert a[i].(score := b[i].score) == b[i];
    }
  }

  lemma ScoresFront(rows: seq<Row>)
    requires rows != []
    ensures var n := |rows| - 1;
            && Column(Assemble(rows), TaskSuccess)[..n] == Column(Assemble(rows[..n]), TaskSuccess)
            && Assemble(rows)[..n] == Assemble(rows[..n])
            && multiset(Scores(rows)) == multiset(Scores(rows[..n])) + multiset{rows[n].score}
  {
    var n := |rows| - 1;
    assert Scores(rows) == Scores(rows[..n]) + [rows[n].score];
  }

  lemma {:induction false} AbsencesAre(rows: seq<Row>, r: Reason)
    ensures Absences(Column(Assemble(rows), TaskSuccess), r) == multiset(Scores(rows))[Absent(r)]
  {
    if rows != [] {
      ScoresFront(rows);
      AbsencesAre(rows[..|rows| - 1], r);
    }
  }

  /** With scores of 0 and 1 the sum counts the successes, and so does the slice. */
  lemma {:induction false} SuccessesAre(rows: seq<Row>)
    requires RowsOk(rows)
    ensures |Successes(Assemble(rows))| == multiset(Scores(rows))[Value(1.0)]
    ensures Sum(Column(Assemble(rows), TaskSuccess)) == multiset(Scores(rows))[Value(1.0)] as real
  {
    if rows != [] {
      var n := |rows| - 1;
      ScoresFront(rows);
      SuccessesAre(rows[..n]);
      assert RowOk(rows[n]);
      ScoreColumn(rows);
      assert Succeeds(Assemble(rows)[n]) <==> rows[n].score == Value(1.0);
    }
  }

  lemma ScoredTold(rows: seq<Row>)
    ensures Scored(rows) <==> forall r: Reason :: multiset(Scores(rows))[Absent(r)] == 0
    ensures Whole(Column(Assemble(rows), TaskSuccess)) <==> rows != [] && Scored(rows)
  {
    ScoreColumn(rows);
    if !Scored(rows) {
      var i :| 0 <= i < |rows| && !rows[i].score.Value?;
      assert Scores(rows)[i] == Absent(rows[i].score.reason);
      assert Absent(rows[i].score.reason) in Scores(rows);
    } else {
      forall r: Reason ensures Absent(r) !in Scores(rows) {}
    }
  }

  lemma {:induction false} SuccessesAmong(tasks: seq<Task>)
    ensures forall t :: t in Successes(tasks) ==> t in tasks
  {
    if tasks != [] { SuccessesAmong(tasks[..|tasks| - 1]); }
  }

  lemma WholeSubset(tasks: seq<Task>, subset: seq<Task>, m: Metric)
    requires Whole(Column(tasks, m)) && forall t :: t in subset ==> t in tasks
    ensures Whole(Column(subset, m)) <==> subset != []
  {
    forall i | 0 <= i < |subset| ensures IsValue(Column(subset, m)[i]) {
      assert subset[i] in tasks;
      var j :| 0 <= j < |tasks| && tasks[j] == subset[i];
      assert IsValue(Column(tasks, m)[j]);
    }
  }

  // ---- one metric ----------------------------------------------------------------------------------------

  /** What is released, withheld and absent of one metric, and whether it has a value at all. */
  predicate SameShown(x: seq<RunValue>, y: seq<RunValue>) {
    Released(x) == Released(y) && Withheld(x) == Withheld(y) && (x == [] <==> y == [])
  }

  lemma {:induction false} ReleasedJoin(x: seq<RunValue>, y: seq<RunValue>)
    ensures Released(x + y) == Released(x) + Released(y) && Withheld(x + y) == Withheld(x) + Withheld(y)
  {
    if y == [] {
      assert x + y == x;
    } else {
      var n := |y| - 1;
      assert (x + y)[..|x + y| - 1] == x + y[..n];
      ReleasedJoin(x, y[..n]);
    }
  }

  lemma ReleasedOne(v: RunValue)
    ensures Released([v]) == (if Withholds(v) then [] else [v])
    ensures Withheld([v]) == (if Withholds(v) then [(v.metric, v.slice)] else [])
  {
    assert [v][..0] == [];
  }

  lemma ExecutionShown(ta: seq<Task>, sa: seq<Task>, tb: seq<Task>, sb: seq<Task>, m: Metric, unit: string)
    requires m.Execution? && Column(ta, m) == Column(tb, m) && (sa == [] <==> sb == [])
    requires (forall t :: t in sa ==> t in ta) && (forall t :: t in sb ==> t in tb)
    ensures SameShown(RowValues(ta, sa, m, unit), RowValues(tb, sb, m, unit))
  {
    var column := Column(ta, m);
    if Whole(column) {
      WholeSubset(ta, sa, m);
      WholeSubset(tb, sb, m);
      var v := RunValue(m, false, Mean(column), |column|, unit);
      SliceShown(v, RowValues(ta, sa, m, unit));
      SliceShown(v, RowValues(tb, sb, m, unit));
    }
  }

  lemma SliceShown(v: RunValue, row: seq<RunValue>)
    requires row == [v] || (|row| == 2 && row[0] == v && row[1].slice && row[1].metric == v.metric)
    ensures Released(row) == Released([v])
    ensures Withheld(row) == Withheld([v]) + if |row| == 2 then [(v.metric, true)] else []
  {
    if |row| == 2 {
      var w := row[1];
      assert row == [v] + [w];
      ReleasedJoin([v], [w]);
      ReleasedOne(w);
    } else {
      assert row == [v];
    }
  }

  lemma SuccessShown(a: seq<Row>, b: seq<Row>, sa: seq<Task>, sb: seq<Task>, unit: string)
    requires RowsOk(a) && RowsOk(b) && |a| == |b| && SameAggregate(a, b)
    ensures RowValues(Assemble(a), sa, TaskSuccess, unit) == RowValues(Assemble(b), sb, TaskSuccess, unit)
  {
    ScoredTold(a);
    ScoredTold(b);
    SuccessesAre(a);
    SuccessesAre(b);
  }

  // ---- the whole report ------------------------------------------------------------------------------------

  lemma {:induction false} ValuesShown(a: seq<Row>, b: seq<Row>, metrics: seq<Metric>, units: Metric -> string)
    requires RowsOk(a) && RowsOk(b) && SameExecution(a, b) && SameAggregate(a, b)
    requires forall m :: m in metrics ==> !m.Quality?
    ensures SameShown(Values(Assemble(a), metrics, units), Values(Assemble(b), metrics, units))
  {
    if metrics != [] {
      var n, ta, tb := |metrics| - 1, Assemble(a), Assemble(b);
      var m := metrics[n];
      ValuesShown(a, b, metrics[..n], units);
      SucceededAlike(a, b);
      var x, y := RowValues(ta, Succeeded(ta), m, units(m)), RowValues(tb, Succeeded(tb), m, units(m));
      assert SameShown(x, y) by {
        if m.Execution? {
          ExecutionColumn(a, b, m);
          ExecutionShown(ta, Succeeded(ta), tb, Succeeded(tb), m, units(m));
        } else {
          assert m in metrics;
          SuccessShown(a, b, Succeeded(ta), Succeeded(tb), units(m));
        }
      }
      ReleasedJoin(Values(ta, metrics[..n], units), x);
      ReleasedJoin(Values(tb, metrics[..n], units), y);
    }
  }

  lemma SucceededAlike(a: seq<Row>, b: seq<Row>)
    requires RowsOk(a) && RowsOk(b) && |a| == |b| && SameAggregate(a, b)
    ensures Succeeded(Assemble(a)) == [] <==> Succeeded(Assemble(b)) == []
    ensures forall t :: t in Succeeded(Assemble(a)) ==> t in Assemble(a)
    ensures forall t :: t in Succeeded(Assemble(b)) ==> t in Assemble(b)
  {
    ScoredTold(a);
    ScoredTold(b);
    SuccessesAre(a);
    SuccessesAre(b);
    SuccessesAmong(Assemble(a));
    SuccessesAmong(Assemble(b));
  }

  lemma {:induction false} RowCountsAlike(x: seq<Option<Outcome>>, y: seq<Option<Outcome>>, m: Metric, k: nat)
    requires k <= |REASONS| && forall r: Reason :: Absences(x, r) == Absences(y, r)
    ensures RowCounts(x, m, k) == RowCounts(y, m, k)
  {
    if k > 0 { RowCountsAlike(x, y, m, k - 1); }
  }

  lemma {:induction false} CountsAlike(a: seq<Row>, b: seq<Row>, metrics: seq<Metric>)
    requires SameExecution(a, b) && SameAbsences(a, b) && forall m :: m in metrics ==> !m.Quality?
    ensures Counts(Assemble(a), metrics) == Counts(Assemble(b), metrics)
  {
    if metrics != [] {
      var n := |metrics| - 1;
      var m := metrics[n];
      CountsAlike(a, b, metrics[..n]);
      if m.Execution? {
        ExecutionColumn(a, b, m);
      } else {
        assert m in metrics;
        forall r: Reason ensures Absences(Column(Assemble(a), m), r) == Absences(Column(Assemble(b), m), r) {
          AbsencesAre(a, r);
          AbsencesAre(b, r);
        }
        RowCountsAlike(Column(Assemble(a), m), Column(Assemble(b), m), m, |REASONS|);
      }
    }
  }

  lemma TasksAlike(a: seq<Row>, b: seq<Row>)
    requires RowsOk(a) && RowsOk(b) && SameExecution(a, b)
    ensures ReleasedTasks(Assemble(a)) == ReleasedTasks(Assemble(b))
  {
    forall i | 0 <= i < |a| ensures ReleasedTasks(Assemble(a))[i] == ReleasedTasks(Assemble(b))[i] {
      assert RowOk(a[i]) && RowOk(b[i]) && a[i].(score := b[i].score) == b[i];
      assert Assemble(a)[i].observations[1..] == a[i].execution && Assemble(b)[i].observations[1..] == b[i].execution;
    }
  }

  lemma {:induction false} AllAre(scores: seq<Outcome>, o: Outcome)
    ensures multiset(scores)[o] <= |scores|
    ensures multiset(scores)[o] == |scores| <==> forall i :: 0 <= i < |scores| ==> scores[i] == o
  {
    if scores != [] {
      var n := |scores| - 1;
      AllAre(scores[..n], o);
      assert scores == scores[..n] + [scores[n]];
    }
  }

  lemma CancelledTold(rows: seq<Row>)
    requires RowsOk(rows)
    ensures AllCancelledIn(Assemble(rows)) <==> multiset(Scores(rows))[Absent(UnscoredCancelled)] == |rows|
  {
    var tasks := Assemble(rows);
    AllAre(Scores(rows), Absent(UnscoredCancelled));
    if forall i :: 0 <= i < |rows| ==> Scores(rows)[i] == Absent(UnscoredCancelled) {
      forall t, o | t in tasks && o in t.observations && ReferenceDerived(o.metric) ensures o.outcome == Absent(UnscoredCancelled) {
        var i :| 0 <= i < |tasks| && tasks[i] == t;
        assert RowOk(rows[i]);
        assert Scores(rows)[i] == rows[i].score;
      }
    } else {
      var i :| 0 <= i < |rows| && Scores(rows)[i] != Absent(UnscoredCancelled);
      assert tasks[i] in tasks && tasks[i].observations[0] in tasks[i].observations;
    }
  }

  /** Main result: under `aggregate`, over the same tasks with the same execution observations, the report
      depends on the scores only through how many are absent for each reason and, when every task is
      scored, how many succeeded. Which tasks they are changes nothing in it. */
  lemma OnlyAggregatesRevealed(a: seq<Row>, b: seq<Row>, metrics: seq<Metric>, units: Metric -> string)
    requires RowsOk(a) && RowsOk(b) && SameExecution(a, b) && OutcomeMetrics(metrics)
    requires SameAggregate(a, b)
    ensures ReportOf(Assemble(a), metrics, units) == ReportOf(Assemble(b), metrics, units)
  {
    ValuesShown(a, b, metrics, units);
    ShownAlike(a, b, metrics, units);
  }

  /** Beyond what is released and withheld, the report shows absences and execution observations. */
  lemma ShownAlike(a: seq<Row>, b: seq<Row>, metrics: seq<Metric>, units: Metric -> string)
    requires RowsOk(a) && RowsOk(b) && SameExecution(a, b) && SameAbsences(a, b) && OutcomeMetrics(metrics)
    requires SameShown(Values(Assemble(a), metrics, units), Values(Assemble(b), metrics, units))
    ensures ReportOf(Assemble(a), metrics, units) == ReportOf(Assemble(b), metrics, units)
  {
    CountsAlike(a, b, metrics);
    TasksAlike(a, b);
    CancelledTold(a);
    CancelledTold(b);
  }

  /** In particular, exchanging which tasks succeeded. */
  lemma PermutationUnseen(a: seq<Row>, b: seq<Row>, metrics: seq<Metric>, units: Metric -> string)
    requires RowsOk(a) && RowsOk(b) && SameExecution(a, b) && OutcomeMetrics(metrics)
    requires multiset(Scores(a)) == multiset(Scores(b))
    ensures ReportOf(Assemble(a), metrics, units) == ReportOf(Assemble(b), metrics, units)
  {
    OnlyAggregatesRevealed(a, b, metrics, units);
  }

  // ---- and it does reveal that much -------------------------------------------------------------------------

  lemma {:induction false} RowCountsTell(column: seq<Option<Outcome>>, m: Metric, k: nat, c: AbsenceCount)
    requires k <= |REASONS|
    ensures c in RowCounts(column, m, k) <==>
            c.metric == m && c.tasks == Absences(column, c.reason) > 0 && exists j :: 0 <= j < k && REASONS[j] == c.reason
  {
    if k > 0 { RowCountsTell(column, m, k - 1, c); }
  }

  lemma EveryReason(r: Reason)
    ensures exists j :: 0 <= j < |REASONS| && REASONS[j] == r
  {
    assert REASONS[0] == JudgeFailed && REASONS[1] == NoAttestedResult && REASONS[2] == NotApplicable;
    assert REASONS[3] == NotRecorded && REASONS[4] == SpendUnaccounted && REASONS[5] == UnscoredCancelled;
  }

  lemma {:induction false} CountsTell(tasks: seq<Task>, metrics: seq<Metric>, c: AbsenceCount)
    ensures c in Counts(tasks, metrics) <==>
            c.metric in metrics && c.tasks == Absences(Column(tasks, c.metric), c.reason) > 0
  {
    if metrics != [] {
      var n := |metrics| - 1;
      CountsTell(tasks, metrics[..n], c);
      RowCountsTell(Column(tasks, metrics[n]), metrics[n], |REASONS|, c);
      EveryReason(c.reason);
      assert metrics == metrics[..n] + [metrics[n]];
    }
  }

  /** The run value of *v*'s metric, over all tasks. */
  predicate IsRunValue(tasks: seq<Task>, units: Metric -> string, v: RunValue) {
    var column := Column(tasks, v.metric);
    Whole(column) && v == RunValue(v.metric, false, Mean(column), |column|, units(v.metric))
  }

  lemma RowTell(tasks: seq<Task>, succeeded: seq<Task>, m: Metric, units: Metric -> string, v: RunValue)
    requires !v.slice
    ensures v in RowValues(tasks, succeeded, m, units(m)) <==> v.metric == m && IsRunValue(tasks, units, v)
  {
  }

  lemma {:induction false} ValuesTell(tasks: seq<Task>, metrics: seq<Metric>, units: Metric -> string, v: RunValue)
    requires !v.slice
    ensures v in Values(tasks, metrics, units) <==> v.metric in metrics && IsRunValue(tasks, units, v)
  {
    if metrics != [] {
      var n := |metrics| - 1;
      ValuesTell(tasks, metrics[..n], units, v);
      RowTell(tasks, Succeeded(tasks), metrics[n], units, v);
      assert metrics == metrics[..n] + [metrics[n]];
    }
  }

  lemma {:induction false} ReleasedTell(values: seq<RunValue>, v: RunValue)
    ensures v in Released(values) <==> v in values && !Withholds(v)
  {
    if values != [] {
      var n := |values| - 1;
      ReleasedTell(values[..n], v);
      assert values == values[..n] + [values[n]];
    }
  }

  lemma AbsencesRevealed(a: seq<Row>, b: seq<Row>, metrics: seq<Metric>, r: Reason)
    requires TaskSuccess in metrics && Counts(Assemble(a), metrics) == Counts(Assemble(b), metrics)
    ensures multiset(Scores(a))[Absent(r)] == multiset(Scores(b))[Absent(r)]
  {
    AbsencesAre(a, r);
    AbsencesAre(b, r);
    var x, y := multiset(Scores(a))[Absent(r)], multiset(Scores(b))[Absent(r)];
    CountsTell(Assemble(a), metrics, AbsenceCount(TaskSuccess, r, x));
    CountsTell(Assemble(b), metrics, AbsenceCount(TaskSuccess, r, x));
    CountsTell(Assemble(a), metrics, AbsenceCount(TaskSuccess, r, y));
    CountsTell(Assemble(b), metrics, AbsenceCount(TaskSuccess, r, y));
  }

  lemma SuccessValue(rows: seq<Row>, metrics: seq<Metric>, units: Metric -> string, v: RunValue)
    requires RowsOk(rows) && |rows| >= 2 && TaskSuccess in metrics && Scored(rows) && v.metric.TaskSuccess? && !v.slice
    ensures v in Released(Values(Assemble(rows), metrics, units)) <==>
            v == RunValue(TaskSuccess, false, multiset(Scores(rows))[Value(1.0)] as real / |rows| as real, |rows|, units(TaskSuccess))
  {
    var tasks := Assemble(rows);
    ScoreColumn(rows);
    ScoredTold(rows);
    SuccessesAre(rows);
    ReleasedTell(Values(tasks, metrics, units), v);
    ValuesTell(tasks, metrics, units, v);
  }

  lemma SameQuotient(x: nat, y: nat, n: nat)
    requires n > 0 && x as real / n as real == y as real / n as real
    ensures x == y
  {
    assert x as real == (x as real / n as real) * n as real;
    assert y as real == (y as real / n as real) * n as real;
  }

  lemma SuccessesRevealed(a: seq<Row>, b: seq<Row>, metrics: seq<Metric>, units: Metric -> string)
    requires RowsOk(a) && RowsOk(b) && |a| == |b| >= 2 && TaskSuccess in metrics && Scored(a) && Scored(b)
    requires Released(Values(Assemble(a), metrics, units)) == Released(Values(Assemble(b), metrics, units))
    ensures multiset(Scores(a))[Value(1.0)] == multiset(Scores(b))[Value(1.0)]
  {
    var x, y := multiset(Scores(a))[Value(1.0)], multiset(Scores(b))[Value(1.0)];
    var v := RunValue(TaskSuccess, false, x as real / |a| as real, |a|, units(TaskSuccess));
    SuccessValue(a, metrics, units, v);
    SuccessValue(b, metrics, units, v);
    SameQuotient(x, y, |a|);
  }

  // ---- a single task ---------------------------------------------------------------------------------------

  /** No execution metric of the list has a value on the task. */
  predicate NothingMeasured(row: Row, metrics: seq<Metric>) {
    forall m :: m in metrics && m.Execution? ==> !IsValue(Find(row.execution, m))
  }

  /** One scored task, whose score is withheld: nothing else is shown of it if nothing is measured. */
  lemma {:induction false} SilentShown(a: seq<Row>, b: seq<Row>, metrics: seq<Metric>, units: Metric -> string)
    requires |a| == |b| == 1 && SameExecution(a, b) && Scored(a) && Scored(b)
    requires (forall m :: m in metrics ==> !m.Quality?) && NothingMeasured(a[0], metrics)
    ensures SameShown(Values(Assemble(a), metrics, units), Values(Assemble(b), metrics, units))
  {
    if metrics != [] {
      var n, ta, tb := |metrics| - 1, Assemble(a), Assemble(b);
      var m := metrics[n];
      assert metrics == metrics[..n] + [m];
      SilentShown(a, b, metrics[..n], units);
      var x, y := RowValues(ta, Succeeded(ta), m, units(m)), RowValues(tb, Succeeded(tb), m, units(m));
      SilentRow(a, b, m, units(m));
      ReleasedJoin(Values(ta, metrics[..n], units), x);
      ReleasedJoin(Values(tb, metrics[..n], units), y);
    }
  }

  lemma SilentRow(a: seq<Row>, b: seq<Row>, m: Metric, unit: string)
    requires |a| == |b| == 1 && SameExecution(a, b) && Scored(a) && Scored(b) && !m.Quality?
    requires m.Execution? ==> !IsValue(Find(a[0].execution, m))
    ensures SameShown(RowValues(Assemble(a), Succeeded(Assemble(a)), m, unit), RowValues(Assemble(b), Succeeded(Assemble(b)), m, unit))
  {
    var ta, tb := Assemble(a), Assemble(b);
    if m.Execution? {
      ExecutionColumn(a, b, m);
      assert ta[0].observations[1..] == a[0].execution;
      assert !IsValue(Column(ta, m)[0]);
    } else {
      ScoredTold(a);
      ScoredTold(b);
      ScoreColumn(a);
      ScoreColumn(b);
      ReleasedOne(RowValues(ta, Succeeded(ta), m, unit)[0]);
      ReleasedOne(RowValues(tb, Succeeded(tb), m, unit)[0]);
    }
  }

  lemma {:induction false} WithheldTell(values: seq<RunValue>, w: (Metric, bool))
    ensures w in Withheld(values) <==> exists v :: v in values && Withholds(v) && (v.metric, v.slice) == w
  {
    if values != [] {
      var n := |values| - 1;
      WithheldTell(values[..n], w);
      assert values == values[..n] + [values[n]];
    }
  }

  lemma {:induction false} SlicesTell(tasks: seq<Task>, metrics: seq<Metric>, units: Metric -> string, m: Metric)
    ensures (exists v :: v in Values(tasks, metrics, units) && v.slice && v.metric == m)
            <==> m in metrics && !ReferenceDerived(m) && Whole(Column(tasks, m)) && Whole(Column(Succeeded(tasks), m))
  {
    if metrics != [] {
      var n := |metrics| - 1;
      SlicesTell(tasks, metrics[..n], units, m);
      assert metrics == metrics[..n] + [metrics[n]];
      var row := RowValues(tasks, Succeeded(tasks), metrics[n], units(metrics[n]));
      assert (exists v :: v in row && v.slice && v.metric == m)
        <==> metrics[n] == m && !ReferenceDerived(m) && Whole(Column(tasks, m)) && Whole(Column(Succeeded(tasks), m)) by {
        if metrics[n] == m && !ReferenceDerived(m) && Whole(Column(tasks, m)) && Whole(Column(Succeeded(tasks), m)) {
          assert row[1] in row && row[1].slice;
        }
      }
    }
  }

  /** One scored task: a value withheld as a slice tells that it succeeded. */
  lemma SliceTells(rows: seq<Row>, metrics: seq<Metric>, units: Metric -> string, m: Metric)
    requires RowsOk(rows) && |rows| == 1 && Scored(rows) && m in metrics && m.Execution? && IsValue(Find(rows[0].execution, m))
    ensures (m, true) in Withheld(Values(Assemble(rows), metrics, units)) <==> rows[0].score == Value(1.0)
  {
    var tasks := Assemble(rows);
    assert tasks[0].observations[1..] == rows[0].execution;
    ScoredTold(rows);
    SuccessesAre(rows);
    assert Scores(rows) == [rows[0].score];
    SuccessesAmong(tasks);
    assert Whole(Column(tasks, m));
    WholeSubset(tasks, Succeeded(tasks), m);
    WithheldTell(Values(tasks, metrics, units), (m, true));
    SlicesTell(tasks, metrics, units, m);
  }

  lemma OneTaskRevealed(a: seq<Row>, b: seq<Row>, metrics: seq<Metric>, units: Metric -> string)
    requires RowsOk(a) && RowsOk(b) && |a| == |b| == 1 && SameExecution(a, b) && Scored(a) && Scored(b)
    requires Withheld(Values(Assemble(a), metrics, units)) == Withheld(Values(Assemble(b), metrics, units))
    requires !NothingMeasured(a[0], metrics)
    ensures multiset(Scores(a))[Value(1.0)] == multiset(Scores(b))[Value(1.0)]
  {
    var m :| m in metrics && m.Execution? && IsValue(Find(a[0].execution, m));
    assert a[0].(score := b[0].score) == b[0];
    SliceTells(a, metrics, units, m);
    SliceTells(b, metrics, units, m);
    assert Scores(a) == [a[0].score] && Scores(b) == [b[0].score];
  }

  /** Main result: for any number of tasks, two tables with the same execution observations give the same
      report if and only if they have as many absences for each reason and, all scored, as many successes; or
      there is one task, scored in both, on which no execution metric has a value. */
  lemma ReportRevealsExactly(a: seq<Row>, b: seq<Row>, metrics: seq<Metric>, units: Metric -> string)
    requires RowsOk(a) && RowsOk(b) && SameExecution(a, b) && OutcomeMetrics(metrics)
    ensures ReportOf(Assemble(a), metrics, units) == ReportOf(Assemble(b), metrics, units)
            <==> SameAggregate(a, b) || (|a| == 1 && Scored(a) && Scored(b) && NothingMeasured(a[0], metrics))
  {
    if SameAggregate(a, b) {
      OnlyAggregatesRevealed(a, b, metrics, units);
    } else if |a| == 1 && Scored(a) && Scored(b) && NothingMeasured(a[0], metrics) {
      SilentShown(a, b, metrics, units);
      ScoredTold(a);
      ScoredTold(b);
      ShownAlike(a, b, metrics, units);
    } else if ReportOf(Assemble(a), metrics, units) == ReportOf(Assemble(b), metrics, units) {
      EqualReports(a, b, metrics, units);
      assert false;
    }
  }

  lemma EqualReports(a: seq<Row>, b: seq<Row>, metrics: seq<Metric>, units: Metric -> string)
    requires RowsOk(a) && RowsOk(b) && SameExecution(a, b) && OutcomeMetrics(metrics)
    requires ReportOf(Assemble(a), metrics, units) == ReportOf(Assemble(b), metrics, units)
    ensures SameAggregate(a, b) || (|a| == 1 && Scored(a) && Scored(b) && NothingMeasured(a[0], metrics))
  {
    forall r: Reason ensures multiset(Scores(a))[Absent(r)] == multiset(Scores(b))[Absent(r)] {
      AbsencesRevealed(a, b, metrics, r);
    }
    if Scored(a) && Scored(b) {
      if |a| >= 2 {
        SuccessesRevealed(a, b, metrics, units);
      } else if |a| == 1 && !NothingMeasured(a[0], metrics) {
        OneTaskRevealed(a, b, metrics, units);
      }
    }
  }

  /** A witness: with one task and one measured metric, what is withheld tells whether the task succeeded. */
  lemma OneTaskTold(execution: seq<Observation>, m: Metric, units: Metric -> string)
    requires m.Execution? && Find(execution, m).Some? && Find(execution, m).value.Value?
    requires forall o :: o in execution ==> o.metric.Execution?
    ensures var won, failed := [Row("t", 0, Value(1.0), execution)], [Row("t", 0, Value(0.0), execution)];
            && ReportOf(Assemble(won), [TaskSuccess, m], units).withheld == [(TaskSuccess, false), (m, true)]
            && ReportOf(Assemble(failed), [TaskSuccess, m], units).withheld == [(TaskSuccess, false)]
            && ReportOf(Assemble(won), [TaskSuccess, m], units).released == ReportOf(Assemble(failed), [TaskSuccess, m], units).released
  {
    OneTask(Row("t", 0, Value(1.0), execution), m, units);
    OneTask(Row("t", 0, Value(0.0), execution), m, units);
    ExecutionColumn([Row("t", 0, Value(1.0), execution)], [Row("t", 0, Value(0.0), execution)], m);
  }

  lemma OneTask(row: Row, m: Metric, units: Metric -> string)
    requires RowOk(row) && row.score.Value? && m.Execution? && Find(row.execution, m).Some? && Find(row.execution, m).value.Value?
    ensures var report := ReportOf(Assemble([row]), [TaskSuccess, m], units);
            var column := Column(Assemble([row]), m);
            && column != [] && report.released == [RunValue(m, false, Mean(column), 1, units(m))]
            && report.withheld == [(TaskSuccess, false)] + if row.score == Value(1.0) then [(m, true)] else []
  {
    var tasks := Assemble([row]);
    OneTaskRows(row, m, units);
    var x, y := RowValues(tasks, Succeeded(tasks), TaskSuccess, units(TaskSuccess)), RowValues(tasks, Succeeded(tasks), m, units(m));
    assert Values(tasks, [TaskSuccess, m], units) == x + y by {
      assert [TaskSuccess, m][..1] == [TaskSuccess] && [TaskSuccess][..0] == [];
      assert Values(tasks, [TaskSuccess], units) == x;
    }
    OneTaskShown(x, y, m);
  }

  lemma OneTaskShown(x: seq<RunValue>, y: seq<RunValue>, m: Metric)
    requires m.Execution? && |x| == 1 && x[0].metric == TaskSuccess && !x[0].slice && x[0].samples == 1
    requires 1 <= |y| <= 2 && y[0].metric == m && !y[0].slice && (|y| == 2 ==> y[1].slice && y[1].metric == m)
    ensures Released(x + y) == [y[0]]
    ensures Withheld(x + y) == [(TaskSuccess, false)] + if |y| == 2 then [(m, true)] else []
  {
    ReleasedJoin(x, y);
    OneTaskOutcome(x);
    SliceShown(y[0], y);
    ReleasedOne(y[0]);
  }

  lemma {:induction false} OneTaskOutcome(x: seq<RunValue>)
    requires |x| == 1 && x[0].metric == TaskSuccess && !x[0].slice && x[0].samples == 1
    ensures Released(x) == [] && Withheld(x) == [(TaskSuccess, false)]
  {
    assert x == [x[0]];
    ReleasedOne(x[0]);
  }

  lemma OneTaskRows(row: Row, m: Metric, units: Metric -> string)
    requires RowOk(row) && row.score.Value? && m.Execution? && Find(row.execution, m).Some? && Find(row.execution, m).value.Value?
    ensures var tasks := Assemble([row]);
            var x, y := RowValues(tasks, Succeeded(tasks), TaskSuccess, units(TaskSuccess)), RowValues(tasks, Succeeded(tasks), m, units(m));
            && |x| == 1 && x[0].metric == TaskSuccess && !x[0].slice && x[0].samples == 1
            && Column(tasks, m) != [] && |y| == (if row.score == Value(1.0) then 2 else 1)
            && y[0] == RunValue(m, false, Mean(Column(tasks, m)), 1, units(m)) && (|y| == 2 ==> y[1].slice && y[1].metric == m)
  {
    var tasks := Assemble([row]);
    assert tasks[0].observations[1..] == row.execution;
    ScoreColumn([row]);
    ScoredTold([row]);
    SuccessesAre([row]);
    assert Scores([row]) == [row.score];
    SuccessesAmong(tasks);
    assert Whole(Column(tasks, m));
    WholeSubset(tasks, Succeeded(tasks), m);
  }
}
