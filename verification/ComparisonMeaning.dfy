/** What a comparison comes to, written out on the values it compares. */
module ComparisonMeaning {
  import opened Util
  import opened Summaries
  import opened Comparability
  import opened Comparison

  // ---- the statistics ----------------------------------------------------------------------------

  function Minus(x: seq<real>, y: seq<real>): seq<real>
    requires |x| == |y|
  {
    seq(|x|, i requires 0 <= i < |x| => x[i] - y[i])
  }

  lemma {:induction false} SumMinus(x: seq<real>, y: seq<real>)
    requires |x| == |y|
    ensures Sum(Minus(x, y)) == Sum(x) - Sum(y)
  {
    if x != [] {
      SumMinus(x[1..], y[1..]);
      assert Minus(x, y)[1..] == Minus(x[1..], y[1..]);
    }
  }

  lemma MeanMinus(x: seq<real>, y: seq<real>)
    requires |x| == |y| && x != []
    ensures Mean(Minus(x, y)) == Mean(x) - Mean(y)
  {
    SumMinus(x, y);
    Distributes(Sum(x), Sum(y), |x| as real);
  }

  lemma Distributes(a: real, b: real, n: real)
    requires n != 0.0
    ensures (a - b) / n == a / n - b / n
  {
  }

  function Shift(v: seq<real>, m: real): seq<real> {
    seq(|v|, i requires 0 <= i < |v| => v[i] - m)
  }

  lemma {:induction false} SumShift(v: seq<real>, m: real)
    ensures Sum(Shift(v, m)) == Sum(v) - m * |v| as real
  {
    if v != [] {
      SumShift(v[1..], m);
      assert Shift(v, m)[1..] == Shift(v[1..], m);
    }
  }

  /** The mean is the one number the values balance around. */
  lemma MeanBalances(v: seq<real>, m: real)
    requires v != []
    ensures Sum(Shift(v, m)) == 0.0 <==> m == Mean(v)
  {
    SumShift(v, m);
    var n := |v| as real;
    assert Mean(v) * n == Sum(v);
  }

  /** The sum of the squares themselves. */
  function SumOfSquares(v: seq<real>): real {
    if v == [] then 0.0 else v[0] * v[0] + SumOfSquares(v[1..])
  }

  predicate Around(total: real, q: real, m: real, s: real, n: real) {
    total == q - 2.0 * m * s + m * m * n
  }

  lemma {:induction false} SquaresAround(v: seq<real>, m: real)
    ensures Around(Sum(Squares(v, m)), SumOfSquares(v), m, Sum(v), |v| as real)
  {
    if v == [] {
      AroundNothing(m);
    } else {
      SquaresAround(v[1..], m);
      SquaresTail(v, m);
      AroundMore(Sum(Squares(v[1..], m)), SumOfSquares(v[1..]), m, Sum(v[1..]), |v[1..]| as real, v[0], Sum(Squares(v, m)),
                 SumOfSquares(v), Sum(v), |v| as real);
    }
  }

  lemma AroundNothing(m: real)
    ensures Around(0.0, 0.0, m, 0.0, 0.0)
  {
  }

  lemma AroundMore(rest: real, q: real, m: real, s: real, n: real, x: real, total: real, q': real, s': real, n': real)
    requires Around(rest, q, m, s, n) && total == (x - m) * (x - m) + rest && q' == x * x + q && s' == x + s && n' == n + 1.0
    ensures Around(total, q', m, s', n')
  {
    OneSquare(x, m, q, s, n, rest);
  }

  lemma SquaresTail(v: seq<real>, m: real)
    requires v != []
    ensures Sum(Squares(v, m)) == (v[0] - m) * (v[0] - m) + Sum(Squares(v[1..], m))
  {
    var squares := Squares(v, m);
    assert squares[1..] == Squares(v[1..], m) by {
      forall i | 0 <= i < |v[1..]| ensures squares[1..][i] == Squares(v[1..], m)[i] { assert v[1..][i] == v[i + 1]; }
    }
  }

  lemma OneSquare(x: real, m: real, q: real, s: real, n: real, rest: real)
    requires rest == q - 2.0 * m * s + m * m * n
    ensures (x - m) * (x - m) + rest == (x * x + q) - 2.0 * m * (x + s) + m * m * (n + 1.0)
  {
    assert (x - m) * (x - m) == x * x - 2.0 * m * x + m * m;
    assert 2.0 * m * (x + s) == 2.0 * m * x + 2.0 * m * s;
  }

  /** The squares around the mean are the squares less that of the mean. */
  lemma AroundTheMean(v: seq<real>, m: real, n: real)
    requires n == |v| as real && m * n == Sum(v)
    ensures Sum(Squares(v, m)) == SumOfSquares(v) - n * m * m
  {
    SquaresAround(v, m);
    Collected(Sum(Squares(v, m)), SumOfSquares(v), m, Sum(v), n);
  }

  /** The variance, by the other formula: the squares less the square of the mean, over one less than the number. */
  lemma VarianceIs(v: seq<real>) returns (m: real, n: real)
    requires |v| >= 2
    ensures m == Mean(v) && n == |v| as real && m * n == Sum(v)
    ensures Variance(v) == (SumOfSquares(v) - n * m * m) / (|v| - 1) as real
  {
    m, n := TheMean(v);
    AroundTheMean(v, m, n);
    VarianceOf(v, m);
  }

  lemma TheMean(v: seq<real>) returns (m: real, n: real)
    requires v != []
    ensures m == Mean(v) && n == |v| as real && m * n == Sum(v)
  {
    m, n := Mean(v), |v| as real;
    MeanUndone(v);
  }

  lemma VarianceOf(v: seq<real>, m: real)
    requires |v| >= 2 && m == Mean(v)
    ensures Variance(v) == Sum(Squares(v, m)) / (|v| - 1) as real
  {
  }

  lemma MeanUndone(v: seq<real>)
    requires v != []
    ensures Mean(v) * |v| as real == Sum(v)
  {
    Undivided(Sum(v), |v| as real);
  }

  lemma Undivided(s: real, n: real)
    requires n != 0.0
    ensures s / n * n == s
  {
  }

  lemma Collected(t: real, q: real, m: real, s: real, n: real)
    requires m * n == s && Around(t, q, m, s, n)
    ensures t == q - n * m * m
  {
    assert m * s == m * m * n;
  }

  lemma {:induction false} SumNotNegative(v: seq<real>)
    requires forall i :: 0 <= i < |v| ==> v[i] >= 0.0
    ensures Sum(v) >= 0.0
  {
    if v != [] { SumNotNegative(v[1..]); }
  }

  lemma VarianceNotNegative(v: seq<real>)
    requires |v| >= 2
    ensures Variance(v) >= 0.0
  {
    var squares := Squares(v, Mean(v));
    forall i | 0 <= i < |squares| ensures squares[i] >= 0.0 { SquareNotNegative(v[i] - Mean(v)); }
    SumNotNegative(squares);
    QuotientNotNegative(Sum(squares), (|v| - 1) as real);
  }

  lemma SquareNotNegative(x: real)
    ensures x * x >= 0.0
  {
  }

  lemma QuotientNotNegative(s: real, n: real)
    requires s >= 0.0 && n > 0.0
    ensures s / n >= 0.0
  {
  }

  /** The standard error, with a root that is one: its square is the variance over the number of values. */
  lemma ErrorIs(root: Root, v: seq<real>)
    requires |v| >= 2 && forall x :: x >= 0.0 ==> root(x) * root(x) == x
    ensures StandardError(root, v).Some?
    ensures var e := StandardError(root, v).value; e * e * |v| as real == Variance(v) && e >= 0.0
  {
    VarianceNotNegative(v);
    var n := |v| as real;
    var r, q := root(Variance(v)), root(n);
    assert q * q == n && q > 0.0;
    Quotient(r, q);
  }

  lemma Quotient(r: real, q: real)
    requires q > 0.0
    ensures (r / q) * (r / q) * (q * q) == r * r
  {
    var e := r / q;
    assert e * q == r;
    assert (e * e) * (q * q) == (e * q) * (e * q);
  }

  // ---- one summary -------------------------------------------------------------------------------

  lemma {:induction false} RunsAre(results: seq<Run>, evaluation: nat, run: Run)
    ensures run in RunsUnder(results, evaluation) <==> run in results && run.evaluation == evaluation
  {
    if results != [] { RunsAre(results[1..], evaluation, run); }
  }

  lemma {:induction false} FoundFirst(metrics: seq<Metric>, key: Key)
    ensures Find(metrics, key).None? <==> forall i :: 0 <= i < |metrics| ==> metrics[i].key != key
    ensures Find(metrics, key).Some? ==>
              exists i :: 0 <= i < |metrics| && metrics[i] == Find(metrics, key).value && metrics[i].key == key
                          && forall j :: 0 <= j < i ==> metrics[j].key != key
  {
    if metrics != [] {
      FoundFirst(metrics[1..], key);
      if metrics[0].key != key && Find(metrics[1..], key).Some? {
        var i :| 0 <= i < |metrics[1..]| && metrics[1..][i] == Find(metrics[1..], key).value && metrics[1..][i].key == key
                 && forall j :: 0 <= j < i ==> metrics[1..][j].key != key;
        assert metrics[i + 1] == metrics[1..][i];
        forall j | 0 <= j < i + 1 ensures metrics[j].key != key { if j > 0 { assert metrics[j] == metrics[1..][j - 1]; } }
      }
      assert forall i :: 0 < i < |metrics| ==> metrics[i] == metrics[1..][i - 1];
    }
  }

  /** How often the replicate was judged. */
  function Judgings(r: Replicate, evaluation: nat): nat {
    |RunsUnder(r.results, evaluation)|
  }

  /** A design is refused exactly when a seed repeats, a replicate was not evaluated, or some were judged more
      often than others. */
  lemma RefusedExactly(root: Root, replicates: seq<Replicate>, evaluation: nat)
    requires replicates != []
    ensures Summarize(root, replicates, evaluation).Refused? <==>
            || !DistinctSeeds(replicates)
            || (exists i :: 0 <= i < |replicates| && Judgings(replicates[i], evaluation) == 0)
            || (exists i, j :: 0 <= i < |replicates| && 0 <= j < |replicates| && Judgings(replicates[i], evaluation) != Judgings(replicates[j], evaluation))
  {
    SortSorts(replicates);
    RefusalsUnordered(Sort(replicates), replicates, evaluation);
    RefusalsAre(replicates, RunsOf(replicates, evaluation), evaluation);
  }

  /** And it says which. */
  lemma RefusedFor(root: Root, replicates: seq<Replicate>, evaluation: nat)
    requires replicates != [] && Summarize(root, replicates, evaluation).Refused?
    ensures var reasons := Summarize(root, replicates, evaluation).reasons;
            && (RepeatedSeed in reasons <==> !DistinctSeeds(replicates))
            && (NoEvaluation in reasons <==> exists i :: 0 <= i < |replicates| && Judgings(replicates[i], evaluation) == 0)
            && (UnbalancedJudging in reasons <==>
                  exists i, j :: 0 <= i < |replicates| && 0 <= j < |replicates| && Judgings(replicates[i], evaluation) != Judgings(replicates[j], evaluation))
  {
    SortSorts(replicates);
    RefusalsUnordered(Sort(replicates), replicates, evaluation);
    RefusedAs(replicates, RunsOf(replicates, evaluation), evaluation);
  }

  lemma RefusedAs(replicates: seq<Replicate>, runs: seq<seq<Run>>, evaluation: nat)
    requires |runs| == |replicates| && forall i :: 0 <= i < |runs| ==> |runs[i]| == Judgings(replicates[i], evaluation)
    ensures var reasons := Refusals(replicates, runs);
            && (RepeatedSeed in reasons <==> !DistinctSeeds(replicates))
            && (NoEvaluation in reasons <==> exists i :: 0 <= i < |replicates| && Judgings(replicates[i], evaluation) == 0)
            && (UnbalancedJudging in reasons <==>
                  exists i, j :: 0 <= i < |replicates| && 0 <= j < |replicates| && Judgings(replicates[i], evaluation) != Judgings(replicates[j], evaluation))
  {
    forall i | 0 <= i < |runs| ensures runs[i] == [] <==> Judgings(replicates[i], evaluation) == 0 {}
  }

  lemma RefusalsAre(replicates: seq<Replicate>, runs: seq<seq<Run>>, evaluation: nat)
    requires |runs| == |replicates| && forall i :: 0 <= i < |runs| ==> |runs[i]| == Judgings(replicates[i], evaluation)
    ensures Refusals(replicates, runs) != [] <==>
            || !DistinctSeeds(replicates)
            || (exists i :: 0 <= i < |replicates| && Judgings(replicates[i], evaluation) == 0)
            || (exists i, j :: 0 <= i < |replicates| && 0 <= j < |replicates| && Judgings(replicates[i], evaluation) != Judgings(replicates[j], evaluation))
  {
    forall i | 0 <= i < |runs| ensures runs[i] == [] <==> Judgings(replicates[i], evaluation) == 0 {}
  }

  /** What is reported of a metric that every run has, in one unit, over as many tasks each: the mean over the
      replicates, in order of seed, of the mean over each one's runs. */
  lemma SummaryIs(root: Root, ordered: seq<Replicate>, runs: seq<seq<Run>>, key: Key)
    requires ordered != [] && |runs| == |ordered| && forall i :: 0 <= i < |runs| ==> runs[i] != []
    ensures var s := Summary(root, ordered, runs, key);
            && (s.Present? <==>
                 && (forall i :: 0 <= i < |ordered| ==> ordered[i].tasks == ordered[0].tasks)
                 && (forall i, j :: 0 <= i < |runs| && 0 <= j < |runs[i]| ==> Find(runs[i][j].metrics, key).Some?)
                 && |Units(runs, key)| == 1)
            && (s.Present? ==>
                 && |s.values| == |runs| && s.tasks == ordered[0].tasks && s.unit in Units(runs, key)
                 && (forall i :: 0 <= i < |runs| ==> Reports(runs[i], key) && s.values[i] == Mean(ValuesOf(runs[i], key)))
                 && s.estimate == Mean(s.values) && s.error == StandardError(root, s.values))
    ensures var s := Summary(root, ordered, runs, key);
            && (s == Absent(TaskCountsDiffer) <==> exists i :: 0 <= i < |ordered| && ordered[i].tasks != ordered[0].tasks)
            && (s == Absent(SomeRunLacksIt) <==>
                 && (forall i :: 0 <= i < |ordered| ==> ordered[i].tasks == ordered[0].tasks)
                 && exists i, j :: 0 <= i < |runs| && 0 <= j < |runs[i]| && Find(runs[i][j].metrics, key).None?)
  {
    assert forall i :: 0 <= i < |runs| ==> runs[i] != [];
    if forall i :: 0 <= i < |runs| ==> Reports(runs[i], key) {
      assert Find(runs[0][0].metrics, key).Some?;
    }
  }

  /** The spread within replicates is pooled when each was judged twice or more: its square is the mean of the variances. */
  lemma SpreadIs(root: Root, runs: seq<seq<Run>>, key: Key) returns (v: seq<real>)
    requires runs != [] && forall i :: 0 <= i < |runs| ==> |runs[i]| >= 2 && Reports(runs[i], key)
    requires forall x :: x >= 0.0 ==> root(x) * root(x) == x
    ensures |v| == |runs| && forall i :: 0 <= i < |v| ==> v[i] == Variance(ValuesOf(runs[i], key))
    ensures Spread(root, runs, key).Some?
    ensures var s := Spread(root, runs, key).value; s >= 0.0 && s * s == Mean(v)
  {
    v := Variances(runs, key);
    VariancesNotNegative(runs, key);
    SquareRooted(root, Mean(v));
  }

  lemma SquareRooted(root: Root, x: real)
    requires x >= 0.0 && forall y :: y >= 0.0 ==> root(y) * root(y) == y
    ensures root(x) * root(x) == x && root(x) >= 0.0
  {
  }

  lemma NoSpread(root: Root, runs: seq<seq<Run>>, key: Key, k: nat)
    requires k < |runs| && |runs[k]| < 2 && forall i :: 0 <= i < |runs| ==> runs[i] != [] && Reports(runs[i], key)
    ensures Spread(root, runs, key).None?
  {
  }

  lemma VariancesNotNegative(runs: seq<seq<Run>>, key: Key)
    requires forall i :: 0 <= i < |runs| ==> |runs[i]| >= 2 && Reports(runs[i], key)
    ensures runs != [] ==> Mean(Variances(runs, key)) >= 0.0
  {
    var v := Variances(runs, key);
    forall i | 0 <= i < |v| ensures v[i] >= 0.0 { VarianceNotNegative(ValuesOf(runs[i], key)); }
    SumNotNegative(v);
    if v != [] { QuotientNotNegative(Sum(v), |v| as real); }
  }

  /** What is summarized: the replicates in order of seed, each metric some run has. */
  lemma SummarizedIs(root: Root, replicates: seq<Replicate>, evaluation: nat) returns (ordered: seq<Replicate>, runs: seq<seq<Run>>)
    requires replicates != [] && Summarize(root, replicates, evaluation).Summaries?
    ensures multiset(ordered) == multiset(replicates) && (forall i, j :: 0 <= i < j < |ordered| ==> ordered[i].seed < ordered[j].seed)
    ensures |runs| == |ordered| > 0
    ensures forall i :: 0 <= i < |runs| ==> runs[i] == RunsUnder(ordered[i].results, evaluation) && runs[i] != []
    ensures var m := Summarize(root, replicates, evaluation).metrics;
            && (forall key :: key in m <==> HasMetric(runs, key))
            && (forall key :: key in m ==> m[key] == Summary(root, ordered, runs, key))
  {
    ordered := Sort(replicates);
    runs := RunsOf(ordered, evaluation);
    SortSorts(replicates);
    NotRefused(ordered, runs);
    forall i | 0 <= i < |runs| ensures runs[i] == RunsUnder(ordered[i].results, evaluation) && runs[i] != [] {}
  }

  lemma NotRefused(ordered: seq<Replicate>, runs: seq<seq<Run>>)
    requires Refusals(ordered, runs) == []
    ensures DistinctSeeds(ordered) && forall i :: 0 <= i < |runs| ==> runs[i] != []
  {
  }

  predicate HasMetric(runs: seq<seq<Run>>, key: Key) {
    exists i, j, n :: 0 <= i < |runs| && 0 <= j < |runs[i]| && 0 <= n < |runs[i][j].metrics| && runs[i][j].metrics[n].key == key
  }

  // ---- one verdict -------------------------------------------------------------------------------

  /** A sign for what is better. */
  function Signed(maximize: bool, x: real): real {
    if maximize then x else -x
  }

  lemma {:induction false} ZipIs(seeds: seq<int>, values: seq<real>, i: nat)
    requires |seeds| == |values| && Rising(seeds) && i < |seeds|
    ensures Zip(seeds, values)[seeds[i]] == values[i]
  {
    if i > 0 {
      ZipIs(seeds[1..], values[1..], i - 1);
      assert seeds[0] < seeds[i];
    }
  }

  /** The map has the values by seed. */
  predicate Lists(seeds: seq<int>, m: map<int, real>, values: seq<real>) {
    |seeds| == |values| && forall i :: 0 <= i < |seeds| ==> seeds[i] in m && m[seeds[i]] == values[i]
  }

  lemma ZipLists(seeds: seq<int>, values: seq<real>)
    requires |seeds| == |values| && Rising(seeds)
    ensures Lists(seeds, Zip(seeds, values), values)
  {
    forall i | 0 <= i < |seeds| ensures seeds[i] in Zip(seeds, values) && Zip(seeds, values)[seeds[i]] == values[i] {
      ZipIs(seeds, values, i);
    }
  }

  /** The paired differences are those of the values, seed by seed, signed. */
  lemma DifferencesAre(a: Candidate, b: Candidate, x: seq<real>, y: seq<real>, maximize: bool)
    requires Paired(a, b) && |x| == |Seeds(a)| && |y| == |Seeds(b)|
    ensures |x| == |y| && Differences(a, b, x, y, maximize) == SignedAll(maximize, Minus(x, y))
  {
    SeedsAgree(a, b);
    SeedsRise(a);
    ZipLists(Seeds(a), x);
    ZipLists(Seeds(a), y);
    PairedBySeed(Seeds(a), Zip(Seeds(a), x), Zip(Seeds(a), y), x, y, maximize);
  }

  lemma PairedBySeed(seeds: seq<int>, xs: map<int, real>, ys: map<int, real>, x: seq<real>, y: seq<real>, maximize: bool)
    requires Lists(seeds, xs, x) && Lists(seeds, ys, y)
    ensures BySeed(seeds, xs, ys, maximize) == SignedAll(maximize, Minus(x, y))
  {
  }

  function SignedAll(maximize: bool, v: seq<real>): seq<real> {
    seq(|v|, i requires 0 <= i < |v| => Signed(maximize, v[i]))
  }

  /** What the rule compares: the difference of the means, and the error of the paired differences. */
  lemma PairedStatistics(root: Root, a: Candidate, b: Candidate, x: seq<real>, y: seq<real>, maximize: bool)
    requires Paired(a, b) && x != [] && |x| == |Seeds(a)| && |y| == |Seeds(b)|
    ensures |x| == |y|
    ensures var d := Differences(a, b, x, y, maximize);
            d != [] && |d| == |x| && Mean(d) == Signed(maximize, Mean(x) - Mean(y)) && StandardError(root, d) == StandardError(root, Minus(x, y))
  {
    DifferencesAre(a, b, x, y, maximize);
    MeanMinus(x, y);
    NegatedStatistics(root, Minus(x, y));
    assert SignedAll(maximize, Minus(x, y)) == if maximize then Minus(x, y) else Negated(Minus(x, y));
  }

  /** Both sides have the metric, in one unit, on a shared clock if it is a time. */
  predicate Measurable(o: Objective, sa: Option<MetricSummary>, sb: Option<MetricSummary>, timing: Option<string>) {
    Given(sa) && Given(sb) && sa.value.unit == sb.value.unit && (o.timed ==> timing.Some?)
  }

  /** A side is favored when it is better by more than the threshold, the larger of the least effect and *k*
      standard errors. */
  predicate Ruled(m: MetricComparison, o: Objective, k: real, better: real, error: real) {
    && m.mean == Some(better) && m.error == Some(error) && m.threshold.Some?
    && (m.threshold.value == o.minEffect || m.threshold.value == k * error)
    && m.threshold.value >= o.minEffect && m.threshold.value >= k * error
    && (m.verdict.FavorsA? <==> better > m.threshold.value)
    && (m.verdict.FavorsB? <==> -better > m.threshold.value)
    && (m.verdict.Inconclusive? <==> better <= m.threshold.value && -better <= m.threshold.value)
  }

  lemma ConcludeIs(o: Objective, k: real, d: seq<real>, better: real, error: Option<real>, sa: Option<MetricSummary>, sb: Option<MetricSummary>)
    requires o.minEffect >= 0.0
    ensures |d| >= 3 && error.Some? ==> Ruled(Conclude(o, k, d, better, error, sa, sb), o, k, better, error.value)
    ensures |d| < 3 ==> Conclude(o, k, d, better, error, sa, sb).verdict.Inconclusive?
  {
  }

  /** Main result: of two comparable candidates measured on three seeds or more, the rule is on the difference of
      the means and the standard error of the differences seed by seed. */
  lemma VerdictIs(root: Root, o: Objective, k: real, a: Candidate, b: Candidate, sa: Option<MetricSummary>, sb: Option<MetricSummary>, timing: Option<string>)
    requires Paired(a, b) && a.replicates != [] && b.replicates != [] && Fits(a, sa) && Fits(b, sb) && Measurable(o, sa, sb, timing)
    requires o.minEffect >= 0.0
    ensures |sa.value.values| == |sb.value.values| == |a.replicates|
    ensures |a.replicates| >= 3 ==>
              var x, y := sa.value.values, sb.value.values;
              && StandardError(root, Minus(x, y)).Some?
              && Ruled(Judge(root, o, k, a, b, sa, sb, true, timing), o, k, Signed(o.maximize, Mean(x) - Mean(y)), StandardError(root, Minus(x, y)).value)
    ensures |a.replicates| < 3 ==> Judge(root, o, k, a, b, sa, sb, true, timing).verdict.Inconclusive?
  {
    SeedsRise(a);
    SeedsRise(b);
    SeedsAgree(a, b);
    var x, y := sa.value.values, sb.value.values;
    PairedStatistics(root, a, b, x, y, o.maximize);
    var d := Differences(a, b, x, y, o.maximize);
    ConcludeIs(o, k, d, Mean(d), StandardError(root, d), sa, sb);
    assert Judge(root, o, k, a, b, sa, sb, true, timing) == Rule(root, o, k, d, sa, sb);
  }

  /** There is no verdict exactly when something to compare is missing. */
  lemma NoVerdictExactly(root: Root, o: Objective, k: real, a: Candidate, b: Candidate, sa: Option<MetricSummary>, sb: Option<MetricSummary>, comparable: bool, timing: Option<string>)
    requires comparable ==> Paired(a, b)
    requires a.replicates != [] && b.replicates != [] && Fits(a, sa) && Fits(b, sb)
    ensures Judge(root, o, k, a, b, sa, sb, comparable, timing).verdict.NotComparable? <==> !comparable || !Measurable(o, sa, sb, timing)
  {
  }

  /** What else is reported: the summaries of the two sides as they are, why there is no verdict if there is none, and
      then no numbers. */
  lemma JudgedIs(root: Root, o: Objective, k: real, a: Candidate, b: Candidate, sa: Option<MetricSummary>, sb: Option<MetricSummary>, comparable: bool, timing: Option<string>)
    requires comparable ==> Paired(a, b)
    requires a.replicates != [] && b.replicates != [] && Fits(a, sa) && Fits(b, sb)
    ensures var m := Judge(root, o, k, a, b, sa, sb, comparable, timing);
            var clock, given := !o.timed || timing.Some?, Given(sa) && Given(sb);
            && m.a == sa && m.b == sb
            && (m.why.Incomparable? <==> !comparable)
            && (m.why.NoSharedClock? <==> comparable && !clock)
            && (m.why.AbsentOnASide? <==> comparable && clock && !given)
            && (m.why.UnitsDisagree? <==> comparable && clock && given && sa.value.unit != sb.value.unit)
            && (m.verdict.NotComparable? ==> m.differences == [] && m.mean.None? && m.error.None? && m.threshold.None?)
  {
  }

  /** And where there is one, the differences seed by seed, and whether there were too few. */
  lemma MeasuredIs(root: Root, o: Objective, k: real, a: Candidate, b: Candidate, sa: Option<MetricSummary>, sb: Option<MetricSummary>, timing: Option<string>)
    requires Paired(a, b) && a.replicates != [] && b.replicates != [] && Fits(a, sa) && Fits(b, sb) && Measurable(o, sa, sb, timing)
    ensures |sa.value.values| == |sb.value.values| == |a.replicates|
    ensures var m := Judge(root, o, k, a, b, sa, sb, true, timing);
            && m.differences == SignedAll(o.maximize, Minus(sa.value.values, sb.value.values))
            && m.why == if |a.replicates| < 3 then TooFew else Measured
  {
    SeedsRise(a);
    SeedsRise(b);
    SeedsAgree(a, b);
    DifferencesAre(a, b, sa.value.values, sb.value.values, o.maximize);
  }

  // ---- the whole report --------------------------------------------------------------------------

  /** What the verdicts come to together. */
  lemma RelationIs(verdicts: seq<Verdict>, comparable: bool)
    ensures var r := Relate(verdicts, comparable);
            var some := comparable && forall v :: v in verdicts ==> !v.NotComparable?;
            && (r.Unrelated? <==> !some)
            && (r.TradeOff? <==> some && FavorsA in verdicts && FavorsB in verdicts)
            && (r.AFavored? <==> some && FavorsA in verdicts && FavorsB !in verdicts)
            && (r.BFavored? <==> some && FavorsB in verdicts && FavorsA !in verdicts)
            && (r.Undetermined? <==> some && FavorsA !in verdicts && FavorsB !in verdicts)
  {
  }

  /** A metric is looked for in the evaluations in order: the first that has it. */
  lemma {:induction false} FirstFound(summaries: seq<map<Key, MetricSummary>>, key: Key, k: nat)
    requires k < |summaries| && key in summaries[k] && forall i :: 0 <= i < k ==> key !in summaries[i]
    ensures FindSummary(summaries, key) == Some(summaries[k][key])
  {
    if k > 0 { FirstFound(summaries[1..], key, k - 1); }
  }

  lemma {:induction false} NoneFound(summaries: seq<map<Key, MetricSummary>>, key: Key)
    requires forall i :: 0 <= i < |summaries| ==> key !in summaries[i]
    ensures FindSummary(summaries, key) == None
  {
    if summaries != [] { NoneFound(summaries[1..], key); }
  }

  /** One summary an evaluation, unless one refuses. */
  lemma {:induction false} SummariesAre(root: Root, c: Candidate, evaluations: seq<Evaluation>, k: nat)
    requires c.replicates != [] && k < |evaluations| && AllSummaries(root, c, evaluations).Some?
    ensures |AllSummaries(root, c, evaluations).value| == |evaluations|
    ensures Summarize(root, c.replicates, evaluations[k].fingerprint) == Summaries(AllSummaries(root, c, evaluations).value[k])
  {
    if k > 0 {
      SummariesAre(root, c, evaluations[1..], k - 1);
    } else if |evaluations| > 1 {
      SummariesAre(root, c, evaluations[1..], 0);
    }
  }

  lemma {:induction false} NoSummaries(root: Root, c: Candidate, evaluations: seq<Evaluation>) returns (k: nat)
    requires c.replicates != [] && AllSummaries(root, c, evaluations).None?
    ensures k < |evaluations| && Summarize(root, c.replicates, evaluations[k].fingerprint).Refused?
  {
    if Summarize(root, c.replicates, evaluations[0].fingerprint).Refused? {
      k := 0;
    } else {
      var i := NoSummaries(root, c, evaluations[1..]);
      k := i + 1;
    }
  }

  /** There is a report exactly when both designs can be summarized. */
  lemma ReportIs(root: Root, objectives: seq<Objective>, k: real, a: Candidate, b: Candidate, suite: Suite)
    requires Runs(a) && Runs(b)
    ensures var x, y := AllSummaries(root, a, a.evaluations), AllSummaries(root, b, b.evaluations);
            var report, c := Compare(root, objectives, k, a, b, suite), Compared(suite, a, b);
            && (c.comparable ==> Paired(a, b))
            && (report.Some? <==> x.Some? && y.Some?)
            && (report.Some? ==>
                  && AllFits(a, x.value) && AllFits(b, y.value)
                  && report.value == Conclusion(root, objectives, k, a, b, x.value, y.value, c))
  {
    ComparablePaired(suite, a, b);
    ReportUnder(root, objectives, k, a, b, Compared(suite, a, b));
  }

  lemma ReportUnder(root: Root, objectives: seq<Objective>, k: real, a: Candidate, b: Candidate, c: Conditions)
    requires Runs(a) && Runs(b) && (c.comparable ==> Paired(a, b))
    ensures var x, y := AllSummaries(root, a, a.evaluations), AllSummaries(root, b, b.evaluations);
            var report := CompareUnder(root, objectives, k, a, b, c);
            && (report.Some? <==> x.Some? && y.Some?)
            && (report.Some? ==>
                  && AllFits(a, x.value) && AllFits(b, y.value)
                  && report.value == Conclusion(root, objectives, k, a, b, x.value, y.value, c))
  {
    AllFit(root, a);
    AllFit(root, b);
  }

  /** It has one verdict an objective, in their order, on each side's summary of its metric. */
  lemma JudgesEach(root: Root, objectives: seq<Objective>, k: real, a: Candidate, b: Candidate,
                   x: seq<map<Key, MetricSummary>>, y: seq<map<Key, MetricSummary>>, c: Conditions)
    requires c.comparable ==> Paired(a, b)
    requires a.replicates != [] && b.replicates != [] && AllFits(a, x) && AllFits(b, y)
    ensures var report := Conclusion(root, objectives, k, a, b, x, y, c);
            && report.conditions == c && |report.metrics| == |objectives|
            && (forall i :: 0 <= i < |objectives| ==>
                  report.metrics[i] == Judge(root, objectives[i], k, a, b, FindSummary(x, objectives[i].key), FindSummary(y, objectives[i].key),
                                             c.comparable, c.timing))
            && report.outcomes == TaskOutcomesOf(a, b)
            && (exists verdicts :: |verdicts| == |objectives| && (forall i :: 0 <= i < |verdicts| ==> verdicts[i] == report.metrics[i].verdict)
                                   && report.relation == Relate(verdicts, c.comparable))
  {
    var report := Conclusion(root, objectives, k, a, b, x, y, c);
    assert |Verdicts(report.metrics)| == |objectives|;
  }

  // ---- the outcomes by task ----------------------------------------------------------------------

  /** The keys either side has on which the first wins, loses, ties, or is not scored against the second. */
  function WinsOf(l: map<(int, nat), Option<real>>, r: map<(int, nat), Option<real>>): set<(int, nat)> {
    set key | key in l && key in r && l[key].Some? && r[key].Some? && l[key].value > r[key].value
  }

  function TiesOf(l: map<(int, nat), Option<real>>, r: map<(int, nat), Option<real>>): set<(int, nat)> {
    set key | key in l && key in r && l[key].Some? && r[key].Some? && l[key].value == r[key].value
  }

  function UnscoredOf(l: map<(int, nat), Option<real>>, r: map<(int, nat), Option<real>>): set<(int, nat)> {
    set key | key in l.Keys + r.Keys && !(key in l && key in r && l[key].Some? && r[key].Some?)
  }

  /** Main result: what is counted. */
  lemma OutcomesAre(a: Candidate, b: Candidate)
    ensures var l, r := ScoresOf(a.replicates), ScoresOf(b.replicates);
            var o := TaskOutcomesOf(a, b);
            && (o.None? <==> l == map[] || r == map[])
            && (o.Some? ==>
                  && o.value.wins == |WinsOf(l, r)| && o.value.losses == |WinsOf(r, l)|
                  && o.value.ties == |TiesOf(l, r)| && o.value.unscored == |UnscoredOf(l, r)|)
  {
    var l, r := ScoresOf(a.replicates), ScoresOf(b.replicates);
    var keys := l.Keys + r.Keys;
    assert Where(l, r, keys, Some(1)) == WinsOf(l, r) && Where(l, r, keys, Some(-1)) == WinsOf(r, l);
    assert Where(l, r, keys, Some(0)) == TiesOf(l, r) && Where(l, r, keys, None) == UnscoredOf(l, r);
  }

  /** A key has the score observed last for it. */
  predicate LastScore(replicates: seq<Replicate>, i: nat, j: nat, key: (int, nat)) {
    && i < |replicates| && j < |replicates[i].scores| && (replicates[i].seed, replicates[i].scores[j].0) == key
    && (forall n :: j < n < |replicates[i].scores| ==> replicates[i].scores[n].0 != key.1)
    && (forall m :: i < m < |replicates| && replicates[m].seed == key.0 ==>
          forall n :: 0 <= n < |replicates[m].scores| ==> replicates[m].scores[n].0 != key.1)
  }

  lemma {:induction false} UpToKeeps(scores: seq<(nat, Option<real>)>, seed: int, found: map<(int, nat), Option<real>>, key: (int, nat))
    requires key.0 != seed || forall n :: 0 <= n < |scores| ==> scores[n].0 != key.1
    ensures var m := ScoresUpTo(scores, seed, found); (key in m <==> key in found) && (key in m ==> m[key] == found[key])
  {
    if scores != [] { UpToKeeps(scores[1..], seed, found[(seed, scores[0].0) := scores[0].1], key); }
  }

  lemma {:induction false} UpToIs(scores: seq<(nat, Option<real>)>, seed: int, found: map<(int, nat), Option<real>>, j: nat)
    requires j < |scores| && forall n :: j < n < |scores| ==> scores[n].0 != scores[j].0
    ensures var m := ScoresUpTo(scores, seed, found); (seed, scores[j].0) in m && m[(seed, scores[j].0)] == scores[j].1
  {
    var more := found[(seed, scores[0].0) := scores[0].1];
    if j == 0 {
      UpToKeeps(scores[1..], seed, more, (seed, scores[0].0));
    } else {
      UpToIs(scores[1..], seed, more, j - 1);
    }
  }

  lemma {:induction false} ScoreIs(replicates: seq<Replicate>, i: nat, j: nat, key: (int, nat))
    requires LastScore(replicates, i, j, key)
    ensures key in ScoresOf(replicates) && ScoresOf(replicates)[key] == replicates[i].scores[j].1
  {
    var n := |replicates| - 1;
    if i == n {
      UpToIs(replicates[n].scores, replicates[n].seed, ScoresOf(replicates[..n]), j);
    } else {
      UpToKeeps(replicates[n].scores, replicates[n].seed, ScoresOf(replicates[..n]), key);
      assert LastScore(replicates[..n], i, j, key);
      ScoreIs(replicates[..n], i, j, key);
    }
  }
}
