/** The replicates of a harness candidate, and summarizing them (`core/harness_comparison.py`). Arithmetic is
    real; the square root is any function that is not negative. */
module Summaries {
  import opened Util

  /** A metric and slice, numbered. *unit* is what its metadata says. */
  type Key = nat

  datatype Metric = Metric(key: Key, value: real, unit: string)

  /** One evaluation run: under which evaluation, of which evidence, and its metrics. */
  datatype Run = Run(evaluation: nat, subject: nat, metrics: seq<Metric>)

  /** What the evidence claims of its tasks, in manifest order. */
  datatype Assignment = Assignment(cohort: nat, seed: int, tasks: seq<nat>)

  const FACETS := 10

  /** The declared execution facets but the timing label, by number. */
  type Facets = f: seq<string> | |f| == FACETS witness ["", "", "", "", "", "", "", "", "", ""]

  /** *tasks* is how many it ran; *scores* every `task_success` its restricted reports observed, by task, in order;
      *digest* its evidence's. */
  datatype Replicate = Replicate(
    seed: int, replicate: nat, sampling: nat, assignment: Assignment, facets: Facets, timing: Option<string>, digest: nat,
    tasks: nat, results: seq<Run>, scores: seq<(nat, Option<real>)>)

  /** A bound evaluation; *measures* is the cohort of its suite and sampling, if the suite is pinned. */
  datatype Evaluation = Evaluation(fingerprint: nat, name: string, determinism: string, measures: Option<nat>)

  datatype Candidate = Candidate(evaluations: seq<Evaluation>, replicates: seq<Replicate>)

  // ---- statistics ----------------------------------------------------------------------------------

  function Sum(v: seq<real>): real {
    if v == [] then 0.0 else v[0] + Sum(v[1..])
  }

  function Mean(v: seq<real>): real
    requires v != []
  {
    Sum(v) / |v| as real
  }

  function Squares(v: seq<real>, m: real): seq<real> {
    seq(|v|, i requires 0 <= i < |v| => (v[i] - m) * (v[i] - m))
  }

  function Variance(v: seq<real>): real
    requires |v| >= 2
  {
    Sum(Squares(v, Mean(v))) / (|v| - 1) as real
  }

  ghost predicate IsRoot(root: real -> real) {
    forall x :: root(x) >= 0.0 && (x > 0.0 ==> root(x) > 0.0)
  }

  /** What is used of the square root. */
  type Root = root: real -> real | IsRoot(root) witness x => if x > 0.0 then x else 0.0

  /** `stdev(v) / sqrt(n)`, unknown for one value. */
  function StandardError(root: Root, v: seq<real>): Option<real>
  {
    if |v| >= 2 then Some(root(Variance(v)) / root(|v| as real)) else None
  }

  // ---- summaries -----------------------------------------------------------------------------------

  predicate Before(x: Replicate, y: Replicate) {
    x.seed < y.seed || (x.seed == y.seed && x.replicate < y.replicate)
  }

  function Insert(r: Replicate, sorted: seq<Replicate>): seq<Replicate> {
    if sorted == [] || !Before(sorted[0], r) then [r] + sorted
    else [sorted[0]] + Insert(r, sorted[1..])
  }

  /** In order of seed, then replicate. */
  function Sort(replicates: seq<Replicate>): seq<Replicate> {
    if replicates == [] then [] else Insert(replicates[0], Sort(replicates[1..]))
  }

  predicate DistinctSeeds(replicates: seq<Replicate>) {
    forall i, j :: 0 <= i < j < |replicates| ==> replicates[i].seed != replicates[j].seed
  }

  function RunsUnder(results: seq<Run>, evaluation: nat): seq<Run> {
    if results == [] then []
    else (if results[0].evaluation == evaluation then [results[0]] else []) + RunsUnder(results[1..], evaluation)
  }

  function RunsOf(replicates: seq<Replicate>, evaluation: nat): seq<seq<Run>> {
    seq(|replicates|, i requires 0 <= i < |replicates| => RunsUnder(replicates[i].results, evaluation))
  }

  function Find(metrics: seq<Metric>, key: Key): Option<Metric> {
    if metrics == [] then None else if metrics[0].key == key then Some(metrics[0]) else Find(metrics[1..], key)
  }

  predicate Reports(runs: seq<Run>, key: Key) {
    forall j :: 0 <= j < |runs| ==> Find(runs[j].metrics, key).Some?
  }

  function ValuesOf(runs: seq<Run>, key: Key): seq<real>
    requires Reports(runs, key)
  {
    seq(|runs|, j requires 0 <= j < |runs| => Find(runs[j].metrics, key).value.value)
  }

  datatype MetricSummary =
    | Absent(absent: Absence)
    | Present(unit: string, estimate: real, error: Option<real>, spread: Option<real>, tasks: nat, values: seq<real>)

  datatype Absence = TaskCountsDiffer | SomeRunLacksIt | UnitsDiffer

  datatype Refusal = RepeatedSeed | NoEvaluation | UnbalancedJudging

  function Units(runs: seq<seq<Run>>, key: Key): set<string> {
    set i, j | 0 <= i < |runs| && 0 <= j < |runs[i]| && Find(runs[i][j].metrics, key).Some? :: Find(runs[i][j].metrics, key).value.unit
  }

  /** `v_r`: each replicate's mean over its judging runs. */
  function Means(runs: seq<seq<Run>>, key: Key): seq<real>
    requires forall i :: 0 <= i < |runs| ==> runs[i] != [] && Reports(runs[i], key)
  {
    seq(|runs|, i requires 0 <= i < |runs| => Mean(ValuesOf(runs[i], key)))
  }

  /** The variance of each replicate's judging runs. */
  function Variances(runs: seq<seq<Run>>, key: Key): seq<real>
    requires forall i :: 0 <= i < |runs| ==> |runs[i]| >= 2 && Reports(runs[i], key)
  {
    seq(|runs|, i requires 0 <= i < |runs| => Variance(ValuesOf(runs[i], key)))
  }

  /** The pooled spread within replicates, when each was judged twice or more. */
  function Spread(root: Root, runs: seq<seq<Run>>, key: Key): Option<real>
    requires runs != [] && forall i :: 0 <= i < |runs| ==> runs[i] != [] && Reports(runs[i], key)
  {
    if forall i :: 0 <= i < |runs| ==> |runs[i]| >= 2 then
      Some(root(Mean(Variances(runs, key))))
    else None
  }

  function Summary(root: Root, ordered: seq<Replicate>, runs: seq<seq<Run>>, key: Key): MetricSummary
    requires ordered != [] && |runs| == |ordered| && forall i :: 0 <= i < |runs| ==> runs[i] != []
  {
    if exists i :: 0 <= i < |ordered| && ordered[i].tasks != ordered[0].tasks then Absent(TaskCountsDiffer)
    else if exists i :: 0 <= i < |runs| && !Reports(runs[i], key) then Absent(SomeRunLacksIt)
    else if |Units(runs, key)| != 1 then Absent(UnitsDiffer)
    else
      var v := Means(runs, key);
      Present(Find(runs[0][0].metrics, key).value.unit, Mean(v), StandardError(root, v), Spread(root, runs, key), ordered[0].tasks, v)
  }

  function Keys(runs: seq<seq<Run>>): set<Key> {
    set i, j, n | 0 <= i < |runs| && 0 <= j < |runs[i]| && 0 <= n < |runs[i][j].metrics| :: runs[i][j].metrics[n].key
  }

  function Refusals(ordered: seq<Replicate>, runs: seq<seq<Run>>): seq<Refusal> {
    (if DistinctSeeds(ordered) then [] else [RepeatedSeed])
    + (if exists i :: 0 <= i < |runs| && runs[i] == [] then [NoEvaluation] else [])
    + (if exists i, j :: 0 <= i < |runs| && 0 <= j < |runs| && |runs[i]| != |runs[j]| then [UnbalancedJudging] else [])
  }

  datatype Summarized = Refused(reasons: seq<Refusal>) | Summaries(metrics: map<Key, MetricSummary>)

  /** `summarize`: one candidate's results for one evaluation. */
  function Summarize(root: Root, replicates: seq<Replicate>, evaluation: nat): Summarized
    requires replicates != []
  {
    var ordered := Sort(replicates);
    var runs := RunsOf(ordered, evaluation);
    var reasons := Refusals(ordered, runs);
    if reasons != [] || ordered == [] then Refused(reasons)
    else
      assert forall i :: 0 <= i < |runs| ==> runs[i] != [];
      Summaries(map key | key in Keys(runs) :: Summary(root, ordered, runs, key))
  }

  /** The loops of `summarize` over one metric's runs: every replicate's values, the units seen, and whether
      some run lacks the metric. */
  method Collect(runs: seq<seq<Run>>, key: Key) returns (values: seq<seq<real>>, units: set<string>, missing: bool)
    ensures missing <==> exists i :: 0 <= i < |runs| && !Reports(runs[i], key)
    ensures !missing ==> |values| == |runs| && units == Units(runs, key)
                         && forall i :: 0 <= i < |runs| ==> Reports(runs[i], key) && values[i] == ValuesOf(runs[i], key)
  {
    values, units, missing := [], {}, false;
    for i := 0 to |runs|
      invariant missing <==> exists k :: 0 <= k < i && !Reports(runs[k], key)
      invariant |values| == i && (!missing ==> units == Units(runs[..i], key))
      invariant !missing ==> forall k :: 0 <= k < i ==> Reports(runs[k], key) && values[k] == ValuesOf(runs[k], key)
    {
      var found, seen, lacks := CollectRun(runs[i], key);
      values := values + [found];
      units := units + seen;
      missing := missing || lacks;
      UnitsFront(runs, i, key);
    }
    assert runs[..|runs|] == runs;
  }

  method CollectRun(runs: seq<Run>, key: Key) returns (values: seq<real>, units: set<string>, missing: bool)
    ensures missing <==> !Reports(runs, key)
    ensures !missing ==> values == ValuesOf(runs, key) && units == Units([runs], key)
  {
    values, units, missing := [], {}, false;
    for j := 0 to |runs|
      invariant !missing && |values| == j && forall k :: 0 <= k < j ==> Find(runs[k].metrics, key).Some? && values[k] == Find(runs[k].metrics, key).value.value
      invariant units == set k | 0 <= k < j && Find(runs[k].metrics, key).Some? :: Find(runs[k].metrics, key).value.unit
    {
      var metric := Find(runs[j].metrics, key);
      if metric.None? {
        missing := true;
        return;
      }
      values := values + [metric.value.value];
      units := units + {metric.value.unit};
    }
    UnitsOfOne(runs, key);
  }

  lemma UnitsOfOne(runs: seq<Run>, key: Key)
    ensures Units([runs], key) == set k | 0 <= k < |runs| && Find(runs[k].metrics, key).Some? :: Find(runs[k].metrics, key).value.unit
  {
    var rs := [runs];
    forall k | 0 <= k < |runs| && Find(runs[k].metrics, key).Some? ensures Find(runs[k].metrics, key).value.unit in Units(rs, key) {
      assert rs[0][k] == runs[k];
    }
  }

  lemma UnitsFront(runs: seq<seq<Run>>, n: nat, key: Key)
    requires n < |runs|
    ensures Units(runs[..n + 1], key) == Units(runs[..n], key) + Units([runs[n]], key)
  {
    var all, front, last := runs[..n + 1], runs[..n], [runs[n]];
    forall u | u in Units(all, key) ensures u in Units(front, key) + Units(last, key) {
      var i, j :| 0 <= i < |all| && 0 <= j < |all[i]| && Find(all[i][j].metrics, key).Some? && Find(all[i][j].metrics, key).value.unit == u;
      if i < n { assert front[i][j] == all[i][j]; } else { assert last[0][j] == all[i][j]; }
    }
    forall u | u in Units(front, key) ensures u in Units(all, key) {
      var i, j :| 0 <= i < |front| && 0 <= j < |front[i]| && Find(front[i][j].metrics, key).Some? && Find(front[i][j].metrics, key).value.unit == u;
      assert all[i][j] == front[i][j];
    }
    forall u | u in Units(last, key) ensures u in Units(all, key) {
      var i, j :| 0 <= i < |last| && 0 <= j < |last[i]| && Find(last[i][j].metrics, key).Some? && Find(last[i][j].metrics, key).value.unit == u;
      assert all[n][j] == last[i][j];
    }
  }

  // ---- the order of replicates does not matter ----------------------------------------------------------

  predicate Increasing(sorted: seq<Replicate>) {
    forall i, j :: 0 <= i < j < |sorted| ==> sorted[i].seed < sorted[j].seed
  }

  predicate Ordered(sorted: seq<Replicate>) {
    forall i, j :: 0 <= i < j < |sorted| ==> sorted[i].seed <= sorted[j].seed
  }

  lemma {:induction false} InsertAdds(r: Replicate, sorted: seq<Replicate>)
    ensures multiset(Insert(r, sorted)) == multiset(sorted) + multiset{r}
  {
    if sorted != [] && Before(sorted[0], r) {
      InsertAdds(r, sorted[1..]);
      assert sorted == [sorted[0]] + sorted[1..];
    }
  }

  lemma {:induction false} InsertOrders(r: Replicate, sorted: seq<Replicate>, least: int)
    requires Ordered(sorted) && least <= r.seed && forall i :: 0 <= i < |sorted| ==> least <= sorted[i].seed
    ensures Ordered(Insert(r, sorted)) && forall i :: 0 <= i < |Insert(r, sorted)| ==> least <= Insert(r, sorted)[i].seed
  {
    if sorted != [] && Before(sorted[0], r) {
      InsertOrders(r, sorted[1..], sorted[0].seed);
    }
  }

  lemma InsertKeeps(r: Replicate, sorted: seq<Replicate>)
    requires Ordered(sorted)
    ensures Ordered(Insert(r, sorted)) && multiset(Insert(r, sorted)) == multiset(sorted) + multiset{r}
  {
    InsertAdds(r, sorted);
    InsertOrders(r, sorted, if sorted == [] || r.seed < sorted[0].seed then r.seed else sorted[0].seed);
  }

  lemma {:induction false} SortOrders(replicates: seq<Replicate>)
    ensures Ordered(Sort(replicates)) && multiset(Sort(replicates)) == multiset(replicates)
  {
    if replicates != [] {
      SortOrders(replicates[1..]);
      InsertKeeps(replicates[0], Sort(replicates[1..]));
      assert replicates == [replicates[0]] + replicates[1..];
    }
  }

  lemma SortSorts(replicates: seq<Replicate>)
    ensures Ordered(Sort(replicates)) && multiset(Sort(replicates)) == multiset(replicates)
    ensures |Sort(replicates)| == |replicates|
  {
    SortOrders(replicates);
    assert |multiset(Sort(replicates))| == |Sort(replicates)| && |multiset(replicates)| == |replicates|;
  }

  /** Whether a seed repeats is a matter of the collection, not of its order. */
  lemma DistinctIsUnordered(x: seq<Replicate>, y: seq<Replicate>)
    requires multiset(x) == multiset(y) && DistinctSeeds(x)
    ensures DistinctSeeds(y)
  {
    forall i, j | 0 <= i < j < |y| ensures y[i].seed != y[j].seed {
      if y[i].seed == y[j].seed {
        assert y[i] in multiset(y) && y[j] in multiset(y);
        var k :| 0 <= k < |x| && x[k] == y[i];
        var l :| 0 <= l < |x| && x[l] == y[j];
        assert k == l;
        TwicePresent(y, i, j);
        OncePresent(x, k);
        assert false;
      }
    }
  }

  lemma TwicePresent(y: seq<Replicate>, i: nat, j: nat)
    requires i < j < |y| && y[i] == y[j]
    ensures multiset(y)[y[i]] >= 2
  {
    assert y == y[..j] + ([y[j]] + y[j + 1..]);
    assert y[i] == y[..j][i] && y[..j][i] in multiset(y[..j]);
  }

  lemma OncePresent(x: seq<Replicate>, k: nat)
    requires k < |x| && DistinctSeeds(x)
    ensures multiset(x)[x[k]] == 1
  {
    assert x == x[..k] + ([x[k]] + x[k + 1..]);
    assert x[k] !in x[..k] && x[k] !in x[k + 1..];
  }

  lemma SameFirst(x: seq<Replicate>, y: seq<Replicate>)
    requires Increasing(x) && Increasing(y) && x != [] && y != [] && x[0] in y && y[0] in x
    ensures x[0] == y[0]
  {
    var k :| 0 <= k < |y| && y[k] == x[0];
    var l :| 0 <= l < |x| && x[l] == y[0];
    if k > 0 { assert y[0].seed < y[k].seed; }
    if l > 0 { assert x[0].seed < x[l].seed; }
  }

  lemma Tail(x: seq<Replicate>)
    requires x != []
    ensures multiset(x[1..]) == multiset(x) - multiset{x[0]}
  {
    assert x == [x[0]] + x[1..];
  }

  lemma TailsAlike(x: seq<Replicate>, y: seq<Replicate>)
    requires Increasing(x) && Increasing(y) && multiset(x) == multiset(y) && x != [] && y != []
    ensures x[0] == y[0] && multiset(x[1..]) == multiset(y[1..])
    ensures Increasing(x[1..]) && Increasing(y[1..])
  {
    assert x[0] in multiset(x) && y[0] in multiset(y);
    SameFirst(x, y);
    Tail(x);
    Tail(y);
  }

  lemma {:induction false} SortedIsUnique(x: seq<Replicate>, y: seq<Replicate>)
    requires Increasing(x) && Increasing(y) && multiset(x) == multiset(y)
    ensures x == y
    decreases |x|
  {
    assert |x| == |multiset(x)| && |y| == |multiset(y)|;
    if x != [] {
      TailsAlike(x, y);
      SortedIsUnique(x[1..], y[1..]);
      assert x == [x[0]] + x[1..] && y == [y[0]] + y[1..];
    }
  }

  lemma SortIsUnordered(x: seq<Replicate>, y: seq<Replicate>)
    requires multiset(x) == multiset(y) && DistinctSeeds(x)
    ensures Sort(x) == Sort(y)
  {
    SortSorts(x);
    SortSorts(y);
    DistinctIsUnordered(x, Sort(x));
    DistinctIsUnordered(x, Sort(y));
    SortedIsUnique(Sort(x), Sort(y));
  }

  /** The refusals say whether a seed repeats, a replicate has no run, and two have different numbers of runs. */
  lemma RefusalsUnordered(x: seq<Replicate>, y: seq<Replicate>, evaluation: nat)
    requires multiset(x) == multiset(y)
    ensures Refusals(x, RunsOf(x, evaluation)) == Refusals(y, RunsOf(y, evaluation))
  {
    if DistinctSeeds(x) { DistinctIsUnordered(x, y); } else if DistinctSeeds(y) { DistinctIsUnordered(y, x); }
    SameMembers(x, y);
    RefusedAlike(x, y, evaluation);
    RefusedAlike(y, x, evaluation);
  }

  lemma SameMembers(x: seq<Replicate>, y: seq<Replicate>)
    requires multiset(x) == multiset(y)
    ensures forall r :: r in x <==> r in y
  {
    forall r ensures r in x <==> r in y {
      assert r in x <==> r in multiset(x);
      assert r in y <==> r in multiset(y);
    }
  }

  lemma RefusedAlike(x: seq<Replicate>, y: seq<Replicate>, evaluation: nat)
    requires forall r :: r in x ==> r in y
    ensures var rx, ry := RunsOf(x, evaluation), RunsOf(y, evaluation);
            && ((exists i :: 0 <= i < |rx| && rx[i] == []) ==> exists i :: 0 <= i < |ry| && ry[i] == [])
            && ((exists i, j :: 0 <= i < |rx| && 0 <= j < |rx| && |rx[i]| != |rx[j]|) ==>
                  exists i, j :: 0 <= i < |ry| && 0 <= j < |ry| && |ry[i]| != |ry[j]|)
  {
    var rx, ry := RunsOf(x, evaluation), RunsOf(y, evaluation);
    forall i | 0 <= i < |rx| ensures exists k :: 0 <= k < |ry| && ry[k] == rx[i] {
      assert x[i] in y;
      var k :| 0 <= k < |y| && y[k] == x[i];
      assert ry[k] == rx[i];
    }
    if i, j :| 0 <= i < |rx| && 0 <= j < |rx| && |rx[i]| != |rx[j]| {
      var k :| 0 <= k < |ry| && ry[k] == rx[i];
      var l :| 0 <= l < |ry| && ry[l] == rx[j];
      assert |ry[k]| != |ry[l]|;
    }
  }

  /** Main result: a summary, or its refusal, does not depend on the order the replicates come in. */
  lemma SummaryIgnoresOrder(root: Root, x: seq<Replicate>, y: seq<Replicate>, evaluation: nat)
    requires x != [] && y != [] && multiset(x) == multiset(y)
    ensures Summarize(root, x, evaluation) == Summarize(root, y, evaluation)
  {
    SortSorts(x);
    SortSorts(y);
    RefusalsUnordered(Sort(x), Sort(y), evaluation);
    if DistinctSeeds(x) {
      SortIsUnordered(x, y);
    } else {
      if DistinctSeeds(Sort(x)) { DistinctIsUnordered(Sort(x), x); }
      if DistinctSeeds(Sort(y)) { DistinctIsUnordered(Sort(y), x); }
    }
  }

  // ---- pairing by seed -----------------------------------------------------------------------------

  function Seeds(c: Candidate): seq<int> {
    var ordered := Sort(c.replicates);
    seq(|ordered|, i requires 0 <= i < |ordered| => ordered[i].seed)
  }

  function SeedSet(c: Candidate): set<int> {
    set i | 0 <= i < |c.replicates| :: c.replicates[i].seed
  }

  /** The replicates can be paired by seed. */
  predicate Paired(a: Candidate, b: Candidate) {
    DistinctSeeds(a.replicates) && DistinctSeeds(b.replicates) && SeedSet(a) == SeedSet(b)
  }

  predicate Rising(seeds: seq<int>) {
    forall i, j :: 0 <= i < j < |seeds| ==> seeds[i] < seeds[j]
  }

  lemma TailMembers(x: seq<int>, s: int)
    requires Rising(x) && x != []
    ensures s in x[1..] <==> s in x && s != x[0]
  {
    if s in x && s != x[0] {
      var i :| 0 <= i < |x| && x[i] == s;
      assert x[1..][i - 1] == s;
    }
    if s in x[1..] {
      var i :| 0 <= i < |x[1..]| && x[1..][i] == s;
      assert x[i + 1] == s;
    }
  }

  lemma {:induction false} RisingIsUnique(x: seq<int>, y: seq<int>)
    requires Rising(x) && Rising(y) && forall s :: s in x <==> s in y
    ensures x == y
  {
    assert (x != [] ==> x[0] in x) && (y != [] ==> y[0] in y);
    if x != [] {
      assert x[0] == y[0];
      forall s ensures s in x[1..] <==> s in y[1..] {
        TailMembers(x, s);
        TailMembers(y, s);
      }
      RisingIsUnique(x[1..], y[1..]);
      assert x == [x[0]] + x[1..] && y == [y[0]] + y[1..];
    }
  }

  /** The seeds in order: each once, if they are distinct. */
  lemma SeedsRise(c: Candidate)
    requires DistinctSeeds(c.replicates)
    ensures Rising(Seeds(c)) && |Seeds(c)| == |c.replicates|
    ensures forall s :: s in Seeds(c) <==> s in SeedSet(c)
  {
    var ordered := Sort(c.replicates);
    SortSorts(c.replicates);
    DistinctIsUnordered(c.replicates, ordered);
    SameMembers(ordered, c.replicates);
    forall s ensures s in Seeds(c) <==> s in SeedSet(c) {
      if s in Seeds(c) {
        var i :| 0 <= i < |ordered| && Seeds(c)[i] == s;
        assert ordered[i] in c.replicates;
      }
      if s in SeedSet(c) {
        var i :| 0 <= i < |c.replicates| && c.replicates[i].seed == s;
        assert c.replicates[i] in ordered;
        var j :| 0 <= j < |ordered| && ordered[j] == c.replicates[i];
        assert Seeds(c)[j] == s;
      }
    }
  }

  lemma SeedsAgree(a: Candidate, b: Candidate)
    requires Paired(a, b)
    ensures Seeds(a) == Seeds(b)
  {
    SeedsRise(a);
    SeedsRise(b);
    RisingIsUnique(Seeds(a), Seeds(b));
  }
}
