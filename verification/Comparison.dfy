/** Comparing two harness candidates (`core/harness_comparison.py`). */
module Comparison {
  import opened Util
  import opened Summaries
  import opened Comparability

  // ---- comparing two candidates --------------------------------------------------------------------------

  /** *timed* says the metric is a time; *minEffect* is not negative. */
  datatype Objective = Objective(key: Key, timed: bool, maximize: bool, minEffect: real)

  datatype Verdict = FavorsA | FavorsB | Inconclusive | NotComparable

  datatype Why = Incomparable | NoSharedClock | AbsentOnASide | UnitsDisagree | TooFew | Measured

  datatype MetricComparison = MetricComparison(
    verdict: Verdict, why: Why, a: Option<MetricSummary>, b: Option<MetricSummary>,
    differences: seq<real>, mean: Option<real>, error: Option<real>, threshold: Option<real>)

  /** `dict(zip(seeds, values))`, the seeds being distinct. */
  function Zip(seeds: seq<int>, values: seq<real>): (m: map<int, real>)
    requires |seeds| == |values|
    ensures forall s :: s in m <==> s in seeds
  {
    if seeds == [] then map[] else Zip(seeds[1..], values[1..])[seeds[0] := values[0]]
  }

  /** A summary of this candidate has a value for each of its seeds. */
  predicate Fits(c: Candidate, s: Option<MetricSummary>) {
    s.Some? && s.value.Present? ==> |s.value.values| == |Seeds(c)|
  }

  /** Positive when the difference favors A. */
  function Orient(maximize: bool, difference: real): real {
    if maximize then difference else -difference
  }

  lemma OrientNegated(maximize: bool, x: real, y: real)
    ensures Orient(maximize, y - x) == -Orient(maximize, x - y)
  {
  }

  function BySeed(seeds: seq<int>, x: map<int, real>, y: map<int, real>, maximize: bool): seq<real>
    requires forall i :: 0 <= i < |seeds| ==> seeds[i] in x && seeds[i] in y
  {
    seq(|seeds|, i requires 0 <= i < |seeds| => Orient(maximize, x[seeds[i]] - y[seeds[i]]))
  }

  /** `d_r`, oriented so that positive favors A, in seed order. */
  function Differences(a: Candidate, b: Candidate, va: seq<real>, vb: seq<real>, maximize: bool): seq<real>
    requires Paired(a, b) && |va| == |Seeds(a)| && |vb| == |Seeds(b)|
  {
    SeedsAgree(a, b);
    var seeds := Seeds(a);
    BySeed(seeds, Zip(seeds, va), Zip(Seeds(b), vb), maximize)
  }

  function Max(x: real, y: real): real {
    if x >= y then x else y
  }

  function Decide(mean: real, threshold: real): Verdict {
    if mean > threshold then FavorsA else if -mean > threshold then FavorsB else Inconclusive
  }

  function Threshold(o: Objective, k: real, error: real): (t: real)
    ensures t >= o.minEffect
  {
    Max(o.minEffect, k * error)
  }

  /** The rule, given what the paired differences come to. */
  function Conclude(o: Objective, k: real, differences: seq<real>, mean: real, error: Option<real>, a: Option<MetricSummary>, b: Option<MetricSummary>): MetricComparison {
    if |differences| < 3 || error.None? then
      MetricComparison(Inconclusive, TooFew, a, b, differences, Some(mean), error, None)
    else
      var threshold := Threshold(o, k, error.value);
      MetricComparison(Decide(mean, threshold), Measured, a, b, differences, Some(mean), error, Some(threshold))
  }

  function Rule(root: Root, o: Objective, k: real, differences: seq<real>, a: Option<MetricSummary>, b: Option<MetricSummary>): MetricComparison
    requires differences != []
  {
    Conclude(o, k, differences, Mean(differences), StandardError(root, differences), a, b)
  }

  function Undecided(why: Why, a: Option<MetricSummary>, b: Option<MetricSummary>): MetricComparison {
    MetricComparison(NotComparable, why, a, b, [], None, None, None)
  }

  predicate Given(s: Option<MetricSummary>) {
    s.Some? && s.value.Present?
  }

  /** `_verdict` on one objective metric. */
  function Judge(root: Root, o: Objective, k: real, a: Candidate, b: Candidate, sa: Option<MetricSummary>, sb: Option<MetricSummary>, comparable: bool, timing: Option<string>): MetricComparison
    requires comparable ==> Paired(a, b)
    requires a.replicates != [] && b.replicates != [] && Fits(a, sa) && Fits(b, sb)
  {
    if !comparable then Undecided(Incomparable, sa, sb)
    else if o.timed && timing.None? then Undecided(NoSharedClock, sa, sb)
    else if !Given(sa) || !Given(sb) then Undecided(AbsentOnASide, sa, sb)
    else if sa.value.unit != sb.value.unit then Undecided(UnitsDisagree, sa, sb)
    else
      SeedsRise(a);
      Rule(root, o, k, Differences(a, b, sa.value.values, sb.value.values, o.maximize), sa, sb)
  }

  // ---- symmetry of the verdict -----------------------------------------------------------------------------

  function Negated(v: seq<real>): seq<real> {
    seq(|v|, i requires 0 <= i < |v| => -v[i])
  }

  function MirrorVerdict(v: Verdict): Verdict {
    match v
    case FavorsA => FavorsB
    case FavorsB => FavorsA
    case _ => v
  }

  function Mirror(m: MetricComparison): MetricComparison {
    MetricComparison(
      MirrorVerdict(m.verdict), m.why, m.b, m.a, Negated(m.differences),
      if m.mean.Some? then Some(-m.mean.value) else None, m.error, m.threshold)
  }

  lemma {:induction false} SumNegated(v: seq<real>)
    ensures Sum(Negated(v)) == -Sum(v)
  {
    if v != [] {
      SumNegated(v[1..]);
      assert Negated(v)[1..] == Negated(v[1..]);
    }
  }

  lemma NegatedStatistics(root: Root, v: seq<real>)
    requires v != []
    ensures Mean(Negated(v)) == -Mean(v) && StandardError(root, Negated(v)) == StandardError(root, v)
  {
    SumNegated(v);
    var w, m := Negated(v), Mean(v);
    assert Mean(w) == -m;
    forall i | 0 <= i < |v| ensures Squares(w, -m)[i] == Squares(v, m)[i] {
      SquareNegated(v[i], m);
    }
    assert Squares(w, -m) == Squares(v, m);
  }

  lemma SquareNegated(x: real, m: real)
    ensures (-x - -m) * (-x - -m) == (x - m) * (x - m)
  {
  }

  lemma DifferencesNegated(a: Candidate, b: Candidate, va: seq<real>, vb: seq<real>, maximize: bool)
    requires Paired(a, b) && |va| == |Seeds(a)| && |vb| == |Seeds(b)|
    ensures Differences(b, a, vb, va, maximize) == Negated(Differences(a, b, va, vb, maximize))
  {
    SeedsAgree(a, b);
    BySeedNegated(Seeds(a), Zip(Seeds(a), va), Zip(Seeds(a), vb), maximize);
  }

  lemma BySeedNegated(seeds: seq<int>, x: map<int, real>, y: map<int, real>, maximize: bool)
    requires forall i :: 0 <= i < |seeds| ==> seeds[i] in x && seeds[i] in y
    ensures BySeed(seeds, y, x, maximize) == Negated(BySeed(seeds, x, y, maximize))
  {
    forall i | 0 <= i < |seeds| ensures BySeed(seeds, y, x, maximize)[i] == -BySeed(seeds, x, y, maximize)[i] {
      OrientNegated(maximize, x[seeds[i]], y[seeds[i]]);
    }
  }

  /** Main result: exchanging the candidates exchanges the favored side and the sign of every difference,
      and changes nothing else. */
  lemma VerdictMirrors(root: Root, o: Objective, k: real, a: Candidate, b: Candidate, sa: Option<MetricSummary>, sb: Option<MetricSummary>, comparable: bool, timing: Option<string>)
    requires comparable ==> Paired(a, b)
    requires a.replicates != [] && b.replicates != [] && Fits(a, sa) && Fits(b, sb) && o.minEffect >= 0.0 && k > 0.0
    ensures Judge(root, o, k, b, a, sb, sa, comparable, timing) == Mirror(Judge(root, o, k, a, b, sa, sb, comparable, timing))
  {
    if comparable && Given(sa) && Given(sb) { MeasuredMirrors(root, o, k, a, b, sa, sb); }
    assert Negated([]) == [];
  }

  lemma MeasuredMirrors(root: Root, o: Objective, k: real, a: Candidate, b: Candidate, sa: Option<MetricSummary>, sb: Option<MetricSummary>)
    requires Paired(a, b) && a.replicates != [] && Given(sa) && Given(sb) && Fits(a, sa) && Fits(b, sb) && o.minEffect >= 0.0
    ensures var d, e := Differences(a, b, sa.value.values, sb.value.values, o.maximize), Differences(b, a, sb.value.values, sa.value.values, o.maximize);
            d != [] && e != [] && Rule(root, o, k, e, sb, sa) == Mirror(Rule(root, o, k, d, sa, sb))
  {
    SeedsRise(a);
    DifferencesNegated(a, b, sa.value.values, sb.value.values, o.maximize);
    RuleMirrors(root, o, k, Differences(a, b, sa.value.values, sb.value.values, o.maximize), sa, sb);
  }

  lemma ConcludeMirrors(o: Objective, k: real, d: seq<real>, mean: real, error: Option<real>, sa: Option<MetricSummary>, sb: Option<MetricSummary>)
    requires o.minEffect >= 0.0
    ensures Conclude(o, k, Negated(d), -mean, error, sb, sa) == Mirror(Conclude(o, k, d, mean, error, sa, sb))
  {
    assert |Negated(d)| == |d|;
    if |d| >= 3 && error.Some? {
      var t := Threshold(o, k, error.value);
      assert t >= 0.0;
      assert Decide(-mean, t) == MirrorVerdict(Decide(mean, t));
    }
  }

  lemma RuleMirrors(root: Root, o: Objective, k: real, d: seq<real>, sa: Option<MetricSummary>, sb: Option<MetricSummary>)
    requires d != [] && o.minEffect >= 0.0
    ensures Rule(root, o, k, Negated(d), sb, sa) == Mirror(Rule(root, o, k, d, sa, sb))
  {
    NegatedStatistics(root, d);
    ConcludeMirrors(o, k, d, Mean(d), StandardError(root, d), sa, sb);
  }

  lemma {:induction false} SumOfZeros(v: seq<real>)
    requires forall i :: 0 <= i < |v| ==> v[i] == 0.0
    ensures Sum(v) == 0.0
  {
    if v != [] { SumOfZeros(v[1..]); }
  }

  /** A candidate against itself: every difference is zero, and neither side is favored. */
  lemma SelfFavorsNeither(root: Root, o: Objective, k: real, a: Candidate, s: Option<MetricSummary>, comparable: bool, timing: Option<string>)
    requires comparable ==> Paired(a, a)
    requires a.replicates != [] && Fits(a, s) && o.minEffect >= 0.0 && k > 0.0
    ensures var m := Judge(root, o, k, a, a, s, s, comparable, timing);
            && (m.verdict.Inconclusive? || m.verdict.NotComparable?)
            && (m.mean.Some? ==> m.mean.value == 0.0)
            && forall i :: 0 <= i < |m.differences| ==> m.differences[i] == 0.0
  {
    if comparable && Given(s) {
      SeedsRise(a);
      var d := Differences(a, a, s.value.values, s.value.values, o.maximize);
      forall i | 0 <= i < |d| ensures d[i] == 0.0 {}
      SumOfZeros(d);
    }
  }

  // ---- the relation and outcomes by task ---------------------------------------------------------------

  datatype Relation = AFavored | BFavored | TradeOff | Undetermined | Unrelated

  function Relate(verdicts: seq<Verdict>, comparable: bool): Relation {
    if !comparable || NotComparable in verdicts then Unrelated
    else if FavorsA in verdicts && FavorsB in verdicts then TradeOff
    else if FavorsA in verdicts then AFavored
    else if FavorsB in verdicts then BFavored
    else Undetermined
  }

  function MirrorRelation(r: Relation): Relation {
    match r
    case AFavored => BFavored
    case BFavored => AFavored
    case _ => r
  }

  /** Every observed score, by seed and task; a later one replaces an earlier. */
  function ScoresUpTo(scores: seq<(nat, Option<real>)>, seed: int, found: map<(int, nat), Option<real>>): map<(int, nat), Option<real>> {
    if scores == [] then found else ScoresUpTo(scores[1..], seed, found[(seed, scores[0].0) := scores[0].1])
  }

  function ScoresOf(replicates: seq<Replicate>): map<(int, nat), Option<real>> {
    if replicates == [] then map[]
    else
      var n := |replicates| - 1;
      ScoresUpTo(replicates[n].scores, replicates[n].seed, ScoresOf(replicates[..n]))
  }

  datatype Outcomes = Outcomes(wins: nat, losses: nat, ties: nat, unscored: nat)

  function Score(m: map<(int, nat), Option<real>>, key: (int, nat)): Option<real> {
    if key in m then m[key] else None
  }

  /** What the two sides' scores make of one key: 1 a win, -1 a loss, 0 a tie; nothing if either is missing. */
  function Pairing(l: map<(int, nat), Option<real>>, r: map<(int, nat), Option<real>>, key: (int, nat)): Option<int> {
    Pair(Score(l, key), Score(r, key))
  }

  function Pair(x: Option<real>, y: Option<real>): Option<int> {
    if x.None? || y.None? then None else if x.value > y.value then Some(1) else if x.value < y.value then Some(-1) else Some(0)
  }

  function Where(l: map<(int, nat), Option<real>>, r: map<(int, nat), Option<real>>, keys: set<(int, nat)>, p: Option<int>): set<(int, nat)> {
    set key | key in keys && Pairing(l, r, key) == p
  }

  /** The counts over some of the keys. */
  function Tally(l: map<(int, nat), Option<real>>, r: map<(int, nat), Option<real>>, keys: set<(int, nat)>): Outcomes {
    Outcomes(|Where(l, r, keys, Some(1))|, |Where(l, r, keys, Some(-1))|, |Where(l, r, keys, Some(0))|, |Where(l, r, keys, None)|)
  }

  lemma TallyOne(l: map<(int, nat), Option<real>>, r: map<(int, nat), Option<real>>, keys: set<(int, nat)>, key: (int, nat), p: Option<int>)
    requires key !in keys
    ensures |Where(l, r, keys + {key}, p)| == |Where(l, r, keys, p)| + if Pairing(l, r, key) == p then 1 else 0
  {
    if Pairing(l, r, key) == p {
      assert Where(l, r, keys + {key}, p) == Where(l, r, keys, p) + {key};
    } else {
      assert Where(l, r, keys + {key}, p) == Where(l, r, keys, p);
    }
  }

  function Count(o: Outcomes, p: Option<int>): Outcomes {
    match p
    case None => o.(unscored := o.unscored + 1)
    case Some(n) => if n == 1 then o.(wins := o.wins + 1) else if n == -1 then o.(losses := o.losses + 1) else o.(ties := o.ties + 1)
  }

  lemma TallyStep(l: map<(int, nat), Option<real>>, r: map<(int, nat), Option<real>>, keys: set<(int, nat)>, key: (int, nat))
    requires key !in keys
    ensures Tally(l, r, keys + {key}) == Count(Tally(l, r, keys), Pairing(l, r, key))
  {
    TallyOne(l, r, keys, key, Some(1));
    TallyOne(l, r, keys, key, Some(-1));
    TallyOne(l, r, keys, key, Some(0));
    TallyOne(l, r, keys, key, None);
  }

  /** Every key is counted once. */
  lemma TallyTotal(l: map<(int, nat), Option<real>>, r: map<(int, nat), Option<real>>, keys: set<(int, nat)>)
    ensures var t := Tally(l, r, keys); t.wins + t.losses + t.ties + t.unscored == |keys|
  {
    var w, x, y, z := Where(l, r, keys, Some(1)), Where(l, r, keys, Some(-1)), Where(l, r, keys, Some(0)), Where(l, r, keys, None);
    assert keys == ((w + x) + y) + z;
    assert w !! x && (w + x) !! y && ((w + x) + y) !! z;
  }

  method CountKey(x: Option<real>, y: Option<real>, counted: Outcomes) returns (o: Outcomes)
    ensures o == Count(counted, Pair(x, y))
  {
    var wins, losses, ties, unscored := counted.wins, counted.losses, counted.ties, counted.unscored;
    if x.None? || y.None? { unscored := unscored + 1; }
    else if x.value > y.value { wins := wins + 1; }
    else if x.value < y.value { losses := losses + 1; }
    else { ties := ties + 1; }
    o := Outcomes(wins, losses, ties, unscored);
  }

  /** `_task_outcomes`: one count a key either side has, whatever order they are taken in. */
  method TaskOutcomes(a: Candidate, b: Candidate) returns (outcomes: Option<Outcomes>)
    ensures var l, r := ScoresOf(a.replicates), ScoresOf(b.replicates);
            outcomes == if l == map[] || r == map[] then None else Some(Tally(l, r, l.Keys + r.Keys))
    ensures outcomes.Some? ==>
              outcomes.value.wins + outcomes.value.losses + outcomes.value.ties + outcomes.value.unscored
              == |ScoresOf(a.replicates).Keys + ScoresOf(b.replicates).Keys|
  {
    var l, r := ScoresOf(a.replicates), ScoresOf(b.replicates);
    if l == map[] || r == map[] { return None; }
    var counted, left := Outcomes(0, 0, 0, 0), l.Keys + r.Keys;
    ghost var all := left;
    while left != {}
      invariant left <= all && counted == Tally(l, r, all - left)
      decreases |left|
    {
      var key :| key in left;
      TallyStep(l, r, all - left, key);
      assert all - left + {key} == all - (left - {key});
      counted := CountKey(Score(l, key), Score(r, key), counted);
      left := left - {key};
    }
    assert all - left == all;
    TallyTotal(l, r, all);
    outcomes := Some(counted);
  }

  function TaskOutcomesOf(a: Candidate, b: Candidate): Option<Outcomes> {
    var l, r := ScoresOf(a.replicates), ScoresOf(b.replicates);
    if l == map[] || r == map[] then None else Some(Tally(l, r, l.Keys + r.Keys))
  }

  function MirrorOutcomes(o: Option<Outcomes>): Option<Outcomes> {
    if o.None? then None else Some(Outcomes(o.value.losses, o.value.wins, o.value.ties, o.value.unscored))
  }

  lemma OutcomesMirror(a: Candidate, b: Candidate)
    ensures TaskOutcomesOf(b, a) == MirrorOutcomes(TaskOutcomesOf(a, b))
  {
    var l, r := ScoresOf(a.replicates), ScoresOf(b.replicates);
    var keys := l.Keys + r.Keys;
    assert r.Keys + l.Keys == keys;
    assert Where(r, l, keys, Some(1)) == Where(l, r, keys, Some(-1));
    assert Where(r, l, keys, Some(-1)) == Where(l, r, keys, Some(1));
    assert Where(r, l, keys, Some(0)) == Where(l, r, keys, Some(0));
    assert Where(r, l, keys, None) == Where(l, r, keys, None);
  }

  // ---- the whole comparison ---------------------------------------------------------------------------------

  /** Every evaluation's summary, or none if a design is refused. */
  function AllSummaries(root: Root, c: Candidate, evaluations: seq<Evaluation>): Option<seq<map<Key, MetricSummary>>>
    requires c.replicates != []
  {
    if evaluations == [] then Some([])
    else
      var first, rest := Summarize(root, c.replicates, evaluations[0].fingerprint), AllSummaries(root, c, evaluations[1..]);
      if first.Refused? || rest.None? then None else Some([first.metrics] + rest.value)
  }

  function FindSummary(summaries: seq<map<Key, MetricSummary>>, key: Key): Option<MetricSummary> {
    if summaries == [] then None
    else if key in summaries[0] then Some(summaries[0][key])
    else FindSummary(summaries[1..], key)
  }

  lemma SummaryFits(root: Root, c: Candidate, evaluation: nat, key: Key)
    requires c.replicates != []
    ensures var s := Summarize(root, c.replicates, evaluation);
            s.Summaries? && key in s.metrics ==> Fits(c, Some(s.metrics[key]))
  {
  }

  lemma {:induction false} FoundFits(root: Root, c: Candidate, evaluations: seq<Evaluation>, key: Key)
    requires c.replicates != [] && AllSummaries(root, c, evaluations).Some?
    ensures Fits(c, FindSummary(AllSummaries(root, c, evaluations).value, key))
  {
    if evaluations != [] {
      FoundFits(root, c, evaluations[1..], key);
      SummaryFits(root, c, evaluations[0].fingerprint, key);
      var summaries := AllSummaries(root, c, evaluations).value;
      assert summaries[1..] == AllSummaries(root, c, evaluations[1..]).value;
    }
  }

  /** A design that is summarized repeats no seed. */
  lemma SummarizedSeeds(root: Root, c: Candidate)
    requires c.evaluations != [] && c.replicates != [] && AllSummaries(root, c, c.evaluations).Some?
    ensures DistinctSeeds(c.replicates)
  {
    SummaryNeedsSeeds(root, c.replicates, c.evaluations[0].fingerprint);
  }

  lemma SummaryNeedsSeeds(root: Root, replicates: seq<Replicate>, evaluation: nat)
    requires replicates != [] && Summarize(root, replicates, evaluation).Summaries?
    ensures DistinctSeeds(replicates)
  {
    SortSorts(replicates);
    DistinctIsUnordered(Sort(replicates), replicates);
  }

  datatype Comparison = Comparison(
    conditions: Conditions, metrics: seq<MetricComparison>, relation: Relation, outcomes: Option<Outcomes>)

  /** Whatever is found in these summaries is one of the candidate's. */
  ghost predicate AllFits(c: Candidate, x: seq<map<Key, MetricSummary>>) {
    forall key :: Fits(c, FindSummary(x, key))
  }

  function Judgements(root: Root, objectives: seq<Objective>, k: real, a: Candidate, b: Candidate,
                      x: seq<map<Key, MetricSummary>>, y: seq<map<Key, MetricSummary>>, comparable: bool, timing: Option<string>): seq<MetricComparison>
    requires comparable ==> Paired(a, b)
    requires a.replicates != [] && b.replicates != []
    requires AllFits(a, x) && AllFits(b, y)
  {
    seq(|objectives|, i requires 0 <= i < |objectives| =>
      Judge(root, objectives[i], k, a, b, FindSummary(x, objectives[i].key), FindSummary(y, objectives[i].key), comparable, timing))
  }

  function Verdicts(metrics: seq<MetricComparison>): seq<Verdict> {
    seq(|metrics|, i requires 0 <= i < |metrics| => metrics[i].verdict)
  }

  lemma AllFit(root: Root, c: Candidate)
    requires c.replicates != []
    ensures var x := AllSummaries(root, c, c.evaluations); x.Some? ==> AllFits(c, x.value)
  {
    var x := AllSummaries(root, c, c.evaluations);
    if x.Some? {
      forall key ensures Fits(c, FindSummary(x.value, key)) { FoundFits(root, c, c.evaluations, key); }
    }
  }

  /** A candidate as `CandidateRuns` admits it. */
  predicate Runs(c: Candidate) {
    c.evaluations != [] && c.replicates != []
  }

  /** The report under given conditions. */
  function Conclusion(root: Root, objectives: seq<Objective>, k: real, a: Candidate, b: Candidate,
                      x: seq<map<Key, MetricSummary>>, y: seq<map<Key, MetricSummary>>, c: Conditions): Comparison
    requires c.comparable ==> Paired(a, b)
    requires a.replicates != [] && b.replicates != []
    requires AllFits(a, x) && AllFits(b, y)
  {
    var metrics := Judgements(root, objectives, k, a, b, x, y, c.comparable, c.timing);
    Comparison(c, metrics, Relate(Verdicts(metrics), c.comparable), TaskOutcomesOf(a, b))
  }

  ghost function CompareUnder(root: Root, objectives: seq<Objective>, k: real, a: Candidate, b: Candidate, c: Conditions): Option<Comparison>
    requires Runs(a) && Runs(b) && (c.comparable ==> Paired(a, b))
  {
    var x, y := AllSummaries(root, a, a.evaluations), AllSummaries(root, b, b.evaluations);
    if x.None? || y.None? then None
    else
      AllFit(root, a);
      AllFit(root, b);
      Some(Conclusion(root, objectives, k, a, b, x.value, y.value, c))
  }

  /** `compare`; none when a design is refused. */
  ghost function Compare(root: Root, objectives: seq<Objective>, k: real, a: Candidate, b: Candidate, suite: Suite): Option<Comparison>
    requires Runs(a) && Runs(b)
  {
    ComparablePaired(suite, a, b);
    CompareUnder(root, objectives, k, a, b, Compared(suite, a, b))
  }

  lemma ComparablePaired(suite: Suite, a: Candidate, b: Candidate)
    requires a.replicates != []
    ensures Compared(suite, a, b).comparable ==> Paired(a, b)
  {
    ComparableExactly(suite, a, b);
  }

  function MirrorAll(metrics: seq<MetricComparison>): seq<MetricComparison> {
    seq(|metrics|, i requires 0 <= i < |metrics| => Mirror(metrics[i]))
  }

  function MirrorComparison(m: Option<Comparison>): Option<Comparison> {
    if m.None? then None
    else Some(Comparison(MirrorConditions(m.value.conditions), MirrorAll(m.value.metrics), MirrorRelation(m.value.relation),
                         MirrorOutcomes(m.value.outcomes)))
  }

  predicate ObjectivesOk(objectives: seq<Objective>, k: real) {
    k > 0.0 && forall i :: 0 <= i < |objectives| ==> objectives[i].minEffect >= 0.0
  }

  lemma RelationMirrors(metrics: seq<MetricComparison>, comparable: bool)
    ensures Relate(Verdicts(MirrorAll(metrics)), comparable) == MirrorRelation(Relate(Verdicts(metrics), comparable))
  {
    var v, w := Verdicts(metrics), Verdicts(MirrorAll(metrics));
    forall x: Verdict ensures x in w <==> MirrorVerdict(x) in v {
      if x in w { var i :| 0 <= i < |w| && w[i] == x; assert v[i] == MirrorVerdict(x); }
      if MirrorVerdict(x) in v { var i :| 0 <= i < |v| && v[i] == MirrorVerdict(x); assert w[i] == x; }
    }
    assert NotComparable in w <==> NotComparable in v;
    assert FavorsA in w <==> FavorsB in v;
    assert FavorsB in w <==> FavorsA in v;
  }

  lemma JudgementsMirror(root: Root, objectives: seq<Objective>, k: real, a: Candidate, b: Candidate,
                         x: seq<map<Key, MetricSummary>>, y: seq<map<Key, MetricSummary>>, comparable: bool, timing: Option<string>)
    requires comparable ==> Paired(a, b)
    requires a.replicates != [] && b.replicates != [] && ObjectivesOk(objectives, k)
    requires AllFits(a, x) && AllFits(b, y)
    ensures Judgements(root, objectives, k, b, a, y, x, comparable, timing)
         == MirrorAll(Judgements(root, objectives, k, a, b, x, y, comparable, timing))
  {
    var m, n := Judgements(root, objectives, k, a, b, x, y, comparable, timing), Judgements(root, objectives, k, b, a, y, x, comparable, timing);
    forall i | 0 <= i < |objectives| ensures n[i] == Mirror(m[i]) {
      VerdictMirrors(root, objectives[i], k, a, b, FindSummary(x, objectives[i].key), FindSummary(y, objectives[i].key), comparable, timing);
    }
  }

  lemma ConclusionMirrors(root: Root, objectives: seq<Objective>, k: real, a: Candidate, b: Candidate,
                          x: seq<map<Key, MetricSummary>>, y: seq<map<Key, MetricSummary>>, c: Conditions)
    requires c.comparable ==> Paired(a, b)
    requires a.replicates != [] && b.replicates != [] && ObjectivesOk(objectives, k)
    requires AllFits(a, x) && AllFits(b, y)
    ensures Some(Conclusion(root, objectives, k, b, a, y, x, MirrorConditions(c)))
         == MirrorComparison(Some(Conclusion(root, objectives, k, a, b, x, y, c)))
  {
    JudgementsMirror(root, objectives, k, a, b, x, y, c.comparable, c.timing);
    RelationMirrors(Judgements(root, objectives, k, a, b, x, y, c.comparable, c.timing), c.comparable);
    OutcomesMirror(a, b);
  }

  lemma UnderMirrors(root: Root, objectives: seq<Objective>, k: real, a: Candidate, b: Candidate, c: Conditions)
    requires Runs(a) && Runs(b) && ObjectivesOk(objectives, k) && (c.comparable ==> Paired(a, b))
    ensures CompareUnder(root, objectives, k, b, a, MirrorConditions(c)) == MirrorComparison(CompareUnder(root, objectives, k, a, b, c))
    ensures CompareUnder(root, objectives, k, a, b, c).Some? ==> DistinctSeeds(a.replicates) && DistinctSeeds(b.replicates)
  {
    var x, y := AllSummaries(root, a, a.evaluations), AllSummaries(root, b, b.evaluations);
    if x.Some? && y.Some? {
      AllFit(root, a);
      AllFit(root, b);
      SummarizedSeeds(root, a);
      SummarizedSeeds(root, b);
      ConclusionMirrors(root, objectives, k, a, b, x.value, y.value, c);
    }
  }

  lemma RefusedEitherWay(root: Root, objectives: seq<Objective>, k: real, a: Candidate, b: Candidate, c: Conditions, d: Conditions)
    requires Runs(a) && Runs(b) && (c.comparable ==> Paired(a, b)) && (d.comparable ==> Paired(b, a))
    ensures CompareUnder(root, objectives, k, a, b, c).None? <==> CompareUnder(root, objectives, k, b, a, d).None?
  {
  }

  /** Main result: comparing B with A is the mirror image of comparing A with B, metric by metric, in the
      relation, in the outcomes by task, and in every reason not to compare. Both are refused, or neither. */
  lemma ComparisonMirrors(root: Root, objectives: seq<Objective>, k: real, a: Candidate, b: Candidate, suite: Suite)
    requires Runs(a) && Runs(b) && ObjectivesOk(objectives, k)
    ensures Compare(root, objectives, k, b, a, suite) == MirrorComparison(Compare(root, objectives, k, a, b, suite))
  {
    var c, d := Compared(suite, a, b), Compared(suite, b, a);
    ComparablePaired(suite, a, b);
    ComparablePaired(suite, b, a);
    UnderMirrors(root, objectives, k, a, b, c);
    RefusedEitherWay(root, objectives, k, a, b, c, d);
    if DistinctSeeds(a.replicates) && DistinctSeeds(b.replicates) {
      ConditionsMirror(suite, a, b);
      assert d == MirrorConditions(c);
    }
  }

  predicate NeverFavored(m: Comparison) {
    && (forall i :: 0 <= i < |m.metrics| ==> m.metrics[i].verdict.Inconclusive? || m.metrics[i].verdict.NotComparable?)
    && (m.relation.Undetermined? || m.relation.Unrelated?)
    && (m.outcomes.Some? ==> m.outcomes.value.wins == 0 && m.outcomes.value.losses == 0)
  }

  lemma NoWins(a: Candidate)
    ensures var o := TaskOutcomesOf(a, a); o.Some? ==> o.value.wins == 0 && o.value.losses == 0
  {
    var l := ScoresOf(a.replicates);
    assert Where(l, l, l.Keys + l.Keys, Some(1)) == {} && Where(l, l, l.Keys + l.Keys, Some(-1)) == {};
  }

  lemma SelfConclusion(root: Root, objectives: seq<Objective>, k: real, a: Candidate, x: seq<map<Key, MetricSummary>>, c: Conditions)
    requires c.comparable ==> Paired(a, a)
    requires a.replicates != [] && ObjectivesOk(objectives, k)
    requires AllFits(a, x)
    ensures NeverFavored(Conclusion(root, objectives, k, a, a, x, x, c))
  {
    var m := Judgements(root, objectives, k, a, a, x, x, c.comparable, c.timing);
    forall i | 0 <= i < |m| ensures m[i].verdict.Inconclusive? || m[i].verdict.NotComparable? {
      SelfFavorsNeither(root, objectives[i], k, a, FindSummary(x, objectives[i].key), c.comparable, c.timing);
    }
    NoWins(a);
  }

  /** Main result: a candidate compared with itself is never favored: no verdict, relation, win or loss says so. */
  lemma SelfComparison(root: Root, objectives: seq<Objective>, k: real, a: Candidate, suite: Suite)
    requires Runs(a) && ObjectivesOk(objectives, k)
    ensures var m := Compare(root, objectives, k, a, a, suite); m.Some? ==> NeverFavored(m.value)
  {
    var x := AllSummaries(root, a, a.evaluations);
    if x.Some? {
      AllFit(root, a);
      ComparablePaired(suite, a, a);
      SelfConclusion(root, objectives, k, a, x.value, Compared(suite, a, a));
    }
  }
}
