/** The conditions C1 to C4, on the runs and evaluations of the two candidates: when they hold, which failed, and what
    comparable candidates have in common. */
module ComparabilityMeaning {
  import opened Util
  import opened Summaries
  import opened Comparability

  predicate Runs(a: Candidate, b: Candidate, r: Replicate) {
    r in a.replicates || r in b.replicates
  }

  predicate Evaluates(a: Candidate, b: Candidate, e: Evaluation) {
    e in a.evaluations || e in b.evaluations
  }

  /** C1: one benchmark. Every run is of one cohort, and every evaluation measures it. */
  ghost predicate OneBenchmark(a: Candidate, b: Candidate) {
    exists cohort :: OfCohort(a, b, cohort)
  }

  ghost predicate OfCohort(a: Candidate, b: Candidate, cohort: nat) {
    && (forall r :: Runs(a, b, r) ==> r.assignment.cohort == cohort)
    && (forall e :: Evaluates(a, b, e) ==> e.measures == Some(cohort))
  }

  /** C2: matched seed by seed. No side repeats a seed, each has the other's, every run did what the suite assigns, and
      runs at one seed did the same. */
  ghost predicate SeedBySeed(suite: Suite, a: Candidate, b: Candidate) {
    && (forall i, j :: 0 <= i < j < |a.replicates| ==> a.replicates[i].seed != a.replicates[j].seed)
    && (forall i, j :: 0 <= i < j < |b.replicates| ==> b.replicates[i].seed != b.replicates[j].seed)
    && (forall r :: r in a.replicates ==> exists t :: t in b.replicates && t.seed == r.seed)
    && (forall r :: r in b.replicates ==> exists t :: t in a.replicates && t.seed == r.seed)
    && (forall r :: Runs(a, b, r) ==> AsAssigned(suite, r))
    && (forall r, t :: r in a.replicates && t in b.replicates && r.seed == t.seed ==> r.assignment == t.assignment)
  }

  /** The run did what the suite assigns under its policy at its seed. */
  predicate AsAssigned(suite: Suite, r: Replicate) {
    r.assignment.cohort == suite.cohort(r.sampling) && suite.assigns(r.sampling, r.assignment.seed) == Some(r.assignment.tasks)
  }

  /** C3: scored the same way: by the same evaluators, each one evaluation; and every result is of one of them, and of
      the run it is listed under. */
  ghost predicate ScoredAlike(a: Candidate, b: Candidate) {
    && (forall e :: e in a.evaluations ==> exists f :: f in b.evaluations && f.name == e.name)
    && (forall e :: e in b.evaluations ==> exists f :: f in a.evaluations && f.name == e.name)
    && OneEach(a, b) && OwnResults(a, b)
  }

  ghost predicate OneEach(a: Candidate, b: Candidate) {
    forall e, f :: Evaluates(a, b, e) && Evaluates(a, b, f) && e.name == f.name ==>
                     e.fingerprint == f.fingerprint && e.determinism == f.determinism
  }

  ghost predicate OwnResults(a: Candidate, b: Candidate) {
    forall r, x :: Runs(a, b, r) && x in r.results ==>
                     x.subject == r.digest && exists e :: Evaluates(a, b, e) && e.fingerprint == x.evaluation
  }

  /** C4: under the same declared conditions. */
  ghost predicate DeclaredAlike(a: Candidate, b: Candidate) {
    forall r, t :: Runs(a, b, r) && Runs(a, b, t) ==> r.facets == t.facets
  }

  lemma SeedsMatch(a: Candidate, b: Candidate)
    ensures SeedSet(a) <= SeedSet(b) <==> forall r :: r in a.replicates ==> exists t :: t in b.replicates && t.seed == r.seed
  {
    forall r | r in a.replicates ensures r.seed in SeedSet(a) {}
    forall t | t in b.replicates ensures t.seed in SeedSet(b) {}
    if SeedSet(a) <= SeedSet(b) {
      forall r | r in a.replicates ensures exists t :: t in b.replicates && t.seed == r.seed {
        var i :| 0 <= i < |b.replicates| && b.replicates[i].seed == r.seed;
        assert b.replicates[i] in b.replicates;
      }
    }
  }

  lemma NamesMatch(a: Candidate, b: Candidate)
    ensures Names(a) <= Names(b) <==> forall e :: e in a.evaluations ==> exists f :: f in b.evaluations && f.name == e.name
  {
    forall e | e in a.evaluations ensures e.name in Names(a) {}
    forall f | f in b.evaluations ensures f.name in Names(b) {}
    if Names(a) <= Names(b) {
      forall e | e in a.evaluations ensures exists f :: f in b.evaluations && f.name == e.name {
        assert e.name in Names(b);
      }
    }
  }

  lemma DeclaredIs(a: Candidate, b: Candidate, fingerprint: nat)
    ensures fingerprint in Declared(a, b) <==> exists e :: Evaluates(a, b, e) && e.fingerprint == fingerprint
  {
    forall e | Evaluates(a, b, e) ensures e.fingerprint in Declared(a, b) { assert e in a.evaluations + b.evaluations; }
    if fingerprint in Declared(a, b) {
      var e :| e in a.evaluations + b.evaluations && e.fingerprint == fingerprint;
      assert Evaluates(a, b, e);
    }
  }

  lemma BenchmarkMeans(a: Candidate, b: Candidate)
    ensures SameBenchmark(a, b) <==> OneBenchmark(a, b)
  {
    forall cohort: nat ensures AllOfCohort(a, b, cohort) <==> OfCohort(a, b, cohort) { CohortMeans(a, b, cohort); }
  }

  lemma CohortMeans(a: Candidate, b: Candidate, cohort: nat)
    ensures AllOfCohort(a, b, cohort) <==> OfCohort(a, b, cohort)
  {
    assert forall r :: r in Both(a, b) <==> Runs(a, b, r);
    assert forall e :: e in a.evaluations + b.evaluations <==> Evaluates(a, b, e);
  }

  lemma MatchMeans(suite: Suite, a: Candidate, b: Candidate)
    ensures Paired(a, b) && Matched(suite, a, b) <==> SeedBySeed(suite, a, b)
  {
    SeedsMatch(a, b);
    SeedsMatch(b, a);
    AssignedMeans(suite, a, b);
  }

  lemma AssignedMeans(suite: Suite, a: Candidate, b: Candidate)
    ensures (forall r :: r in Both(a, b) ==> Verifies(suite, r)) <==> forall r :: Runs(a, b, r) ==> AsAssigned(suite, r)
  {
    assert forall r :: r in Both(a, b) <==> Runs(a, b, r);
  }

  lemma OneEachMeans(a: Candidate, b: Candidate)
    ensures SameEvaluations(a, b) <==> OneEach(a, b)
  {
    assert forall e :: e in a.evaluations + b.evaluations <==> Evaluates(a, b, e);
  }

  lemma OwnResultsMean(a: Candidate, b: Candidate)
    ensures Judged(a, a, b) && Judged(b, a, b) <==> OwnResults(a, b)
  {
    forall fingerprint: nat ensures fingerprint in Declared(a, b) <==> exists e :: Evaluates(a, b, e) && e.fingerprint == fingerprint {
      DeclaredIs(a, b, fingerprint);
    }
  }

  lemma ScoringMeans(a: Candidate, b: Candidate)
    ensures SameScoring(a, b) <==> ScoredAlike(a, b)
  {
    NamesMatch(a, b);
    NamesMatch(b, a);
    OneEachMeans(a, b);
    OwnResultsMean(a, b);
  }

  lemma FacetsMean(a: Candidate, b: Candidate)
    ensures SameFacets(a, b) <==> DeclaredAlike(a, b)
  {
    assert forall r :: r in Both(a, b) <==> Runs(a, b, r);
  }

  /** Main result: two candidates are comparable exactly under the four conditions. */
  lemma ComparableMeans(suite: Suite, a: Candidate, b: Candidate)
    requires a.replicates != []
    ensures Compared(suite, a, b).comparable <==>
            OneBenchmark(a, b) && SeedBySeed(suite, a, b) && ScoredAlike(a, b) && DeclaredAlike(a, b)
  {
    ComparableExactly(suite, a, b);
    BenchmarkMeans(a, b);
    MatchMeans(suite, a, b);
    ScoringMeans(a, b);
    FacetsMean(a, b);
  }

  // ---- what is shared ------------------------------------------------------------------------------

  /** They share a timing environment when every run declares that one. */
  lemma TimingIs(a: Candidate, b: Candidate, timing: string)
    requires a.replicates != []
    ensures SharedTiming(a, b) == Some(timing) <==> forall r :: Runs(a, b, r) ==> r.timing == Some(timing)
  {
    var first := a.replicates[0];
    assert Runs(a, b, first) && first in Both(a, b);
    assert first.timing in Labels(a, b);
    OneMember(Labels(a, b), first.timing);
    forall r | Runs(a, b, r) ensures r.timing in Labels(a, b) { assert r in Both(a, b); }
  }

  /** Main result: the key of comparable candidates is what all their runs have in common. */
  lemma KeyIs(suite: Suite, a: Candidate, b: Candidate)
    requires a.replicates != []
    ensures var c := Compared(suite, a, b);
            && (c.key.Some? <==> c.comparable) && c.timing == SharedTiming(a, b)
            && (c.comparable ==>
                  && (forall r :: Runs(a, b, r) ==> r.assignment.cohort == c.key.value.cohort && r.facets == c.key.value.facets)
                  && (forall f: nat :: f in c.key.value.evaluations <==> exists e :: Evaluates(a, b, e) && e.fingerprint == f)
                  && c.key.value.timing == c.timing && KeySeeds(a, b, c.key.value.seeds))
  {
    ComparableExactly(suite, a, b);
    if Alike(suite, a, b) {
      assert a.replicates[0] in Both(a, b);
      forall r | Runs(a, b, r) ensures r in Both(a, b) {}
      forall f: nat ensures f in Declared(a, b) <==> exists e :: Evaluates(a, b, e) && e.fingerprint == f { DeclaredIs(a, b, f); }
      SeedsAre(a, b);
    }
  }

  /** The seeds of either, each once, in order. */
  ghost predicate KeySeeds(a: Candidate, b: Candidate, seeds: seq<int>) {
    && (forall i, j :: 0 <= i < j < |seeds| ==> seeds[i] < seeds[j])
    && forall s :: s in seeds <==> exists r :: Runs(a, b, r) && r.seed == s
  }

  lemma SeedsAre(a: Candidate, b: Candidate)
    requires Paired(a, b)
    ensures KeySeeds(a, b, Seeds(a))
  {
    SeedsRise(a);
    forall s ensures s in Seeds(a) <==> exists r :: Runs(a, b, r) && r.seed == s {
      if s in Seeds(a) {
        var i :| 0 <= i < |a.replicates| && a.replicates[i].seed == s;
        assert Runs(a, b, a.replicates[i]);
      }
      forall r | Runs(a, b, r) ensures r.seed in Seeds(a) {
        if r in a.replicates { assert r.seed in SeedSet(a); } else { assert r.seed in SeedSet(b); }
      }
    }
  }

  // ---- which condition failed ----------------------------------------------------------------------

  /** One cohort, of all the runs of both. */
  ghost predicate OneCohort(a: Candidate, b: Candidate) {
    exists r :: Runs(a, b, r) && forall t :: Runs(a, b, t) ==> t.assignment.cohort == r.assignment.cohort
  }

  lemma OneCohortIs(a: Candidate, b: Candidate)
    ensures |Cohorts(a, b)| == 1 <==> OneCohort(a, b)
  {
    forall t | Runs(a, b, t) ensures t.assignment.cohort in Cohorts(a, b) { assert t in Both(a, b); }
    if |Cohorts(a, b)| == 1 {
      var cohort :| cohort in Cohorts(a, b);
      var r :| r in Both(a, b) && r.assignment.cohort == cohort;
      OneMember(Cohorts(a, b), cohort);
      assert Runs(a, b, r);
    }
    if OneCohort(a, b) {
      var r :| Runs(a, b, r) && forall t :: Runs(a, b, t) ==> t.assignment.cohort == r.assignment.cohort;
      OneMember(Cohorts(a, b), r.assignment.cohort);
      forall t | t in Both(a, b) ensures t.assignment.cohort == r.assignment.cohort { assert Runs(a, b, t); }
    }
  }

  /** An evaluator whose suite is not pinned, or which measures another cohort than the one there is. */
  ghost predicate EvaluatorFails(c: Candidate, other: Candidate, fault: Fault) {
    match fault
    case Unpinned(name) => exists e :: e in c.evaluations && e.name == name && e.measures.None?
    case MeasuresAnother(name) =>
      OneCohort(c, other)
      && exists e :: e in c.evaluations && e.name == name && e.measures.Some? && e.measures.value !in Cohorts(c, other)
    case _ => false
  }

  /** A seed that repeats, or that only the other side has. */
  ghost predicate SeedFails(c: Candidate, other: Candidate, fault: Fault) {
    match fault
    case RepeatsSeed => exists i, j :: 0 <= i < j < |c.replicates| && c.replicates[i].seed == c.replicates[j].seed
    case LacksSeed(seed) => seed in SeedSet(other) && seed !in SeedSet(c)
    case _ => false
  }

  /** A run that did not do what it was assigned, or a result that is of no declared evaluation, or of another run. */
  ghost predicate RunFails(suite: Suite, c: Candidate, other: Candidate, fault: Fault) {
    match fault
    case Unverified(seed) => exists r :: r in c.replicates && r.seed == seed && !AsAssigned(suite, r)
    case Undeclared => exists r, x :: r in c.replicates && x in r.results && x.evaluation !in Declared(c, other)
    case OtherSubject => exists r, x :: r in c.replicates && x in r.results && x.subject != r.digest
    case _ => false
  }

  lemma EvaluatorFaultIs(c: Candidate, other: Candidate, fault: Fault)
    ensures fault in EvaluatorFaults(c, other) <==> EvaluatorFails(c, other, fault)
  {
    OneCohortIs(c, other);
  }

  lemma SeedFaultIs(c: Candidate, other: Candidate, fault: Fault)
    ensures fault in SeedFaults(c, other) <==> SeedFails(c, other, fault)
  {
  }

  lemma RunFaultIs(suite: Suite, c: Candidate, other: Candidate, fault: Fault)
    ensures fault in RunFaults(suite, c, other) <==> RunFails(suite, c, other, fault)
  {
  }

  /** What is found of one side, fault by fault. */
  lemma FaultIs(suite: Suite, c: Candidate, other: Candidate, fault: Fault)
    ensures fault in Faults(suite, c, other) <==>
            EvaluatorFails(c, other, fault) || SeedFails(c, other, fault) || RunFails(suite, c, other, fault)
  {
    EvaluatorFaultIs(c, other, fault);
    SeedFaultIs(c, other, fault);
    RunFaultIs(suite, c, other, fault);
  }

  /** What is found of the two together. */
  lemma ReasonIs(suite: Suite, a: Candidate, b: Candidate, reason: Reason)
    ensures reason in Reasons(suite, a, b) <==>
            match reason
            case Fails(side, fault) => fault in (if side == SideA then Faults(suite, a, b) else Faults(suite, b, a))
            case ManyCohorts => !OneCohort(a, b)
            case Mismatched(seed, difference) =>
              exists r :: r in a.replicates && r.seed == seed && LastAt(b.replicates, seed).Some?
                          && DiffersIn(r.assignment, LastAt(b.replicates, seed).value.assignment, difference)
            case OtherEvaluators => Names(a) != Names(b)
            case OtherFingerprint(name) => name in Names(a) * Names(b) && !OneValue(Fingerprints(a, name) + Fingerprints(b, name))
            case OtherDeterminism(name) => name in Names(a) * Names(b) && !OneValue(Determinism(a, name) + Determinism(b, name))
            case OtherFacet(facet) => facet < FACETS && exists r, t :: Runs(a, b, r) && Runs(a, b, t) && r.facets[facet] != t.facets[facet]
  {
    ReasonsAre(suite, a, b, reason);
    OneCohortIs(a, b);
    match reason
    case OtherFingerprint(name) => if name in Names(a) * Names(b) { PrintsAre(a, b, name); }
    case OtherDeterminism(name) => if name in Names(a) * Names(b) { DeterminismIs(a, b, name); }
    case OtherFacet(facet) => if facet < FACETS { FacetIs(a, b, facet); }
    case Mismatched(seed, difference) => MismatchIs(a, b, seed, difference);
    case _ =>
  }

  /** Two assignments differ in this. */
  predicate DiffersIn(x: Assignment, y: Assignment, difference: Difference) {
    match difference
    case Cohort => x.cohort != y.cohort
    case Seed => x.seed != y.seed
    case Tasks => x.tasks != y.tasks
  }

  predicate OneValue<T(==)>(s: set<T>) {
    exists x :: x in s && forall y :: y in s ==> y == x
  }

  lemma OneValueIs<T>(s: set<T>)
    ensures OneValue(s) <==> |s| == 1
  {
    if s != {} {
      var x :| x in s;
      OneMember(s, x);
    }
  }

  lemma PrintsAre(a: Candidate, b: Candidate, name: string)
    requires name in Names(a) && name in Names(b)
    ensures SameFingerprint(a, b, name) <==> OneValue(Fingerprints(a, name) + Fingerprints(b, name))
  {
    var e :| e in a.evaluations && e.name == name;
    var f :| f in b.evaluations && f.name == name;
    assert e.fingerprint in Fingerprints(a, name) && f.fingerprint in Fingerprints(b, name);
    OneMember(Fingerprints(a, name), e.fingerprint);
    OneMember(Fingerprints(b, name), f.fingerprint);
  }

  lemma DeterminismIs(a: Candidate, b: Candidate, name: string)
    ensures SameDeterminism(a, b, name) <==> OneValue(Determinism(a, name) + Determinism(b, name))
  {
    OneValueIs(Determinism(a, name) + Determinism(b, name));
  }

  lemma FacetIs(a: Candidate, b: Candidate, facet: nat)
    requires facet < FACETS
    ensures SameFacet(a, b, facet) <==> forall r, t :: Runs(a, b, r) && Runs(a, b, t) ==> r.facets[facet] == t.facets[facet]
  {
    var values := FacetValues(a, b, facet);
    forall r | Runs(a, b, r) ensures r.facets[facet] in values { assert r in Both(a, b); }
    if values != {} {
      var v :| v in values;
      OneMember(values, v);
      forall w | w in values ensures exists r :: Runs(a, b, r) && r.facets[facet] == w {
        var r :| r in Both(a, b) && r.facets[facet] == w;
        assert Runs(a, b, r);
      }
    }
  }

  lemma MismatchIs(a: Candidate, b: Candidate, seed: int, difference: Difference)
    ensures Mismatched(seed, difference) in MismatchReasons(a, b) <==>
            exists r :: r in a.replicates && r.seed == seed && LastAt(b.replicates, seed).Some?
                        && DiffersIn(r.assignment, LastAt(b.replicates, seed).value.assignment, difference)
  {
  }
}
