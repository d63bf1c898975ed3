/** Whether two candidates may be compared at all: the conditions C1 to C4 of `core/harness_comparison.py`. */
module Comparability {
  import opened Util
  import opened Summaries

  /** The suite both candidates claim: the cohort it forms with a sampling policy, and the tasks it assigns
      under one at a seed, if the policy applies. */
  datatype Suite = Suite(cohort: nat -> nat, assigns: (nat, int) -> Option<seq<nat>>)

  datatype Side = SideA | SideB

  datatype Difference = Cohort | Seed | Tasks

  /** What can fail of one side. */
  datatype Fault =
    | Unpinned(evaluator: string) | MeasuresAnother(evaluator: string)
    | RepeatsSeed | LacksSeed(seed: int) | Unverified(seed: int)
    | Undeclared | OtherSubject

  datatype Reason =
    | Fails(side: Side, fault: Fault)
    | ManyCohorts
    | Mismatched(seed: int, difference: Difference)
    | OtherEvaluators | OtherFingerprint(evaluator: string) | OtherDeterminism(evaluator: string)
    | OtherFacet(facet: nat)

  /** What two comparable candidates have in common: the fields of the comparison key. */
  datatype ComparisonKey = ComparisonKey(
    cohort: nat, evaluations: set<nat>, facets: Facets, timing: Option<string>, seeds: seq<int>)

  datatype Conditions = Conditions(comparable: bool, reasons: set<Reason>, key: Option<ComparisonKey>, timing: Option<string>)

  // ---- what is looked at -----------------------------------------------------------------------------

  function Both(a: Candidate, b: Candidate): seq<Replicate> {
    a.replicates + b.replicates
  }

  function Cohorts(a: Candidate, b: Candidate): set<nat> {
    set r | r in Both(a, b) :: r.assignment.cohort
  }

  function Declared(a: Candidate, b: Candidate): set<nat> {
    set e | e in a.evaluations + b.evaluations :: e.fingerprint
  }

  function Names(c: Candidate): set<string> {
    set e | e in c.evaluations :: e.name
  }

  function Fingerprints(c: Candidate, name: string): set<nat> {
    set e | e in c.evaluations && e.name == name :: e.fingerprint
  }

  function Determinism(c: Candidate, name: string): set<string> {
    set e | e in c.evaluations && e.name == name :: e.determinism
  }

  function FacetValues(a: Candidate, b: Candidate, facet: nat): set<string>
    requires facet < FACETS
  {
    set r | r in Both(a, b) :: r.facets[facet]
  }

  function Labels(a: Candidate, b: Candidate): set<Option<string>> {
    set r | r in Both(a, b) :: r.timing
  }

  /** `verify_assignment`: exactly what the suite, the policy and the seed assign. */
  predicate Verifies(suite: Suite, r: Replicate) {
    && r.assignment.cohort == suite.cohort(r.sampling)
    && suite.assigns(r.sampling, r.assignment.seed) == Some(r.assignment.tasks)
  }

  /** `assignment_mismatches`. */
  function Mismatches(x: Assignment, y: Assignment): set<Difference> {
    (if x.cohort != y.cohort then {Cohort} else {}) + (if x.seed != y.seed then {Seed} else {})
    + (if x.tasks != y.tasks then {Tasks} else {})
  }

  /** `by_seed.get(seed)`: the last replicate at a seed. */
  function LastAt(replicates: seq<Replicate>, seed: int): (r: Option<Replicate>)
    ensures r.Some? ==> r.value in replicates && r.value.seed == seed
    ensures r.None? ==> forall x :: x in replicates ==> x.seed != seed
  {
    if replicates == [] then None
    else
      var last := replicates[|replicates| - 1];
      if last.seed == seed then Some(last) else LastAt(replicates[..|replicates| - 1], seed)
  }

  // ---- the reasons -----------------------------------------------------------------------------------

  function When<T>(failed: bool, reason: T): set<T> {
    if failed then {reason} else {}
  }

  /** What fails of one side; *other* is the other one. */
  function Faults(suite: Suite, c: Candidate, other: Candidate): set<Fault> {
    EvaluatorFaults(c, other) + SeedFaults(c, other) + RunFaults(suite, c, other)
  }

  function EvaluatorFaults(c: Candidate, other: Candidate): set<Fault> {
    var cohorts := Cohorts(c, other);
    (set e | e in c.evaluations && e.measures.None? :: Unpinned(e.name))
    + (set e | e in c.evaluations && e.measures.Some? && |cohorts| == 1 && e.measures.value !in cohorts :: MeasuresAnother(e.name))
  }

  function SeedFaults(c: Candidate, other: Candidate): set<Fault> {
    When(!DistinctSeeds(c.replicates), RepeatsSeed) + (set seed | seed in SeedSet(other) - SeedSet(c) :: LacksSeed(seed))
  }

  function RunFaults(suite: Suite, c: Candidate, other: Candidate): set<Fault> {
    var declared := Declared(c, other);
    (set r | r in c.replicates && !Verifies(suite, r) :: Unverified(r.seed))
    + When(exists r, x | r in c.replicates && x in r.results :: x.evaluation !in declared, Undeclared)
    + When(exists r, x | r in c.replicates && x in r.results :: x.subject != r.digest, OtherSubject)
  }

  function MismatchReasons(a: Candidate, b: Candidate): set<Reason> {
    set r, d | r in a.replicates && LastAt(b.replicates, r.seed).Some?
               && d in Mismatches(r.assignment, LastAt(b.replicates, r.seed).value.assignment) :: Mismatched(r.seed, d)
  }

  predicate SameFingerprint(a: Candidate, b: Candidate, name: string) {
    |Fingerprints(a, name)| == 1 && |Fingerprints(b, name)| == 1 && Fingerprints(a, name) == Fingerprints(b, name)
  }

  predicate SameDeterminism(a: Candidate, b: Candidate, name: string) {
    |Determinism(a, name) + Determinism(b, name)| == 1
  }

  predicate SameFacet(a: Candidate, b: Candidate, facet: nat)
    requires facet < FACETS
  {
    |FacetValues(a, b, facet)| <= 1
  }

  /** What fails of the two together. */
  function SharedReasons(a: Candidate, b: Candidate): set<Reason> {
    When(|Cohorts(a, b)| != 1, ManyCohorts) + When(Names(a) != Names(b), OtherEvaluators)
    + FingerprintReasons(a, b) + DeterminismReasons(a, b) + FacetReasons(a, b)
  }

  function FingerprintReasons(a: Candidate, b: Candidate): set<Reason> {
    set name | name in Names(a) * Names(b) && !SameFingerprint(a, b, name) :: OtherFingerprint(name)
  }

  function DeterminismReasons(a: Candidate, b: Candidate): set<Reason> {
    set name | name in Names(a) * Names(b) && !SameDeterminism(a, b, name) :: OtherDeterminism(name)
  }

  function FacetReasons(a: Candidate, b: Candidate): set<Reason> {
    set facet: nat | facet < FACETS && !SameFacet(a, b, facet) :: OtherFacet(facet)
  }

  function Of(side: Side, faults: set<Fault>): set<Reason> {
    set fault | fault in faults :: Fails(side, fault)
  }

  /** Every failed condition, without repeats. */
  function Reasons(suite: Suite, a: Candidate, b: Candidate): set<Reason> {
    Of(SideA, Faults(suite, a, b)) + Of(SideB, Faults(suite, b, a)) + MismatchReasons(a, b) + SharedReasons(a, b)
  }

  /** The timing environment every run declares, if there is one. */
  function SharedTiming(a: Candidate, b: Candidate): Option<string>
    requires a.replicates != []
  {
    if |Labels(a, b)| == 1 then a.replicates[0].timing else None
  }

  /** `comparability`. */
  function Compared(suite: Suite, a: Candidate, b: Candidate): Conditions
    requires a.replicates != []
  {
    var reasons, timing := Reasons(suite, a, b), SharedTiming(a, b);
    var first := a.replicates[0];
    Conditions(reasons == {}, reasons,
               if reasons == {} then Some(ComparisonKey(first.assignment.cohort, Declared(a, b), first.facets, timing, Seeds(a)))
               else None,
               timing)
  }

  // ---- what comparable means -------------------------------------------------------------------------

  predicate AllOfCohort(a: Candidate, b: Candidate, cohort: nat) {
    && (forall r :: r in Both(a, b) ==> r.assignment.cohort == cohort)
    && (forall e :: e in a.evaluations + b.evaluations ==> e.measures == Some(cohort))
  }

  ghost predicate SameBenchmark(a: Candidate, b: Candidate) {
    exists cohort :: AllOfCohort(a, b, cohort)
  }

  /** Runs of the two at one seed were assigned the same. */
  predicate NoMismatch(a: Candidate, b: Candidate) {
    forall x, y :: x in a.replicates && y in b.replicates && x.seed == y.seed ==> x.assignment == y.assignment
  }

  /** Every run did what the suite assigns, and runs at one seed did the same. */
  predicate Matched(suite: Suite, a: Candidate, b: Candidate) {
    && (forall r :: r in Both(a, b) ==> Verifies(suite, r))
    && NoMismatch(a, b)
  }

  predicate SameEvaluations(a: Candidate, b: Candidate) {
    forall x, y :: x in a.evaluations + b.evaluations && y in a.evaluations + b.evaluations && x.name == y.name ==>
                     x.fingerprint == y.fingerprint && x.determinism == y.determinism
  }

  predicate Judged(c: Candidate, a: Candidate, b: Candidate) {
    forall r, x :: r in c.replicates && x in r.results ==> x.evaluation in Declared(a, b) && x.subject == r.digest
  }

  predicate SameScoring(a: Candidate, b: Candidate) {
    Names(a) == Names(b) && SameEvaluations(a, b) && Judged(a, a, b) && Judged(b, a, b)
  }

  predicate SameFacets(a: Candidate, b: Candidate) {
    forall x, y :: x in Both(a, b) && y in Both(a, b) ==> x.facets == y.facets
  }

  /** The same benchmark, tasks matched seed by seed, the same scoring and the same declared conditions. */
  ghost predicate Alike(suite: Suite, a: Candidate, b: Candidate) {
    SameBenchmark(a, b) && Paired(a, b) && Matched(suite, a, b) && SameScoring(a, b) && SameFacets(a, b)
  }

  lemma OneMember<T>(s: set<T>, x: T)
    requires x in s
    ensures |s| == 1 <==> forall y :: y in s ==> y == x
    ensures |s| >= 1
  {
    assert |s - {x}| == |s| - 1;
    if |s| == 1 {
      assert s - {x} == {};
    }
    if forall y :: y in s ==> y == x {
      assert s - {x} == {};
    }
  }

  /** A side's runs and evaluations raise no reason of their own. */
  predicate SideOk(suite: Suite, c: Candidate, other: Candidate) {
    && (forall e :: e in c.evaluations ==> e.measures.Some?)
    && (|Cohorts(c, other)| == 1 ==> forall e :: e in c.evaluations ==> e.measures.Some? && e.measures.value in Cohorts(c, other))
    && DistinctSeeds(c.replicates) && SeedSet(other) <= SeedSet(c)
    && (forall r :: r in c.replicates ==> Verifies(suite, r))
    && Judged(c, c, other)
  }

  lemma FaultsExactly(suite: Suite, c: Candidate, other: Candidate)
    ensures Faults(suite, c, other) == {} <==> SideOk(suite, c, other)
  {
    var faults := Faults(suite, c, other);
    if faults == {} {
      forall e | e in c.evaluations ensures e.measures.Some? && (|Cohorts(c, other)| == 1 ==> e.measures.value in Cohorts(c, other)) {
        assert Unpinned(e.name) !in faults && MeasuresAnother(e.name) !in faults;
      }
      assert RepeatsSeed !in faults && Undeclared !in faults && OtherSubject !in faults;
      forall seed | seed in SeedSet(other) ensures seed in SeedSet(c) {
        assert LacksSeed(seed) !in faults;
      }
      forall r | r in c.replicates ensures Verifies(suite, r) {
        assert Unverified(r.seed) !in faults;
      }
    }
  }

  lemma DistinctHas(replicates: seq<Replicate>, r: Replicate)
    requires DistinctSeeds(replicates) && r in replicates
    ensures LastAt(replicates, r.seed) == Some(r)
  {
  }

  lemma MismatchesExactly(a: Candidate, b: Candidate)
    requires DistinctSeeds(b.replicates)
    ensures MismatchReasons(a, b) == {} <==> NoMismatch(a, b)
  {
    if MismatchReasons(a, b) == {} {
      forall x, y | x in a.replicates && y in b.replicates && x.seed == y.seed ensures x.assignment == y.assignment {
        DistinctHas(b.replicates, y);
        forall d: Difference ensures d !in Mismatches(x.assignment, y.assignment) {
          assert Mismatched(x.seed, d) !in MismatchReasons(a, b);
        }
        assert Cohort !in Mismatches(x.assignment, y.assignment) && Seed !in Mismatches(x.assignment, y.assignment)
            && Tasks !in Mismatches(x.assignment, y.assignment);
      }
    }
  }

  predicate SharedOk(a: Candidate, b: Candidate) {
    && |Cohorts(a, b)| == 1 && Names(a) == Names(b)
    && (forall name :: name in Names(a) * Names(b) ==>
                         SameFingerprint(a, b, name) && SameDeterminism(a, b, name))
    && (forall facet: nat :: facet < FACETS ==> SameFacet(a, b, facet))
  }

  lemma SharedExactly(a: Candidate, b: Candidate)
    ensures SharedReasons(a, b) == {} <==> SharedOk(a, b)
  {
    var reasons := SharedReasons(a, b);
    if reasons == {} {
      assert ManyCohorts !in reasons && OtherEvaluators !in reasons;
      forall name | name in Names(a) * Names(b)
        ensures SameFingerprint(a, b, name) && SameDeterminism(a, b, name)
      {
        assert OtherFingerprint(name) !in reasons && OtherDeterminism(name) !in reasons;
      }
      forall facet: nat | facet < FACETS ensures SameFacet(a, b, facet) {
        assert OtherFacet(facet) !in reasons;
      }
    }
  }

  lemma CohortsAgree(a: Candidate, b: Candidate)
    requires a.replicates != []
    ensures a.replicates[0].assignment.cohort in Cohorts(a, b)
    ensures |Cohorts(a, b)| == 1 <==> forall r :: r in Both(a, b) ==> r.assignment.cohort == a.replicates[0].assignment.cohort
  {
    var first := a.replicates[0];
    assert first in Both(a, b);
    assert first.assignment.cohort in Cohorts(a, b);
    OneMember(Cohorts(a, b), first.assignment.cohort);
    forall r | r in Both(a, b) ensures r.assignment.cohort in Cohorts(a, b) {}
  }

  predicate MeasuresShared(a: Candidate, b: Candidate) {
    forall e :: e in a.evaluations + b.evaluations ==> e.measures.Some? && e.measures.value in Cohorts(a, b)
  }

  lemma BenchmarkExactly(a: Candidate, b: Candidate)
    requires a.replicates != []
    ensures SameBenchmark(a, b) <==> |Cohorts(a, b)| == 1 && MeasuresShared(a, b)
  {
    var cohort := a.replicates[0].assignment.cohort;
    CohortsAgree(a, b);
    OneMember(Cohorts(a, b), cohort);
    assert a.replicates[0] in Both(a, b);
    if |Cohorts(a, b)| == 1 && MeasuresShared(a, b) {
      assert AllOfCohort(a, b, cohort);
    }
  }

  predicate SameUnder(a: Candidate, b: Candidate, name: string) {
    SameFingerprint(a, b, name) && SameDeterminism(a, b, name)
  }

  lemma UnderName(a: Candidate, b: Candidate, x: Evaluation)
    requires Names(a) == Names(b) && x in a.evaluations + b.evaluations && SameUnder(a, b, x.name)
    ensures forall y :: y in a.evaluations + b.evaluations && x.name == y.name ==>
                          x.fingerprint == y.fingerprint && x.determinism == y.determinism
  {
    var prints, determinism := Fingerprints(a, x.name), Determinism(a, x.name) + Determinism(b, x.name);
    assert x.fingerprint in Fingerprints(a, x.name) + Fingerprints(b, x.name) && x.determinism in determinism;
    OneMember(prints, x.fingerprint);
    OneMember(determinism, x.determinism);
    forall y | y in a.evaluations + b.evaluations && x.name == y.name
      ensures x.fingerprint == y.fingerprint && x.determinism == y.determinism
    {
      assert y.fingerprint in Fingerprints(a, x.name) + Fingerprints(b, x.name) && y.determinism in determinism;
    }
  }

  lemma UnderNameBack(a: Candidate, b: Candidate, x: Evaluation, y: Evaluation)
    requires SameEvaluations(a, b) && x in a.evaluations && y in b.evaluations && x.name == y.name
    ensures SameUnder(a, b, x.name)
  {
    assert x.fingerprint in Fingerprints(a, x.name) && y.fingerprint in Fingerprints(b, x.name);
    assert x.determinism in Determinism(a, x.name) + Determinism(b, x.name);
    OneMember(Fingerprints(a, x.name), x.fingerprint);
    OneMember(Fingerprints(b, x.name), x.fingerprint);
    OneMember(Determinism(a, x.name) + Determinism(b, x.name), x.determinism);
  }

  lemma EvaluationsExactly(a: Candidate, b: Candidate)
    requires Names(a) == Names(b)
    ensures SameEvaluations(a, b) <==> forall name :: name in Names(a) * Names(b) ==> SameUnder(a, b, name)
  {
    if SameEvaluations(a, b) {
      forall name | name in Names(a) * Names(b) ensures SameUnder(a, b, name) {
        var x :| x in a.evaluations && x.name == name;
        var y :| y in b.evaluations && y.name == name;
        UnderNameBack(a, b, x, y);
      }
    }
    if forall name :: name in Names(a) * Names(b) ==> SameUnder(a, b, name) {
      forall x | x in a.evaluations + b.evaluations
        ensures forall y :: y in a.evaluations + b.evaluations && x.name == y.name ==>
                              x.fingerprint == y.fingerprint && x.determinism == y.determinism
      {
        assert x.name in Names(a) * Names(b);
        UnderName(a, b, x);
      }
    }
  }

  lemma FacetAgrees(a: Candidate, b: Candidate, facet: nat)
    requires a.replicates != [] && facet < FACETS
    ensures SameFacet(a, b, facet) <==> forall r :: r in Both(a, b) ==> r.facets[facet] == a.replicates[0].facets[facet]
  {
    var first := a.replicates[0];
    assert first in Both(a, b);
    assert first.facets[facet] in FacetValues(a, b, facet);
    OneMember(FacetValues(a, b, facet), first.facets[facet]);
    forall r | r in Both(a, b) ensures r.facets[facet] in FacetValues(a, b, facet) {}
  }

  lemma FacetsExactly(a: Candidate, b: Candidate)
    requires a.replicates != []
    ensures SameFacets(a, b) <==> forall facet: nat :: facet < FACETS ==> SameFacet(a, b, facet)
  {
    var first := a.replicates[0];
    assert first in Both(a, b);
    forall facet: nat | facet < FACETS
      ensures SameFacet(a, b, facet) <==> forall r :: r in Both(a, b) ==> r.facets[facet] == first.facets[facet]
    {
      FacetAgrees(a, b, facet);
    }
    if forall facet: nat :: facet < FACETS ==> SameFacet(a, b, facet) {
      forall r | r in Both(a, b) ensures r.facets == first.facets {
        assert forall facet: nat :: facet < FACETS ==> r.facets[facet] == first.facets[facet];
      }
    }
  }

  lemma BothOk(suite: Suite, a: Candidate, b: Candidate)
    ensures SideOk(suite, a, b) && SideOk(suite, b, a) && |Cohorts(a, b)| == 1 <==>
            && Paired(a, b) && (forall r :: r in Both(a, b) ==> Verifies(suite, r))
            && |Cohorts(a, b)| == 1 && MeasuresShared(a, b) && Judged(a, a, b) && Judged(b, a, b)
  {
    SymmetricParts(a, b);
    if Paired(a, b) {
      assert SeedSet(a) <= SeedSet(b) && SeedSet(b) <= SeedSet(a);
    }
  }

  lemma SymmetricParts(a: Candidate, b: Candidate)
    ensures Cohorts(a, b) == Cohorts(b, a) && Declared(a, b) == Declared(b, a) && Labels(a, b) == Labels(b, a)
    ensures forall facet: nat :: facet < FACETS ==> FacetValues(a, b, facet) == FacetValues(b, a, facet)
    ensures forall r :: r in Both(a, b) <==> r in Both(b, a)
  {
  }

  lemma ReasonsExactly(suite: Suite, a: Candidate, b: Candidate)
    ensures Reasons(suite, a, b) == {} <==>
            Faults(suite, a, b) == {} && Faults(suite, b, a) == {} && MismatchReasons(a, b) == {} && SharedReasons(a, b) == {}
  {
    var reasons := Reasons(suite, a, b);
    if reasons == {} {
      forall fault ensures fault !in Faults(suite, a, b) && fault !in Faults(suite, b, a) {
        assert Fails(SideA, fault) !in reasons && Fails(SideB, fault) !in reasons;
      }
      assert MismatchReasons(a, b) <= reasons && SharedReasons(a, b) <= reasons;
    }
  }

  /** Main result: no condition fails if and only if the two are alike. */
  lemma ComparableExactly(suite: Suite, a: Candidate, b: Candidate)
    requires a.replicates != []
    ensures Compared(suite, a, b).comparable <==> Alike(suite, a, b)
  {
    ReasonsExactly(suite, a, b);
    FaultsExactly(suite, a, b);
    FaultsExactly(suite, b, a);
    SharedExactly(a, b);
    BothOk(suite, a, b);
    BenchmarkExactly(a, b);
    FacetsExactly(a, b);
    if DistinctSeeds(b.replicates) { MismatchesExactly(a, b); }
    if Names(a) == Names(b) { EvaluationsExactly(a, b); }
  }

  // ---- exchanging the candidates ---------------------------------------------------------------------

  function Opposite(side: Side): Side {
    if side == SideA then SideB else SideA
  }

  function MirrorReason(r: Reason): Reason {
    if r.Fails? then Fails(Opposite(r.side), r.fault) else r
  }

  function MirrorConditions(c: Conditions): Conditions {
    c.(reasons := MirrorReasons(c.reasons))
  }

  function MirrorReasons(reasons: set<Reason>): set<Reason> {
    set r | r in reasons :: MirrorReason(r)
  }

  lemma MirrorReasonsAre(reasons: set<Reason>, r: Reason)
    ensures r in MirrorReasons(reasons) <==> MirrorReason(r) in reasons
  {
    assert MirrorReason(MirrorReason(r)) == r;
  }

  lemma PartsMirror(a: Candidate, b: Candidate)
    ensures forall name :: SameFingerprint(a, b, name) == SameFingerprint(b, a, name)
    ensures forall name :: SameDeterminism(a, b, name) == SameDeterminism(b, a, name)
    ensures forall facet: nat :: facet < FACETS ==> SameFacet(a, b, facet) == SameFacet(b, a, facet)
  {
    SymmetricParts(a, b);
    forall name ensures SameDeterminism(a, b, name) == SameDeterminism(b, a, name) {
      assert Determinism(a, name) + Determinism(b, name) == Determinism(b, name) + Determinism(a, name);
    }
  }

  /** What is found of the two together, said reason by reason. */
  predicate SharedFails(a: Candidate, b: Candidate, r: Reason) {
    match r
    case ManyCohorts => |Cohorts(a, b)| != 1
    case OtherEvaluators => Names(a) != Names(b)
    case OtherFingerprint(name) => name in Names(a) && name in Names(b) && !SameFingerprint(a, b, name)
    case OtherDeterminism(name) => name in Names(a) && name in Names(b) && !SameDeterminism(a, b, name)
    case OtherFacet(facet) => facet < FACETS && !SameFacet(a, b, facet)
    case _ => false
  }

  lemma EvaluatorsAre(a: Candidate, b: Candidate, r: Reason)
    ensures r in FingerprintReasons(a, b) + DeterminismReasons(a, b) <==>
            (r.OtherFingerprint? || r.OtherDeterminism?) && SharedFails(a, b, r)
  {
  }

  lemma FacetsAre(a: Candidate, b: Candidate, r: Reason)
    ensures r in FacetReasons(a, b) <==> r.OtherFacet? && SharedFails(a, b, r)
  {
  }

  lemma SharedIs(a: Candidate, b: Candidate, r: Reason)
    ensures r in SharedReasons(a, b) <==> SharedFails(a, b, r)
  {
    EvaluatorsAre(a, b, r);
    FacetsAre(a, b, r);
  }

  lemma MismatchesAre(a: Candidate, b: Candidate, r: Reason)
    ensures r in MismatchReasons(a, b) ==> r.Mismatched?
  {
  }

  lemma FaultsAre(side: Side, faults: set<Fault>, r: Reason)
    ensures r in Of(side, faults) <==> r.Fails? && r.side == side && r.fault in faults
  {
  }

  lemma SharedMirror(a: Candidate, b: Candidate, r: Reason)
    ensures SharedFails(a, b, r) <==> SharedFails(b, a, r)
  {
    SymmetricParts(a, b);
    PartsMirror(a, b);
  }

  lemma MismatchesSymmetric(x: Assignment, y: Assignment)
    ensures Mismatches(x, y) == Mismatches(y, x)
  {
  }

  lemma MismatchesAcross(a: Candidate, b: Candidate, r: Reason)
    requires DistinctSeeds(a.replicates)
    requires r in MismatchReasons(a, b)
    ensures r in MismatchReasons(b, a)
  {
    var x, d :| x in a.replicates && LastAt(b.replicates, x.seed).Some?
               && d in Mismatches(x.assignment, LastAt(b.replicates, x.seed).value.assignment) && r == Mismatched(x.seed, d);
    var y := LastAt(b.replicates, x.seed).value;
    DistinctHas(a.replicates, x);
    MismatchesSymmetric(x.assignment, y.assignment);
    assert y in b.replicates && LastAt(a.replicates, y.seed) == Some(x);
    assert Mismatched(y.seed, d) in MismatchReasons(b, a);
  }

  lemma ReasonsAre(suite: Suite, a: Candidate, b: Candidate, r: Reason)
    ensures r in Reasons(suite, a, b) <==>
            match r
            case Fails(side, fault) => fault in (if side == SideA then Faults(suite, a, b) else Faults(suite, b, a))
            case Mismatched(_, _) => r in MismatchReasons(a, b)
            case _ => SharedFails(a, b, r)
  {
    SharedIs(a, b, r);
    MismatchesAre(a, b, r);
    FaultsAre(SideA, Faults(suite, a, b), r);
    FaultsAre(SideB, Faults(suite, b, a), r);
  }

  /** Every failed condition is found from either side. Of two runs at one seed a mismatch is looked for in
      the last alone, and only on the side named second. */
  lemma ReasonsMirror(suite: Suite, a: Candidate, b: Candidate, r: Reason)
    requires r.Mismatched? ==> DistinctSeeds(a.replicates) && DistinctSeeds(b.replicates)
    ensures MirrorReason(r) in Reasons(suite, b, a) <==> r in Reasons(suite, a, b)
  {
    ReasonsAre(suite, a, b, r);
    ReasonsAre(suite, b, a, MirrorReason(r));
    SharedMirror(a, b, r);
    if r.Mismatched? {
      if r in MismatchReasons(a, b) { MismatchesAcross(a, b, r); }
      if r in MismatchReasons(b, a) { MismatchesAcross(b, a, r); }
    }
  }

  lemma TimingMirrors(a: Candidate, b: Candidate)
    requires a.replicates != [] && b.replicates != []
    ensures SharedTiming(a, b) == SharedTiming(b, a)
  {
    SymmetricParts(a, b);
    assert a.replicates[0] in Both(a, b) && b.replicates[0] in Both(a, b);
    assert a.replicates[0].timing in Labels(a, b) && b.replicates[0].timing in Labels(a, b);
    OneMember(Labels(a, b), a.replicates[0].timing);
  }

  /** Whether two candidates are comparable, and the key and timing environment they share, do not depend on
      which is named first. */
  lemma ComparableMirrors(suite: Suite, a: Candidate, b: Candidate)
    requires a.replicates != [] && b.replicates != []
    ensures var c, d := Compared(suite, a, b), Compared(suite, b, a);
            c.comparable == d.comparable && c.key == d.key && c.timing == d.timing
  {
    TimingMirrors(a, b);
    ComparableExactly(suite, a, b);
    ComparableExactly(suite, b, a);
    if Alike(suite, a, b) { AlikeMirrors(suite, a, b); FirstAlike(suite, a, b); }
    if Alike(suite, b, a) { AlikeMirrors(suite, b, a); }
  }

  lemma FirstAlike(suite: Suite, a: Candidate, b: Candidate)
    requires a.replicates != [] && b.replicates != [] && Alike(suite, a, b)
    ensures a.replicates[0].assignment.cohort == b.replicates[0].assignment.cohort
    ensures a.replicates[0].facets == b.replicates[0].facets && Seeds(a) == Seeds(b) && Declared(a, b) == Declared(b, a)
  {
    SeedsAgree(a, b);
    SymmetricParts(a, b);
    assert a.replicates[0] in Both(a, b) && b.replicates[0] in Both(a, b);
  }

  lemma AlikeMirrors(suite: Suite, a: Candidate, b: Candidate)
    requires Alike(suite, a, b)
    ensures Alike(suite, b, a)
  {
    SymmetricParts(a, b);
    var cohort :| AllOfCohort(a, b, cohort);
    assert AllOfCohort(b, a, cohort);
  }

  lemma AllReasonsMirror(suite: Suite, a: Candidate, b: Candidate)
    requires DistinctSeeds(a.replicates) && DistinctSeeds(b.replicates)
    ensures Reasons(suite, b, a) == MirrorReasons(Reasons(suite, a, b))
  {
    forall r ensures r in Reasons(suite, b, a) <==> r in MirrorReasons(Reasons(suite, a, b)) {
      ReasonsMirror(suite, b, a, r);
      MirrorReasonsAre(Reasons(suite, a, b), r);
    }
  }

  /** With distinct seeds everything mirrors. */
  lemma ConditionsMirror(suite: Suite, a: Candidate, b: Candidate)
    requires a.replicates != [] && b.replicates != []
    requires DistinctSeeds(a.replicates) && DistinctSeeds(b.replicates)
    ensures Compared(suite, b, a) == MirrorConditions(Compared(suite, a, b))
  {
    ComparableMirrors(suite, a, b);
    AllReasonsMirror(suite, a, b);
  }
}
