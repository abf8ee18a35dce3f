// Even when the search is exhaustive, the order in which collections are found can decide the verdict: artifacts are
// compared with the first collection of a step only.
module FirstFound {
  import opened Options
  import opened Collections
  import opened Sources
  import opened Steps
  import opened PolicyEngine
  import opened Pruning
  import opened Soundness
  import opened BackRefSearch
  import opened VerdictOrder

  /** `ce` is the one hit of the digests for the step. */
  ghost predicate OnlyHit(st: Store, p: Policy, rules: Rules, s: string, ce: CollectionEnvelope, digests: set<string>)
    requires s in p.steps
  {
    Hit(st, p, rules, s, ce, digests) && forall other :: Hit(st, p, rules, s, other, digests) ==> other == ce
  }

  /** A visit whose digests have one hit passes that and nothing else. */
  lemma OnlyHitPasses(st: Store, p: Policy, rules: Rules, seeds: seq<string>, log: seq<Visit>, i: nat,
                      ce: CollectionEnvelope)
    requires IsRun(p, rules, StoreSearch(st), seeds, log) && i < |log|
    requires OnlyHit(st, p, rules, log[i].stepName, ce, DigestsAt(seeds, log, i))
    ensures
      var passed := OutcomeOf(rules, p.steps[log[i].stepName], log[i].reply).passed;
      passed != [] && passed[0] == Listed(st, rules, p.steps[log[i].stepName], ce)
  {
    StoreSearchAnswers(st, p, rules, seeds, log);
    AppendedAreReached(st, p, rules, StoreSearch(st), seeds, log, i);
    assert Answered(st, p, log, i);
    HitIsPassed(st, p, rules, log[i], ce);
    var passed := OutcomeOf(rules, p.steps[log[i].stepName], log[i].reply).passed;
    PassedIsHit(st, p, rules, log[i], passed[0]);
  }

  lemma {:induction false} PassedInGrows(p: Policy, rules: Rules, log: seq<Visit>, s: string, m: nat)
    requires Known(p, log) && m <= |log|
    ensures PassedIn(p, rules, log[..m], s) <= PassedIn(p, rules, log, s)
  {
    if m < |log| {
      assert log[..|log| - 1][..m] == log[..m];
      PassedInGrows(p, rules, log[..|log| - 1], s, m);
    } else {
      assert log[..m] == log;
    }
  }

  /** The second visit is the first to its step, so what it passes first stays first. */
  lemma SecondVisitDecides(p: Policy, rules: Rules, log: seq<Visit>, s: string)
    requires Known(p, log) && |log| >= 2 && log[0].stepName != s && log[1].stepName == s
    requires OutcomeOf(rules, p.steps[s], log[1].reply).passed != []
    ensures PassedIn(p, rules, log, s) != []
    ensures PassedIn(p, rules, log, s)[0] == OutcomeOf(rules, p.steps[s], log[1].reply).passed[0]
  {
    assert log[..2][..1] == log[..1] && log[..1][..0] == [];
    assert PassedIn(p, rules, log[..1], s) == [];
    PassedInGrows(p, rules, log, s, 2);
  }

  /** The first visit leaves what the one hit of the seeds refers back to. */
  lemma DigestsAfterFirst(st: Store, p: Policy, rules: Rules, seeds: seq<string>, log: seq<Visit>, ce: CollectionEnvelope)
    requires IsRun(p, rules, StoreSearch(st), seeds, log) && |log| >= 1
    requires OnlyHit(st, p, rules, log[0].stepName, ce, Elements(seeds))
    ensures DigestsAt(seeds, log, 1) == Elements(seeds) + BackRefDigests(ce.collection)
  {
    assert log[..0] == [];
    StoreSearchAnswers(st, p, rules, seeds, log);
    AppendedAreReached(st, p, rules, StoreSearch(st), seeds, log, 0);
    DigestsStep(seeds, log, 0);
    forall d ensures d in Elements(log[0].appended) <==> d in BackRefDigests(ce.collection) {
      assert d in Elements(log[0].appended) <==> d in log[0].appended;
    }
  }

  /**
   * Step `a` leads on to one collection of the supplier `f`, and it is the first of them that is found when `a` and `f`
   * are the first steps to be visited.
   */
  ghost predicate LeadsTo(st: Store, p: Policy, rules: Rules, seeds: seq<string>, a: string, f: string,
                          ea: CollectionEnvelope, ef: CollectionEnvelope)
  {
    && a in p.steps && f in p.steps && a != f
    && OnlyHit(st, p, rules, a, ea, Elements(seeds))
    && OnlyHit(st, p, rules, f, ef, Elements(seeds) + BackRefDigests(ea.collection))
  }

  lemma FirstOfSupplier(st: Store, p: Policy, rules: Rules, seeds: seq<string>, a: string, f: string,
                        ea: CollectionEnvelope, ef: CollectionEnvelope, log: seq<Visit>)
    requires LeadsTo(st, p, rules, seeds, a, f, ea, ef)
    requires IsRun(p, rules, StoreSearch(st), seeds, log) && |log| >= 2 && log[0].stepName == a && log[1].stepName == f
    ensures PassedIn(p, rules, log, f) != []
    ensures PassedIn(p, rules, log, f)[0] == Listed(st, rules, p.steps[f], ef)
  {
    DigestsAfterFirst(st, p, rules, seeds, log, ea);
    OnlyHitPasses(st, p, rules, seeds, log, 1, ef);
    SecondVisitDecides(p, rules, log, f);
  }

  /** All steps but `t` take no artifacts; `t` takes them from `f` and has one collection, which the seeds lead to. */
  ghost predicate TakesFrom(st: Store, p: Policy, rules: Rules, seeds: seq<string>, t: string, f: string,
                            et: CollectionEnvelope)
  {
    && t in p.steps && f in p.steps && t != f && p.steps[t].artifactsFrom == [f]
    && (forall s :: s in p.steps && s != t ==> p.steps[s].artifactsFrom == [])
    && Hit(st, p, rules, t, et, Elements(seeds))
    && (forall other, digests :: Hit(st, p, rules, t, other, digests) ==> other == et)
  }

  ghost predicate Fits(et: CollectionEnvelope, ef: CollectionEnvelope) {
    Compatible(MaterialsOf(et.collection.attestations), ArtifactsOf(ef.collection))
  }

  /** The step holds exactly when the first collection of the supplier fits. */
  lemma TakerHoldsIff(st: Store, p: Policy, rules: Rules, seeds: seq<string>, t: string, f: string,
                      et: CollectionEnvelope, ef: CollectionEnvelope, log: seq<Visit>)
    requires WellFormed(p) && TakesFrom(st, p, rules, seeds, t, f, et)
    requires IsRun(p, rules, StoreSearch(st), seeds, log)
    requires t in ResultsOf(p, rules, log) && f in ResultsOf(p, rules, log)
    requires PassedIn(p, rules, log, t) != [] && PassedIn(p, rules, log, f) != []
    requires PassedIn(p, rules, log, f)[0] == Listed(st, rules, p.steps[f], ef)
    ensures StepHolds(p.steps[t], ResultsOf(p, rules, log)) <==> Fits(et, ef)
  {
    MergeLosesNothing(p, rules, log, t);
    MergeLosesNothing(p, rules, log, f);
    forall c | c in PassedIn(p, rules, log, t) ensures c.env == et {
      TakerCollections(st, p, rules, seeds, t, f, et, log, c);
    }
    AllAlikeHoldIff(p.steps[t], f, et, ResultsOf(p, rules, log));
  }

  lemma AllAlikeHoldIff(step: Step, f: string, et: CollectionEnvelope, results: map<string, StepResult>)
    requires step.artifactsFrom == [f] && step.name in results && f in results && results[f].passed != []
    requires results[step.name].passed != [] && forall c :: c in results[step.name].passed ==> c.env == et
    ensures StepHolds(step, results) <==> Fits(et, results[f].passed[0].env)
  {
    forall i | 0 <= i < |results[step.name].passed|
      ensures Acceptable(step, results[step.name].passed[i], results) <==> Fits(et, results[f].passed[0].env)
    {
      assert results[step.name].passed[i] in results[step.name].passed;
      SupplierAgreesIff(step, results[step.name].passed[i], f, results);
    }
    assert Acceptable(step, results[step.name].passed[0], results) <==> Fits(et, results[f].passed[0].env);
  }

  lemma SupplierAgreesIff(step: Step, c: CollectionResult, f: string, results: map<string, StepResult>)
    requires step.artifactsFrom == [f] && f in results && results[f].passed != []
    ensures Acceptable(step, c, results) <==>
      Compatible(MaterialsOf(c.env.collection.attestations), ArtifactsOf(results[f].passed[0].env.collection))
  {
    assert Acceptable(step, c, results) <==>
      FirstAgrees(MaterialsOf(c.env.collection.attestations), step.artifactsFrom[0], results);
  }

  lemma TakerCollections(st: Store, p: Policy, rules: Rules, seeds: seq<string>, t: string, f: string,
                         et: CollectionEnvelope, log: seq<Visit>, c: CollectionResult)
    requires TakesFrom(st, p, rules, seeds, t, f, et) && IsRun(p, rules, StoreSearch(st), seeds, log)
    requires c in PassedIn(p, rules, log, t)
    ensures c.env == et
  {
    StoreSearchAnswers(st, p, rules, seeds, log);
    PassedInMember(p, rules, log, t, c);
    var i :| 0 <= i < |log| && PassedBy(p, rules, log[i], t, c);
    assert Answered(st, p, log, i);
    PassedIsHit(st, p, rules, log[i], c);
  }

  lemma ListedInFirstRound(st: Store, p: Policy, rules: Rules, seeds: seq<string>, depth: nat, log: seq<Visit>, s: string,
                           ce: CollectionEnvelope)
    requires depth >= 1 && s in p.steps && Hit(st, p, rules, s, ce, Elements(seeds))
    requires IsRun(p, rules, StoreSearch(st), seeds, log) && Covers(p, depth, log)
    ensures PassedIn(p, rules, log, s) != []
  {
    StoreSearchAnswers(st, p, rules, seeds, log);
    assert Visited(log, 0, s);
    var i :| 0 <= i < |log| && log[i].round == 0 && log[i].stepName == s;
    DigestsGrow(seeds, log, 0, i);
    assert log[..0] == [];
    assert Hit(st, p, rules, s, ce, DigestsAt(seeds, log, i));
    HitAtVisitIsListed(st, p, rules, StoreSearch(st), seeds, log, i, s, ce);
  }

  /** Every step but the supplier is led to by the seeds. */
  ghost predicate SeedsLead(st: Store, p: Policy, rules: Rules, seeds: seq<string>, f: string) {
    forall s :: s in p.steps && s != f ==> exists ce :: Hit(st, p, rules, s, ce, Elements(seeds))
  }

  /** In a run that visits `a` and `f` first, the verdict is whether the collection `a` leads to fits. */
  lemma VerdictByFirst(st: Store, p: Policy, rules: Rules, opts: VerifyOptions, a: string, f: string, t: string,
                       ea: CollectionEnvelope, ef: CollectionEnvelope, et: CollectionEnvelope, trace: Trace)
    requires WellFormed(p) && IsTrace(p, rules, StoreSearch(st), opts, trace) && Enumerates(trace.order, p.steps.Keys)
    requires LeadsTo(st, p, rules, opts.subjectDigests, a, f, ea, ef)
    requires TakesFrom(st, p, rules, opts.subjectDigests, t, f, et) && SeedsLead(st, p, rules, opts.subjectDigests, f)
    requires |trace.log| >= 2 && trace.log[0].stepName == a && trace.log[1].stepName == f
    ensures Verdicts(p, rules, StoreSearch(st), opts, trace, Fits(et, ef))
  {
    FirstOfSupplier(st, p, rules, opts.subjectDigests, a, f, ea, ef, trace.log);
    AllHoldIff(st, p, rules, opts, f, t, ef, et, trace);
    VerdictIsWhetherAllHold(p, rules, StoreSearch(st), opts, trace, Fits(et, ef));
  }

  lemma AllHoldIff(st: Store, p: Policy, rules: Rules, opts: VerifyOptions, f: string, t: string,
                   ef: CollectionEnvelope, et: CollectionEnvelope, trace: Trace)
    requires WellFormed(p) && IsTrace(p, rules, StoreSearch(st), opts, trace)
    requires TakesFrom(st, p, rules, opts.subjectDigests, t, f, et) && SeedsLead(st, p, rules, opts.subjectDigests, f)
    requires PassedIn(p, rules, trace.log, f) != []
    requires PassedIn(p, rules, trace.log, f)[0] == Listed(st, rules, p.steps[f], ef)
    ensures Fits(et, ef) <==> forall s :: s in p.steps ==> StepHolds(p.steps[s], ResultsOf(p, rules, trace.log))
  {
    CoveredSteps(p, rules, opts.searchDepth, trace.log);
    ListedInFirstRound(st, p, rules, opts.subjectDigests, opts.searchDepth, trace.log, t, et);
    TakerHoldsIff(st, p, rules, opts.subjectDigests, t, f, et, ef, trace.log);
    forall s | s in p.steps && s != t ensures StepHolds(p.steps[s], ResultsOf(p, rules, trace.log)) {
      OthersHold(st, p, rules, opts, f, t, et, trace, s);
    }
  }

  lemma OthersHold(st: Store, p: Policy, rules: Rules, opts: VerifyOptions, f: string, t: string,
                   et: CollectionEnvelope, trace: Trace, s: string)
    requires WellFormed(p) && IsTrace(p, rules, StoreSearch(st), opts, trace)
    requires TakesFrom(st, p, rules, opts.subjectDigests, t, f, et) && SeedsLead(st, p, rules, opts.subjectDigests, f)
    requires s in p.steps && s != t && s in ResultsOf(p, rules, trace.log)
    requires s == f ==> PassedIn(p, rules, trace.log, f) != []
    ensures StepHolds(p.steps[s], ResultsOf(p, rules, trace.log))
  {
    if s != f {
      var ce :| Hit(st, p, rules, s, ce, Elements(opts.subjectDigests));
      ListedInFirstRound(st, p, rules, opts.subjectDigests, opts.searchDepth, trace.log, s, ce);
    }
    MergeLosesNothing(p, rules, trace.log, s);
    StepWithoutSuppliers(p.steps[s], ResultsOf(p, rules, trace.log));
  }

  /** Some two-round run starts with the given steps. */
  lemma TwoRoundsFrom(st: Store, p: Policy, rules: Rules, seeds: seq<string>, a: string, f: string)
    returns (log: seq<Visit>, order: seq<string>)
    requires a in p.steps && f in p.steps && a != f
    ensures IsRun(p, rules, StoreSearch(st), seeds, log) && Covers(p, 2, log) && IsOrder(p, order)
    ensures |log| >= 2 && log[0].stepName == a && log[1].stepName == f
  {
    var rest := OrderStartingWith(p, [a, f], {a, f});
    order := [a, f] + rest;
    NothingVisited(p, rules, StoreSearch(st), seeds);
    var first := RoundAfter(st, p, rules, seeds, [], 0, order);
    log := RoundAfter(st, p, rules, seeds, first, 1, order);
    assert log[0] == log[..|first|][0] && log[1] == log[..|first|][1];
    TwoRoundsCover(p, order, first, log);
  }

  lemma TwoRoundsCover(p: Policy, order: seq<string>, first: seq<Visit>, log: seq<Visit>)
    requires Enumerates(order, p.steps.Keys) && Continues(first, [], 0, order) && Continues(log, first, 1, order)
    ensures Covers(p, 2, log)
  {
    forall i | 0 <= i < |first| ensures log[i] == first[i] {
      assert log[i] == log[..|first|][i];
    }
    forall d, s | 0 <= d < 2 && s in p.steps ensures Visited(log, d, s) {
      assert s in Elements(order);
      var i :| 0 <= i < |order| && order[i] == s;
      assert log[if d == 0 then i else |first| + i].stepName == s;
    }
  }

  /**
   * If one step leads to a collection of the supplier that fits and another to one that does not, both verdicts are
   * possible at a search depth of two, even though the hops have settled.
   */
  lemma FirstFoundDecides(st: Store, p: Policy, rules: Rules, opts: VerifyOptions, a: string, b: string, f: string,
                          t: string, ea: CollectionEnvelope, eb: CollectionEnvelope, good: CollectionEnvelope,
                          bad: CollectionEnvelope, et: CollectionEnvelope) returns (t1: Trace, t2: Trace)
    requires WellFormed(p) && opts.searchDepth == 2 && Settles(st, p, rules, opts.subjectDigests, 1)
    requires LeadsTo(st, p, rules, opts.subjectDigests, a, f, ea, good)
    requires LeadsTo(st, p, rules, opts.subjectDigests, b, f, eb, bad)
    requires TakesFrom(st, p, rules, opts.subjectDigests, t, f, et) && SeedsLead(st, p, rules, opts.subjectDigests, f)
    requires Fits(et, good) && !Fits(et, bad)
    ensures Verdicts(p, rules, StoreSearch(st), opts, t1, true)
    ensures Verdicts(p, rules, StoreSearch(st), opts, t2, false)
  {
    t1 := TraceFrom(st, p, rules, opts, a, f, t, ea, good, et);
    t2 := TraceFrom(st, p, rules, opts, b, f, t, eb, bad, et);
  }

  lemma TraceFrom(st: Store, p: Policy, rules: Rules, opts: VerifyOptions, a: string, f: string, t: string,
                  ea: CollectionEnvelope, ef: CollectionEnvelope, et: CollectionEnvelope) returns (trace: Trace)
    requires WellFormed(p) && opts.searchDepth == 2
    requires LeadsTo(st, p, rules, opts.subjectDigests, a, f, ea, ef)
    requires TakesFrom(st, p, rules, opts.subjectDigests, t, f, et) && SeedsLead(st, p, rules, opts.subjectDigests, f)
    ensures Verdicts(p, rules, StoreSearch(st), opts, trace, Fits(et, ef))
  {
    var log, order := TwoRoundsFrom(st, p, rules, opts.subjectDigests, a, f);
    trace := Trace(log, order);
    VerdictByFirst(st, p, rules, opts, a, f, t, ea, ef, et, trace);
  }
}
