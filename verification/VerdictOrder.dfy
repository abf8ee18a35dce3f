// When the verdict does not depend on the orders in which the steps are visited, and an example where it does.
module VerdictOrder {
  import opened Options
  import opened Collections
  import opened Sources
  import opened Steps
  import opened PolicyEngine
  import opened Soundness
  import opened BackRefSearch

  /** For the materials of `ce`, it makes no difference whether it is compared with the artifacts of `a` or of `b`. */
  ghost predicate CompareAlike(ce: CollectionEnvelope, a: CollectionEnvelope, b: CollectionEnvelope) {
    Compatible(MaterialsOf(ce.collection.attestations), ArtifactsOf(a.collection)) <==>
    Compatible(MaterialsOf(ce.collection.attestations), ArtifactsOf(b.collection))
  }

  ghost predicate SupplyAlike(st: Store, p: Policy, rules: Rules, s: string, from: string, digests: set<string>)
    requires s in p.steps
  {
    from in p.steps ==>
      forall ce, a, b ::
        && Hit(st, p, rules, s, ce, digests)
        && Hit(st, p, rules, from, a, digests)
        && Hit(st, p, rules, from, b, digests)
        ==> CompareAlike(ce, a, b)
  }

  /** Which of its hits a step lists first makes no difference to the steps that take artifacts from it. */
  ghost predicate FirstIsImmaterial(st: Store, p: Policy, rules: Rules, digests: set<string>) {
    forall s, i :: s in p.steps && 0 <= i < |p.steps[s].artifactsFrom| ==>
      SupplyAlike(st, p, rules, s, p.steps[s].artifactsFrom[i], digests)
  }

  /** `results` lists, for every step, the hits of the digests, in some order. */
  ghost predicate ListsAll(st: Store, p: Policy, rules: Rules, results: map<string, StepResult>, digests: set<string>) {
    && results.Keys == p.steps.Keys
    && (forall s :: s in p.steps ==> ListsHits(st, p, rules, s, results[s].passed, digests))
  }

  lemma FirstAgreesAlike(st: Store, p: Policy, rules: Rules, digests: set<string>, r1: map<string, StepResult>,
                         r2: map<string, StepResult>, s: string, c: CollectionResult, from: string)
    requires s in p.steps && SupplyAlike(st, p, rules, s, from, digests)
    requires ListsAll(st, p, rules, r1, digests) && ListsAll(st, p, rules, r2, digests)
    requires c in r1[s].passed
    requires FirstAgrees(MaterialsOf(c.env.collection.attestations), from, r1)
    ensures FirstAgrees(MaterialsOf(c.env.collection.attestations), from, r2)
  {
    assert ListsHits(st, p, rules, s, r1[s].passed, digests);
    assert ListsHits(st, p, rules, from, r1[from].passed, digests);
    assert ListsHits(st, p, rules, from, r2[from].passed, digests);
    SameHitsSameElements(st, p, rules, from, r1[from].passed, r2[from].passed, digests);
    assert r1[from].passed[0] in Elements(r2[from].passed);
    var ce :| Hit(st, p, rules, s, ce, digests) && c == Listed(st, rules, p.steps[s], ce);
    var a :| Hit(st, p, rules, from, a, digests) && r1[from].passed[0] == Listed(st, rules, p.steps[from], a);
    assert r2[from].passed[0] in r2[from].passed;
    var b :| Hit(st, p, rules, from, b, digests) && r2[from].passed[0] == Listed(st, rules, p.steps[from], b);
    assert CompareAlike(ce, a, b);
  }

  lemma StepHoldsAlike(st: Store, p: Policy, rules: Rules, digests: set<string>, r1: map<string, StepResult>,
                       r2: map<string, StepResult>, s: string)
    requires WellFormed(p) && FirstIsImmaterial(st, p, rules, digests)
    requires ListsAll(st, p, rules, r1, digests) && ListsAll(st, p, rules, r2, digests)
    requires s in p.steps && StepHolds(p.steps[s], r1)
    ensures StepHolds(p.steps[s], r2)
  {
    var step := p.steps[s];
    var i :| 0 <= i < |r1[s].passed| && Acceptable(step, r1[s].passed[i], r1);
    var c := r1[s].passed[i];
    assert c in Elements(r1[s].passed);
    SameHitsSameElements(st, p, rules, s, r1[s].passed, r2[s].passed, digests);
    assert c in Elements(r2[s].passed);
    var j :| 0 <= j < |r2[s].passed| && r2[s].passed[j] == c;
    forall k | 0 <= k < |step.artifactsFrom|
      ensures FirstAgrees(MaterialsOf(c.env.collection.attestations), step.artifactsFrom[k], r2)
    {
      FirstAgreesAlike(st, p, rules, digests, r1, r2, s, c, step.artifactsFrom[k]);
    }
    assert Acceptable(step, r2[s].passed[j], r2);
  }

  lemma VerdictIgnoresOrderAt(st: Store, p: Policy, rules: Rules, opts: VerifyOptions, d: nat,
                              search1: Search, t1: Trace, v1: Verdict, search2: Search, t2: Trace, v2: Verdict)
    requires WellFormed(p) && opts.searchDepth == d + 1
    requires Settles(st, p, rules, opts.subjectDigests, d)
    requires FirstIsImmaterial(st, p, rules, Layer(st, p, rules, opts.subjectDigests, d))
    requires Explains(p, rules, search1, opts, t1, v1) && FromStore(st, p, t1.log)
    requires Explains(p, rules, search2, opts, t2, v2) && FromStore(st, p, t2.log)
    ensures v1.pass == v2.pass
  {
    var digests := Layer(st, p, rules, opts.subjectDigests, d);
    var r1, r2 := ResultsOf(p, rules, t1.log), ResultsOf(p, rules, t2.log);
    SettledSearchIsExhaustive(st, p, rules, search1, opts.subjectDigests, d, t1.log);
    SettledSearchIsExhaustive(st, p, rules, search2, opts.subjectDigests, d, t2.log);
    VerdictIff(p, rules, search1, opts, t1);
    VerdictIff(p, rules, search2, opts, t2);
    forall s | s in p.steps ensures StepHolds(p.steps[s], r1) <==> StepHolds(p.steps[s], r2) {
      if StepHolds(p.steps[s], r1) { StepHoldsAlike(st, p, rules, digests, r1, r2, s); }
      if StepHolds(p.steps[s], r2) { StepHoldsAlike(st, p, rules, digests, r2, r1, s); }
    }
  }

  lemma SupplyStaysAlike(st: Store, p: Policy, rules: Rules, s: string, from: string, digests: set<string>,
                         more: set<string>)
    requires s in p.steps && SupplyAlike(st, p, rules, s, from, digests)
    requires forall t, ce :: t in p.steps && Hit(st, p, rules, t, ce, more) ==> Hit(st, p, rules, t, ce, digests)
    ensures SupplyAlike(st, p, rules, s, from, more)
  {
  }

  lemma FirstStaysImmaterial(st: Store, p: Policy, rules: Rules, seeds: seq<string>, d: nat, e: nat)
    requires Settles(st, p, rules, seeds, d) && d <= e
    requires FirstIsImmaterial(st, p, rules, Layer(st, p, rules, seeds, d))
    ensures FirstIsImmaterial(st, p, rules, Layer(st, p, rules, seeds, e))
  {
    forall s, i | s in p.steps && 0 <= i < |p.steps[s].artifactsFrom|
      ensures SupplyAlike(st, p, rules, s, p.steps[s].artifactsFrom[i], Layer(st, p, rules, seeds, e))
    {
      NothingNewLater(st, p, rules, seeds, d, e);
      SupplyStaysAlike(st, p, rules, s, p.steps[s].artifactsFrom[i], Layer(st, p, rules, seeds, d),
                       Layer(st, p, rules, seeds, e));
    }
  }

  /**
   * Two verifications of the same policy against the same store agree on the verdict, whatever orders they visit the
   * steps in, when the hops settle before the rounds run out and it is immaterial which hit of a step comes first.
   */
  lemma VerdictIgnoresOrder(st: Store, p: Policy, rules: Rules, opts: VerifyOptions, d: nat,
                            search1: Search, t1: Trace, v1: Verdict, search2: Search, t2: Trace, v2: Verdict)
    requires WellFormed(p) && d < opts.searchDepth
    requires Settles(st, p, rules, opts.subjectDigests, d)
    requires FirstIsImmaterial(st, p, rules, Layer(st, p, rules, opts.subjectDigests, d))
    requires Explains(p, rules, search1, opts, t1, v1) && FromStore(st, p, t1.log)
    requires Explains(p, rules, search2, opts, t2, v2) && FromStore(st, p, t2.log)
    ensures v1.pass == v2.pass
  {
    var e: nat := opts.searchDepth - 1;
    SettledStaysSettled(st, p, rules, opts.subjectDigests, d, e);
    FirstStaysImmaterial(st, p, rules, opts.subjectDigests, d, e);
    VerdictIgnoresOrderAt(st, p, rules, opts, e, search1, t1, v1, search2, t2, v2);
  }

  // ---- the verified in-memory source as a search ----------------------------------------------

  function LiftAll(st: Store, found: seq<CollectionEnvelope>): seq<CollectionResult> {
    seq(|found|, i requires 0 <= i < |found| => LiftOf(st, found[i]))
  }

  function StoreSearch(st: Store): Search {
    (n: nat, name: string, digests: seq<string>, types: seq<string>) =>
      Some(LiftAll(st, Scan(st.loads, name, digests, types)))
  }

  lemma StoreSearchAnswers(st: Store, p: Policy, rules: Rules, seeds: seq<string>, log: seq<Visit>)
    requires IsRun(p, rules, StoreSearch(st), seeds, log)
    ensures FromStore(st, p, log)
  {
    forall i | 0 <= i < |log| ensures Answered(st, p, log, i) {
      assert VisitOk(p, rules, StoreSearch(st), seeds, log, i);
    }
  }

  // ---- one round in a given order -------------------------------------------------------------

  /** The visits of one round, in the given order. */
  ghost predicate Follows(log: seq<Visit>, order: seq<string>) {
    |log| == |order| && forall i :: 0 <= i < |log| ==> log[i].round == 0 && log[i].stepName == order[i]
  }

  lemma {:induction false} SequenceOf(digests: set<string>) returns (s: seq<string>)
    ensures Elements(s) == digests
    decreases digests
  {
    if digests == {} {
      s := [];
    } else {
      var d :| d in digests;
      s := SequenceOf(digests - {d});
      ElementsAppend(s, [d]);
      s := s + [d];
    }
  }

  /** What a visit to step `s` does next. */
  lemma NextVisit(st: Store, p: Policy, rules: Rules, seeds: seq<string>, log: seq<Visit>, round: nat, s: string)
    returns (v: Visit)
    requires s in p.steps
    ensures v.round == round && v.stepName == s
    ensures VisitOk(p, rules, StoreSearch(st), seeds, log + [v], |log|)
  {
    var digests := DigestsAfter(seeds, log);
    var reply := LiftAll(st, Scan(st.loads, s, digests, TypesOf(p.steps[s])));
    var appended := SequenceOf(BackReferenced(OutcomeOf(rules, p.steps[s], reply).passed));
    v := Visit(round, s, digests, reply, appended);
    assert (log + [v])[..|log|] == log;
  }

  /** `log` is `before` followed by one round in the given order. */
  ghost predicate Continues(log: seq<Visit>, before: seq<Visit>, round: nat, order: seq<string>) {
    && |log| == |before| + |order| && log[..|before|] == before
    && (forall i :: |before| <= i < |log| ==> log[i].round == round && log[i].stepName == order[i - |before|])
  }

  /** After earlier rounds, some run of one more visits the steps in the given order. */
  lemma {:induction false} RoundAfter(st: Store, p: Policy, rules: Rules, seeds: seq<string>, before: seq<Visit>,
                                      round: nat, order: seq<string>) returns (log: seq<Visit>)
    requires IsRun(p, rules, StoreSearch(st), seeds, before) && forall i :: 0 <= i < |before| ==> before[i].round < round
    requires forall i :: 0 <= i < |order| ==> order[i] in p.steps
    requires forall i, j :: 0 <= i < j < |order| ==> order[i] != order[j]
    ensures IsRun(p, rules, StoreSearch(st), seeds, log) && Continues(log, before, round, order)
  {
    if order == [] {
      log := before;
    } else {
      var front, s := order[..|order| - 1], order[|order| - 1];
      var shorter := RoundAfter(st, p, rules, seeds, before, round, front);
      log := ExtendRound(st, p, rules, seeds, before, shorter, round, front, s);
      assert front + [s] == order;
    }
  }

  lemma ExtendRound(st: Store, p: Policy, rules: Rules, seeds: seq<string>, before: seq<Visit>, shorter: seq<Visit>,
                    round: nat, front: seq<string>, s: string) returns (log: seq<Visit>)
    requires forall i :: 0 <= i < |before| ==> before[i].round < round
    requires IsRun(p, rules, StoreSearch(st), seeds, shorter) && Continues(shorter, before, round, front)
    requires s in p.steps && s !in front
    ensures IsRun(p, rules, StoreSearch(st), seeds, log) && Continues(log, before, round, front + [s])
  {
    var v := NextVisit(st, p, rules, seeds, shorter, round, s);
    log := shorter + [v];
    forall i | 0 <= i < |shorter|
      ensures shorter[i].round < v.round || (shorter[i].round == v.round && shorter[i].stepName != v.stepName)
    {
      if i < |before| {
        assert shorter[i] == before[i];
      }
    }
    RunExtends(p, rules, StoreSearch(st), seeds, shorter, v);
  }

  /** Some run of one round visits the steps in the given order. */
  lemma RoundInOrder(st: Store, p: Policy, rules: Rules, seeds: seq<string>, order: seq<string>)
    returns (log: seq<Visit>)
    requires forall i :: 0 <= i < |order| ==> order[i] in p.steps
    requires forall i, j :: 0 <= i < j < |order| ==> order[i] != order[j]
    ensures IsRun(p, rules, StoreSearch(st), seeds, log) && Follows(log, order)
  {
    NothingVisited(p, rules, StoreSearch(st), seeds);
    log := RoundAfter(st, p, rules, seeds, [], 0, order);
  }

  lemma NothingVisited(p: Policy, rules: Rules, search: Search, seeds: seq<string>)
    ensures IsRun(p, rules, search, seeds, [])
  {
  }

  lemma FollowsCovers(p: Policy, log: seq<Visit>, order: seq<string>)
    requires Follows(log, order) && Enumerates(order, p.steps.Keys)
    ensures Covers(p, 1, log)
  {
    forall d, s | 0 <= d < 1 && s in p.steps ensures Visited(log, d, s) {
      assert s in Elements(order);
      var i :| 0 <= i < |order| && order[i] == s;
      assert log[i].stepName == s;
    }
  }

  // ---- one round is not enough ----------------------------------------------------------------

  /** Only the seeds lead to `ea`, a collection of step `a`, and only `ea` leads to the collections of step `b`. */
  ghost predicate Chained(st: Store, p: Policy, rules: Rules, seeds: seq<string>, a: string, b: string,
                          ea: CollectionEnvelope, eb: CollectionEnvelope)
  {
    && TwoSteps(p, a, b)
    && Hit(st, p, rules, a, ea, Elements(seeds))
    && Hit(st, p, rules, b, eb, BackRefDigests(ea.collection))
    && NotLedTo(st, p, rules, b, seeds)
  }

  ghost predicate TwoSteps(p: Policy, a: string, b: string) {
    && a != b && p.steps.Keys == {a, b}
    && p.steps[a].artifactsFrom == [] && p.steps[b].artifactsFrom == []
  }

  ghost predicate NotLedTo(st: Store, p: Policy, rules: Rules, s: string, seeds: seq<string>)
    requires s in p.steps
  {
    forall ce :: !Hit(st, p, rules, s, ce, Elements(seeds))
  }

  lemma RoundOfTwo(st: Store, p: Policy, rules: Rules, seeds: seq<string>, a: string, b: string)
    returns (log: seq<Visit>)
    requires TwoSteps(p, a, b)
    ensures IsRun(p, rules, StoreSearch(st), seeds, log) && Follows(log, [a, b])
  {
    log := RoundInOrder(st, p, rules, seeds, [a, b]);
  }

  lemma StepWithoutSuppliers(step: Step, results: map<string, StepResult>)
    requires step.artifactsFrom == []
    ensures StepHolds(step, results) <==> step.name in results && results[step.name].passed != []
  {
    if step.name in results && results[step.name].passed != [] {
      assert Acceptable(step, results[step.name].passed[0], results);
    }
  }

  ghost predicate FindsAll(p: Policy, rules: Rules, log: seq<Visit>)
    requires Known(p, log)
  {
    forall s :: s in p.steps ==> PassedIn(p, rules, log, s) != []
  }

  lemma ForwardsFindsBoth(st: Store, p: Policy, rules: Rules, seeds: seq<string>, a: string, b: string,
                          ea: CollectionEnvelope, eb: CollectionEnvelope, log: seq<Visit>)
    requires Chained(st, p, rules, seeds, a, b, ea, eb)
    requires IsRun(p, rules, StoreSearch(st), seeds, log) && Follows(log, [a, b])
    ensures PassedIn(p, rules, log, a) != [] && PassedIn(p, rules, log, b) != []
  {
    var search := StoreSearch(st);
    StoreSearchAnswers(st, p, rules, seeds, log);
    assert log[..0] == [];
    HitAtVisitIsListed(st, p, rules, search, seeds, log, 0, a, ea);
    LedOn(st, p, rules, seeds, b, ea, eb, log);
    HitAtVisitIsListed(st, p, rules, search, seeds, log, 1, b, eb);
  }

  /** What the first visit finds leads on to whatever its references lead to. */
  lemma LedOn(st: Store, p: Policy, rules: Rules, seeds: seq<string>, b: string, ea: CollectionEnvelope,
              eb: CollectionEnvelope, log: seq<Visit>)
    requires IsRun(p, rules, StoreSearch(st), seeds, log) && FromStore(st, p, log) && |log| >= 1
    requires Hit(st, p, rules, log[0].stepName, ea, Elements(seeds))
    requires b in p.steps && Hit(st, p, rules, b, eb, BackRefDigests(ea.collection))
    ensures Hit(st, p, rules, b, eb, DigestsAt(seeds, log, 1))
  {
    var y :| y in BackRefDigests(ea.collection) && y in SubjectDigests(eb);
    FirstAppends(st, p, rules, seeds, log, ea, y);
    DigestsStep(seeds, log, 0);
    assert y in DigestsAt(seeds, log, 1);
  }

  lemma FirstAppends(st: Store, p: Policy, rules: Rules, seeds: seq<string>, log: seq<Visit>, ea: CollectionEnvelope,
                     y: string)
    requires IsRun(p, rules, StoreSearch(st), seeds, log) && FromStore(st, p, log) && |log| >= 1
    requires Hit(st, p, rules, log[0].stepName, ea, Elements(seeds)) && y in BackRefDigests(ea.collection)
    ensures y in log[0].appended
  {
    assert log[..0] == [];
    AppendedAreReached(st, p, rules, StoreSearch(st), seeds, log, 0);
  }

  lemma ForwardsFindsAll(st: Store, p: Policy, rules: Rules, seeds: seq<string>, a: string, b: string,
                         ea: CollectionEnvelope, eb: CollectionEnvelope, log: seq<Visit>)
    requires Chained(st, p, rules, seeds, a, b, ea, eb)
    requires IsRun(p, rules, StoreSearch(st), seeds, log) && Follows(log, [a, b])
    ensures FindsAll(p, rules, log)
  {
    ForwardsFindsBoth(st, p, rules, seeds, a, b, ea, eb, log);
    BothAreAll(p, rules, log, a, b);
  }

  lemma BothAreAll(p: Policy, rules: Rules, log: seq<Visit>, a: string, b: string)
    requires Known(p, log) && p.steps.Keys == {a, b}
    requires PassedIn(p, rules, log, a) != [] && PassedIn(p, rules, log, b) != []
    ensures FindsAll(p, rules, log)
  {
    assert forall s :: s in p.steps <==> s in p.steps.Keys;
  }

  lemma BackwardsMissesOne(st: Store, p: Policy, rules: Rules, seeds: seq<string>, a: string, b: string,
                           ea: CollectionEnvelope, eb: CollectionEnvelope, log: seq<Visit>)
    requires Chained(st, p, rules, seeds, a, b, ea, eb)
    requires IsRun(p, rules, StoreSearch(st), seeds, log) && Follows(log, [b, a])
    ensures !FindsAll(p, rules, log)
  {
    StoreSearchAnswers(st, p, rules, seeds, log);
    assert b in p.steps;
    if PassedIn(p, rules, log, b) != [] {
      var c := PassedIn(p, rules, log, b)[0];
      PassedInMember(p, rules, log, b, c);
      var i :| 0 <= i < |log| && PassedBy(p, rules, log[i], b, c);
      assert Answered(st, p, log, 0) && VisitOk(p, rules, StoreSearch(st), seeds, log, 0);
      assert log[..0] == [];
      PassedIsHit(st, p, rules, log[0], c);
    }
  }

  /** A whole verification that ran as `t` says, with this verdict. */
  ghost predicate Verdicts(p: Policy, rules: Rules, search: Search, opts: VerifyOptions, t: Trace, pass: bool) {
    exists v: Verdict :: Explains(p, rules, search, opts, t, v) && v.pass == pass
  }

  /** The verdict of a whole run is whether every step holds against its results. */
  lemma VerdictIsWhetherAllHold(p: Policy, rules: Rules, search: Search, opts: VerifyOptions, t: Trace, pass: bool)
    requires WellFormed(p) && IsTrace(p, rules, search, opts, t) && Enumerates(t.order, p.steps.Keys)
    requires pass <==> forall s :: s in p.steps ==> StepHolds(p.steps[s], ResultsOf(p, rules, t.log))
    ensures Verdicts(p, rules, search, opts, t, pass)
  {
    VerdictIff(p, rules, search, opts, t);
    var pruned := Prune(p, t.order, ResultsOf(p, rules, t.log)).value;
    assert Explains(p, rules, search, opts, t, Verdict(AllPass(pruned), pruned, None));
  }

  /** When no step takes artifacts from another, a step holds if the search lists something for it. */
  lemma HoldsIffListed(p: Policy, rules: Rules, depth: nat, log: seq<Visit>)
    requires WellFormed(p) && Known(p, log) && Covers(p, depth, log) && depth >= 1
    requires forall s :: s in p.steps ==> p.steps[s].artifactsFrom == []
    ensures FindsAll(p, rules, log) <==> forall s :: s in p.steps ==> StepHolds(p.steps[s], ResultsOf(p, rules, log))
  {
    CoveredSteps(p, rules, depth, log);
    forall s | s in p.steps ensures StepHolds(p.steps[s], ResultsOf(p, rules, log)) <==> PassedIn(p, rules, log, s) != [] {
      MergeLosesNothing(p, rules, log, s);
      StepWithoutSuppliers(p.steps[s], ResultsOf(p, rules, log));
    }
  }

  /** Then a run has the verdict that says whether it lists something for every step. */
  lemma RunVerdict(st: Store, p: Policy, rules: Rules, opts: VerifyOptions, log: seq<Visit>, order: seq<string>)
    requires WellFormed(p) && opts.searchDepth >= 1 && Enumerates(order, p.steps.Keys)
    requires forall s :: s in p.steps ==> p.steps[s].artifactsFrom == []
    requires IsRun(p, rules, StoreSearch(st), opts.subjectDigests, log) && Covers(p, opts.searchDepth, log)
    ensures Verdicts(p, rules, StoreSearch(st), opts, Trace(log, order), FindsAll(p, rules, log))
  {
    forall i | 0 <= i < |order| ensures order[i] in p.steps {
      assert order[i] in Elements(order);
    }
    HoldsIffListed(p, rules, opts.searchDepth, log);
    VerdictIsWhetherAllHold(p, rules, StoreSearch(st), opts, Trace(log, order), FindsAll(p, rules, log));
  }

  lemma OneRoundVerdict(st: Store, p: Policy, rules: Rules, opts: VerifyOptions, log: seq<Visit>, order: seq<string>)
    requires WellFormed(p) && opts.searchDepth == 1 && Enumerates(order, p.steps.Keys)
    requires forall s :: s in p.steps ==> p.steps[s].artifactsFrom == []
    requires IsRun(p, rules, StoreSearch(st), opts.subjectDigests, log) && Follows(log, order)
    ensures Verdicts(p, rules, StoreSearch(st), opts, Trace(log, order), FindsAll(p, rules, log))
  {
    FollowsCovers(p, log, order);
    RunVerdict(st, p, rules, opts, log, order);
  }

  /**
   * With a search depth of one, the order in which Go happens to range over the steps decides the verdict of such a
   * policy: both verdicts are possible against the same store.
   */
  lemma OneRoundDependsOnOrder(st: Store, p: Policy, rules: Rules, opts: VerifyOptions, a: string, b: string,
                               ea: CollectionEnvelope, eb: CollectionEnvelope) returns (t1: Trace, t2: Trace)
    requires WellFormed(p) && opts.searchDepth == 1 && Chained(st, p, rules, opts.subjectDigests, a, b, ea, eb)
    ensures Verdicts(p, rules, StoreSearch(st), opts, t1, true)
    ensures Verdicts(p, rules, StoreSearch(st), opts, t2, false)
  {
    t1 := OnceForwards(st, p, rules, opts, a, b, ea, eb);
    t2 := OnceBackwards(st, p, rules, opts, a, b, ea, eb);
  }

  lemma OnceForwards(st: Store, p: Policy, rules: Rules, opts: VerifyOptions, a: string, b: string,
                     ea: CollectionEnvelope, eb: CollectionEnvelope) returns (t: Trace)
    requires WellFormed(p) && opts.searchDepth == 1 && Chained(st, p, rules, opts.subjectDigests, a, b, ea, eb)
    ensures Verdicts(p, rules, StoreSearch(st), opts, t, true)
  {
    var order := [a, b];
    var log := RoundOfTwo(st, p, rules, opts.subjectDigests, a, b);
    t := Trace(log, order);
    ForwardsPasses(st, p, rules, opts, a, b, ea, eb, log, order);
  }

  lemma ForwardsPasses(st: Store, p: Policy, rules: Rules, opts: VerifyOptions, a: string, b: string,
                       ea: CollectionEnvelope, eb: CollectionEnvelope, log: seq<Visit>, order: seq<string>)
    requires WellFormed(p) && opts.searchDepth == 1 && Chained(st, p, rules, opts.subjectDigests, a, b, ea, eb)
    requires order == [a, b]
    requires IsRun(p, rules, StoreSearch(st), opts.subjectDigests, log) && Follows(log, order)
    ensures Verdicts(p, rules, StoreSearch(st), opts, Trace(log, order), true)
  {
    ForwardsFindsAll(st, p, rules, opts.subjectDigests, a, b, ea, eb, log);
    OneRoundVerdict(st, p, rules, opts, log, order);
  }

  lemma OnceBackwards(st: Store, p: Policy, rules: Rules, opts: VerifyOptions, a: string, b: string,
                      ea: CollectionEnvelope, eb: CollectionEnvelope) returns (t: Trace)
    requires WellFormed(p) && opts.searchDepth == 1 && Chained(st, p, rules, opts.subjectDigests, a, b, ea, eb)
    ensures Verdicts(p, rules, StoreSearch(st), opts, t, false)
  {
    var order := [b, a];
    var log := RoundOfTwo(st, p, rules, opts.subjectDigests, b, a);
    t := Trace(log, order);
    BackwardsFails(st, p, rules, opts, a, b, ea, eb, log, order);
  }

  lemma BackwardsFails(st: Store, p: Policy, rules: Rules, opts: VerifyOptions, a: string, b: string,
                       ea: CollectionEnvelope, eb: CollectionEnvelope, log: seq<Visit>, order: seq<string>)
    requires WellFormed(p) && opts.searchDepth == 1 && Chained(st, p, rules, opts.subjectDigests, a, b, ea, eb)
    requires order == [b, a]
    requires IsRun(p, rules, StoreSearch(st), opts.subjectDigests, log) && Follows(log, order)
    ensures Verdicts(p, rules, StoreSearch(st), opts, Trace(log, order), false)
  {
    BackwardsMissesOne(st, p, rules, opts.subjectDigests, a, b, ea, eb, log);
    OneRoundVerdict(st, p, rules, opts, log, order);
  }
}
