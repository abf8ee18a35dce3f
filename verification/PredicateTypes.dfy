// What the predicate type of a statement decides: an entry among the rejected, and nothing else.
module PredicateTypes {
  import opened Options
  import opened Collections
  import opened Envelopes
  import opened Sources
  import opened Steps
  import opened PolicyEngine
  import opened Soundness
  import opened BackRefSearch
  import opened VerdictOrder
  import opened OrderExamples

  /** The same result with its statement of another predicate type. */
  function Retyped(typ: string, r: CollectionResult): CollectionResult {
    r.(env := r.env.(statement := r.env.statement.(predicateType := typ)))
  }

  function RetypedAll(typ: string, rs: seq<CollectionResult>): seq<CollectionResult> {
    seq(|rs|, i requires 0 <= i < |rs| => Retyped(typ, rs[i]))
  }

  function RetypedSearch(typ: string, search: Search): Search {
    (n: nat, name: string, digests: seq<string>, types: seq<string>) =>
      match search(n, name, digests, types)
      case None => None
      case Some(reply) => Some(RetypedAll(typ, reply))
  }

  function RetypedLog(typ: string, log: seq<Visit>): seq<Visit> {
    seq(|log|, i requires 0 <= i < |log| => log[i].(reply := RetypedAll(typ, log[i].reply)))
  }

  function RetypedTrace(typ: string, t: Trace): Trace {
    t.(log := RetypedLog(typ, t.log))
  }

  // ---- the filters ----------------------------------------------------------------------------

  lemma RetypedFront(typ: string, rs: seq<CollectionResult>)
    requires rs != []
    ensures
      var front, last := rs[..|rs| - 1], rs[|rs| - 1];
      RetypedAll(typ, rs) == RetypedAll(typ, front) + [Retyped(typ, last)]
  {
  }

  lemma SettledRetyped(rules: Rules, step: Step, typ: string, s: CollectionResult)
    ensures Admitted(rules, step, Retyped(typ, s)) <==> Admitted(rules, step, s)
    ensures Settled(rules, step, Retyped(typ, s)) == Retyped(typ, Settled(rules, step, s))
  {
  }

  lemma {:induction false} FunctionaryPassedRetyped(rules: Rules, step: Step, typ: string, ss: seq<CollectionResult>)
    ensures FunctionaryPassed(rules, step, RetypedAll(typ, ss)) == RetypedAll(typ, FunctionaryPassed(rules, step, ss))
  {
    if ss != [] {
      var front, last := ss[..|ss| - 1], ss[|ss| - 1];
      FunctionaryPassedRetyped(rules, step, typ, front);
      SettledRetyped(rules, step, typ, last);
      RetypedFront(typ, ss);
      assert RetypedAll(typ, ss)[..|ss| - 1] == RetypedAll(typ, front);
    }
  }

  lemma {:induction false} ValidationPassedRetyped(rules: Rules, step: Step, typ: string, rs: seq<CollectionResult>)
    ensures ValidationPassed(rules, step, RetypedAll(typ, rs)) == RetypedAll(typ, ValidationPassed(rules, step, rs))
  {
    if rs != [] {
      var front, last := rs[..|rs| - 1], rs[|rs| - 1];
      ValidationPassedRetyped(rules, step, typ, front);
      RetypedFront(typ, rs);
      assert RetypedAll(typ, rs)[..|rs| - 1] == RetypedAll(typ, front);
      assert FailuresOf(rules, step, Retyped(typ, last)) == FailuresOf(rules, step, last);
    }
  }

  /** The same collections pass, whatever predicate type their statements are of. */
  lemma PassedRetyped(rules: Rules, step: Step, typ: string, reply: seq<CollectionResult>)
    ensures OutcomeOf(rules, step, RetypedAll(typ, reply)).passed == RetypedAll(typ, OutcomeOf(rules, step, reply).passed)
  {
    if reply == [] {
      NothingPasses(rules, step);
    } else {
      FunctionaryPassedRetyped(rules, step, typ, reply);
      ValidationPassedRetyped(rules, step, typ, FunctionaryPassed(rules, step, reply));
    }
  }

  lemma NothingPasses(rules: Rules, step: Step)
    ensures OutcomeOf(rules, step, []).passed == []
  {
    assert [NOTHING_FOUND][..0] == [];
    assert !Admitted(rules, step, NOTHING_FOUND);
    assert FunctionaryPassed(rules, step, [NOTHING_FOUND]) == FunctionaryPassed(rules, step, [NOTHING_FOUND][..0]);
  }

  /**
   * All that pass are of the collection type if and only if no statement of another type meets the conditions for passing:
   * the check of the type keeps none of those out.
   */
  lemma PassedHaveTypeIff(rules: Rules, step: Step, reply: seq<CollectionResult>)
    ensures (forall c :: c in OutcomeOf(rules, step, reply).passed ==> c.env.statement.predicateType == COLLECTION_TYPE) <==>
            (forall s :: s in reply && s.env.statement.predicateType != COLLECTION_TYPE ==>
               !CameFrom(rules, step, s, Settled(rules, step, s)))
  {
    OutcomePassedMembers(rules, step, reply);
    forall s | s in reply && CameFrom(rules, step, s, Settled(rules, step, s))
      ensures Settled(rules, step, s) in OutcomeOf(rules, step, reply).passed
      ensures Settled(rules, step, s).env == s.env
    {
    }
  }

  // ---- whole verifications --------------------------------------------------------------------

  lemma {:induction false} BackReferencedRetyped(typ: string, passed: seq<CollectionResult>)
    ensures BackReferenced(RetypedAll(typ, passed)) == BackReferenced(passed)
  {
    if passed != [] {
      BackReferencedRetyped(typ, passed[..|passed| - 1]);
      assert RetypedAll(typ, passed)[..|passed| - 1] == RetypedAll(typ, passed[..|passed| - 1]);
    }
  }

  lemma {:induction false} DigestsRetyped(seeds: seq<string>, typ: string, log: seq<Visit>)
    ensures DigestsAfter(seeds, RetypedLog(typ, log)) == DigestsAfter(seeds, log)
  {
    if log != [] {
      DigestsRetyped(seeds, typ, log[..|log| - 1]);
      assert RetypedLog(typ, log)[..|log| - 1] == RetypedLog(typ, log[..|log| - 1]);
    }
  }

  lemma VisitRetyped(p: Policy, rules: Rules, search: Search, seeds: seq<string>, typ: string, log: seq<Visit>, i: nat)
    requires i < |log| && VisitOk(p, rules, search, seeds, log, i)
    ensures VisitOk(p, rules, RetypedSearch(typ, search), seeds, RetypedLog(typ, log), i)
  {
    assert RetypedLog(typ, log)[..i] == RetypedLog(typ, log[..i]);
    DigestsRetyped(seeds, typ, log[..i]);
    var step := p.steps[log[i].stepName];
    PassedRetyped(rules, step, typ, log[i].reply);
    BackReferencedRetyped(typ, OutcomeOf(rules, step, log[i].reply).passed);
  }

  lemma TraceRetyped(p: Policy, rules: Rules, search: Search, opts: VerifyOptions, typ: string, t: Trace)
    requires IsTrace(p, rules, search, opts, t)
    ensures IsTrace(p, rules, RetypedSearch(typ, search), opts, RetypedTrace(typ, t))
  {
    var log := RetypedLog(typ, t.log);
    forall i | 0 <= i < |log| ensures VisitOk(p, rules, RetypedSearch(typ, search), opts.subjectDigests, log, i) {
      VisitRetyped(p, rules, search, opts.subjectDigests, typ, t.log, i);
    }
    CoversRetyped(p, opts.searchDepth, typ, t.log);
  }

  lemma CoversRetyped(p: Policy, depth: nat, typ: string, log: seq<Visit>)
    requires Covers(p, depth, log)
    ensures Covers(p, depth, RetypedLog(typ, log))
  {
    forall d, s | 0 <= d < depth && s in p.steps ensures Visited(RetypedLog(typ, log), d, s) {
      assert Visited(log, d, s);
      var i :| 0 <= i < |log| && log[i].round == d && log[i].stepName == s;
      assert RetypedLog(typ, log)[i].stepName == s;
    }
  }

  lemma {:induction false} PassedInRetyped(p: Policy, rules: Rules, typ: string, log: seq<Visit>, s: string)
    requires Known(p, log)
    ensures Known(p, RetypedLog(typ, log))
    ensures PassedIn(p, rules, RetypedLog(typ, log), s) == RetypedAll(typ, PassedIn(p, rules, log, s))
  {
    if log != [] {
      var front, last := log[..|log| - 1], log[|log| - 1];
      PassedInRetyped(p, rules, typ, front, s);
      assert RetypedLog(typ, log)[..|log| - 1] == RetypedLog(typ, front);
      var here := OutcomeOf(rules, p.steps[last.stepName], last.reply).passed;
      PassedRetyped(rules, p.steps[last.stepName], typ, last.reply);
      RetypedAppend(typ, PassedIn(p, rules, front, s), here);
    }
  }

  lemma RetypedAppend(typ: string, a: seq<CollectionResult>, b: seq<CollectionResult>)
    ensures RetypedAll(typ, a + b) == RetypedAll(typ, a) + RetypedAll(typ, b)
  {
  }

  /** The step results hold the same collections, up to their statements' types. */
  ghost predicate AlikeUpToType(typ: string, results: map<string, StepResult>, retyped: map<string, StepResult>) {
    && retyped.Keys == results.Keys
    && (forall s :: s in results ==> retyped[s].passed == RetypedAll(typ, results[s].passed))
  }

  lemma ResultsRetyped(p: Policy, rules: Rules, depth: nat, typ: string, log: seq<Visit>)
    requires WellFormed(p) && Known(p, log) && Covers(p, depth, log) && depth >= 1
    ensures Known(p, RetypedLog(typ, log))
    ensures AlikeUpToType(typ, ResultsOf(p, rules, log), ResultsOf(p, rules, RetypedLog(typ, log)))
  {
    assert Known(p, RetypedLog(typ, log));
    CoversRetyped(p, depth, typ, log);
    CoveredSteps(p, rules, depth, log);
    CoveredSteps(p, rules, depth, RetypedLog(typ, log));
    forall s | s in p.steps
      ensures ResultsOf(p, rules, RetypedLog(typ, log))[s].passed == RetypedAll(typ, ResultsOf(p, rules, log)[s].passed)
    {
      MergeLosesNothing(p, rules, log, s);
      MergeLosesNothing(p, rules, RetypedLog(typ, log), s);
      PassedInRetyped(p, rules, typ, log, s);
    }
  }

  lemma AcceptableRetyped(step: Step, typ: string, results: map<string, StepResult>, retyped: map<string, StepResult>,
                          c: CollectionResult)
    requires AlikeUpToType(typ, results, retyped)
    ensures Acceptable(step, Retyped(typ, c), retyped) <==> Acceptable(step, c, results)
  {
    var mats := MaterialsOf(c.env.collection.attestations);
    forall from ensures FirstAgrees(mats, from, retyped) <==> FirstAgrees(mats, from, results) {
    }
  }

  lemma StepHoldsRetyped(step: Step, typ: string, results: map<string, StepResult>, retyped: map<string, StepResult>)
    requires AlikeUpToType(typ, results, retyped)
    ensures StepHolds(step, retyped) <==> StepHolds(step, results)
  {
    if step.name in results {
      var passed := results[step.name].passed;
      forall i | 0 <= i < |passed|
        ensures Acceptable(step, retyped[step.name].passed[i], retyped) <==> Acceptable(step, passed[i], results)
      {
        AcceptableRetyped(step, typ, results, retyped, passed[i]);
      }
    }
  }

  /** A verification comes to the same verdict when every statement is of another predicate type. */
  lemma VerdictIgnoresTypes(p: Policy, rules: Rules, search: Search, opts: VerifyOptions, t: Trace, pass: bool, typ: string)
    requires WellFormed(p) && IsTrace(p, rules, search, opts, t) && Enumerates(t.order, p.steps.Keys)
    ensures Verdicts(p, rules, search, opts, t, pass) <==>
            Verdicts(p, rules, RetypedSearch(typ, search), opts, RetypedTrace(typ, t), pass)
  {
    TraceRetyped(p, rules, search, opts, typ, t);
    ResultsRetyped(p, rules, opts.searchDepth, typ, t.log);
    var results, retyped := ResultsOf(p, rules, t.log), ResultsOf(p, rules, RetypedLog(typ, t.log));
    forall s | s in p.steps ensures StepHolds(p.steps[s], retyped) <==> StepHolds(p.steps[s], results) {
      StepHoldsRetyped(p.steps[s], typ, results, retyped);
    }
    VerdictIsOneOf(p, rules, search, opts, t, pass);
    VerdictIsOneOf(p, rules, RetypedSearch(typ, search), opts, RetypedTrace(typ, t), pass);
  }

  lemma VerdictIsOneOf(p: Policy, rules: Rules, search: Search, opts: VerifyOptions, t: Trace, pass: bool)
    requires WellFormed(p) && IsTrace(p, rules, search, opts, t) && Enumerates(t.order, p.steps.Keys)
    ensures Verdicts(p, rules, search, opts, t, pass) <==>
            (pass <==> forall s :: s in p.steps ==> StepHolds(p.steps[s], ResultsOf(p, rules, t.log)))
  {
    VerdictIff(p, rules, search, opts, t);
    if pass <==> forall s :: s in p.steps ==> StepHolds(p.steps[s], ResultsOf(p, rules, t.log)) {
      VerdictIsWhetherAllHold(p, rules, search, opts, t, pass);
    }
  }

  // ---- a verdict that rests on another type ---------------------------------------------------

  const OTHER_TYPE: string := "t"

  const ONE_STEP: Policy := Policy(false, Some(map[]), map["a" := PlainStep("a", [])])

  /** A signed collection about digest "x" in a statement that is not of the collection type. */
  function Mistyped(): CollectionEnvelope {
    var ce := SignedBy("a", "x", []);
    ce.(statement := ce.statement.(predicateType := OTHER_TYPE))
  }

  function MistypedStore(crypto: Crypto): Store {
    Store(crypto, ONE_KEY, [Mistyped()])
  }

  lemma MistypedIsHit(crypto: Crypto, rules: Rules)
    requires KeyAcceptsAll(crypto)
    ensures Hit(MistypedStore(crypto), ONE_STEP, rules, "a", Mistyped(), Elements(["x"]))
  {
    assert Mistyped().statement.subjects[0].digest["sha256"] == "x";
    assert "x" in SubjectDigests(Mistyped()) && "x" in Elements(["x"]);
    SignedQualifies(MistypedStore(crypto), ONE_STEP, rules, "a", [], Mistyped());
    assert MistypedStore(crypto).loads[0] == Mistyped();
  }

  lemma MistypedIsFound(crypto: Crypto, rules: Rules) returns (log: seq<Visit>)
    requires KeyAcceptsAll(crypto)
    ensures IsRun(ONE_STEP, rules, StoreSearch(MistypedStore(crypto)), ["x"], log) && Covers(ONE_STEP, 1, log)
    ensures FindsAll(ONE_STEP, rules, log)
  {
    var st := MistypedStore(crypto);
    log := RoundInOrder(st, ONE_STEP, rules, ["x"], ["a"]);
    assert Elements(["a"]) == ONE_STEP.steps.Keys;
    FollowsCovers(ONE_STEP, log, ["a"]);
    StoreSearchAnswers(st, ONE_STEP, rules, ["x"], log);
    MistypedIsHit(crypto, rules);
    assert log[..0] == [];
    HitAtVisitIsListed(st, ONE_STEP, rules, StoreSearch(st), ["x"], log, 0, "a", Mistyped());
  }

  lemma OnlyMistypedIsListed(crypto: Crypto, rules: Rules, log: seq<Visit>, c: CollectionResult)
    requires IsRun(ONE_STEP, rules, StoreSearch(MistypedStore(crypto)), ["x"], log)
    requires c in PassedIn(ONE_STEP, rules, log, "a")
    ensures c.env == Mistyped()
  {
    var st := MistypedStore(crypto);
    StoreSearchAnswers(st, ONE_STEP, rules, ["x"], log);
    PassedInMember(ONE_STEP, rules, log, "a", c);
    var i :| 0 <= i < |log| && PassedBy(ONE_STEP, rules, log[i], "a", c);
    assert Answered(st, ONE_STEP, log, i);
    PassedIsHit(st, ONE_STEP, rules, log[i], c);
  }

  /** A positive verdict all of whose collections are in statements of another type. */
  lemma VerdictCanRestOnOtherType(crypto: Crypto, rules: Rules, opts: VerifyOptions) returns (t: Trace, v: Verdict)
    requires KeyAcceptsAll(crypto) && opts.searchDepth == 1 && opts.subjectDigests == ["x"]
    ensures Explains(ONE_STEP, rules, StoreSearch(MistypedStore(crypto)), opts, t, v) && v.pass
    ensures v.results.Keys == {"a"} && v.results["a"].passed != []
    ensures forall c :: c in v.results["a"].passed ==> c.env.statement.predicateType != COLLECTION_TYPE
  {
    var search := StoreSearch(MistypedStore(crypto));
    assert |"a"| == 1 && ONE_STEP.steps["a"].name == "a" && WellFormed(ONE_STEP);
    assert Elements(["a"]) == ONE_STEP.steps.Keys == {"a"};
    var log := MistypedIsFound(crypto, rules);
    t := Trace(log, ["a"]);
    RunVerdict(MistypedStore(crypto), ONE_STEP, rules, opts, log, ["a"]);
    v :| Explains(ONE_STEP, rules, search, opts, t, v) && v.pass;
    VerdictIff(ONE_STEP, rules, search, opts, t);
    MergeLosesNothing(ONE_STEP, rules, log, "a");
    forall c | c in v.results["a"].passed ensures c.env.statement.predicateType != COLLECTION_TYPE {
      OnlyMistypedIsListed(crypto, rules, log, c);
      assert |COLLECTION_TYPE| > |OTHER_TYPE|;
    }
  }
}
