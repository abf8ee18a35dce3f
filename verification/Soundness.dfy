// What a positive verdict of policy verification guarantees, and exactly when it is given.
module Soundness {
  import opened Options
  import opened Envelopes
  import opened Thresholds
  import opened Sources
  import opened Steps
  import opened StepTheorems
  import opened PolicyEngine
  import opened Pruning

  // ---- the results are the sum of the visits --------------------------------------------------

  ghost function PassedIn(p: Policy, rules: Rules, log: seq<Visit>, s: string): seq<CollectionResult>
    requires Known(p, log)
  {
    if log == [] then [] else
    var front, last := PassedIn(p, rules, log[..|log| - 1], s), log[|log| - 1];
    if last.stepName == s then front + OutcomeOf(rules, p.steps[s], last.reply).passed else front
  }

  ghost function RejectedIn(p: Policy, rules: Rules, log: seq<Visit>, s: string): seq<RejectedCollection>
    requires Known(p, log)
  {
    if log == [] then [] else
    var front, last := RejectedIn(p, rules, log[..|log| - 1], s), log[|log| - 1];
    if last.stepName == s then front + OutcomeOf(rules, p.steps[s], last.reply).rejected else front
  }

  /** Merging over all rounds loses nothing: a step's lists are its visits' lists, end to end. */
  lemma {:induction false} MergeLosesNothing(p: Policy, rules: Rules, log: seq<Visit>, s: string)
    requires WellFormed(p) && Known(p, log)
    ensures s in ResultsOf(p, rules, log) <==> exists i :: 0 <= i < |log| && log[i].stepName == s
    ensures s in ResultsOf(p, rules, log) ==>
      ResultsOf(p, rules, log)[s] == StepResult(s, PassedIn(p, rules, log, s), RejectedIn(p, rules, log, s))
  {
    ResultIffVisited(p, rules, log, s);
    if log != [] {
      var front := log[..|log| - 1];
      MergeLosesNothing(p, rules, front, s);
      if s !in ResultsOf(p, rules, front) {
        PassedInUnvisited(p, rules, front, s);
      }
    }
  }

  lemma {:induction false} ResultIffVisited(p: Policy, rules: Rules, log: seq<Visit>, s: string)
    requires Known(p, log)
    ensures s in ResultsOf(p, rules, log) <==> exists i :: 0 <= i < |log| && log[i].stepName == s
  {
    if log != [] {
      var front, last := log[..|log| - 1], log[|log| - 1];
      ResultIffVisited(p, rules, front, s);
      assert log == front + [last];
      if s in ResultsOf(p, rules, front) {
        var i :| 0 <= i < |front| && front[i].stepName == s;
        assert log[i].stepName == s;
      }
    }
  }

  lemma {:induction false} PassedInUnvisited(p: Policy, rules: Rules, log: seq<Visit>, s: string)
    requires Known(p, log) && forall i :: 0 <= i < |log| ==> log[i].stepName != s
    ensures PassedIn(p, rules, log, s) == [] && RejectedIn(p, rules, log, s) == []
  {
    if log != [] {
      PassedInUnvisited(p, rules, log[..|log| - 1], s);
    }
  }

  /** Visit `v`, made for step `s`, passed the collection. */
  ghost predicate PassedBy(p: Policy, rules: Rules, v: Visit, s: string, c: CollectionResult)
    requires v.stepName in p.steps
  {
    v.stepName == s && c in OutcomeOf(rules, p.steps[s], v.reply).passed
  }

  lemma PassedInLast(p: Policy, rules: Rules, log: seq<Visit>, s: string, c: CollectionResult)
    requires log != [] && Known(p, log)
    ensures c in PassedIn(p, rules, log, s) <==>
      c in PassedIn(p, rules, log[..|log| - 1], s) || PassedBy(p, rules, log[|log| - 1], s, c)
  {
  }

  lemma {:induction false} PassedInMember(p: Policy, rules: Rules, log: seq<Visit>, s: string, c: CollectionResult)
    requires Known(p, log)
    ensures c in PassedIn(p, rules, log, s) <==> exists i :: 0 <= i < |log| && PassedBy(p, rules, log[i], s, c)
  {
    if log != [] {
      var front, last := log[..|log| - 1], |log| - 1;
      PassedInMember(p, rules, front, s, c);
      PassedInLast(p, rules, log, s, c);
      if i :| 0 <= i < |front| && PassedBy(p, rules, front[i], s, c) {
        assert PassedBy(p, rules, log[i], s, c);
      }
      if i :| 0 <= i < |log| && PassedBy(p, rules, log[i], s, c) {
        assert i < last ==> PassedBy(p, rules, front[i], s, c);
      }
    }
  }

  lemma PassedInMembers(p: Policy, rules: Rules, log: seq<Visit>, s: string)
    requires Known(p, log)
    ensures forall c :: c in PassedIn(p, rules, log, s) <==>
      exists i :: 0 <= i < |log| && PassedBy(p, rules, log[i], s, c)
  {
    forall c ensures c in PassedIn(p, rules, log, s) <==> exists i :: 0 <= i < |log| && PassedBy(p, rules, log[i], s, c) {
      PassedInMember(p, rules, log, s, c);
    }
  }

  lemma CoveredSteps(p: Policy, rules: Rules, depth: nat, log: seq<Visit>)
    requires WellFormed(p) && Known(p, log) && Covers(p, depth, log) && depth >= 1
    ensures ResultsOf(p, rules, log).Keys == p.steps.Keys
  {
    forall s ensures s in ResultsOf(p, rules, log) <==> s in p.steps {
      MergeLosesNothing(p, rules, log, s);
      if s in p.steps {
        assert Visited(log, 0, s);
        var i :| 0 <= i < |log| && log[i].round == 0 && log[i].stepName == s;
      }
    }
  }

  // ---- what has passed ------------------------------------------------------------------------

  /** Statement `s`, as some search returned it, became the passed collection `c`. */
  ghost predicate CameFrom(rules: Rules, step: Step, s: CollectionResult, c: CollectionResult) {
    && Admitted(rules, step, s) && c == Settled(rules, step, s)
    && c.env.collection.name in {step.name, ""} && Complete(rules, step, c)
  }

  lemma OutcomePassedMembers(rules: Rules, step: Step, reply: seq<CollectionResult>)
    ensures forall c :: c in OutcomeOf(rules, step, reply).passed <==>
      exists s :: s in reply && CameFrom(rules, step, s, c)
  {
    FunctionaryPassedMembers(rules, step, Statements(reply));
    ValidationPassedMembers(rules, step, FunctionaryPassed(rules, step, Statements(reply)));
    forall c ensures c in OutcomeOf(rules, step, reply).passed <==> exists s :: s in reply && CameFrom(rules, step, s, c) {
      if c in OutcomeOf(rules, step, reply).passed {
        var s :| s in Statements(reply) && Admitted(rules, step, s) && c == Settled(rules, step, s);
        assert s in reply && CameFrom(rules, step, s, c);
      }
      if s :| s in reply && CameFrom(rules, step, s, c) {
        assert s in Statements(reply) && Admitted(rules, step, s) && c == Settled(rules, step, s);
      }
    }
  }

  /** What one visit rejects: what the functionary check turns down, and what it lets through and is not complete. */
  lemma OutcomeRejectedMembers(rules: Rules, step: Step, reply: seq<CollectionResult>)
    requires reply != []
    ensures forall x :: x in OutcomeOf(rules, step, reply).rejected <==> exists s :: s in reply && Rejects(rules, step, s, x)
  {
    FunctionaryRejectedMembers(rules, step, reply);
    FunctionaryPassedMembers(rules, step, reply);
    ValidationRejectedMembers(rules, step, FunctionaryPassed(rules, step, reply));
    forall x ensures x in OutcomeOf(rules, step, reply).rejected <==> exists s :: s in reply && Rejects(rules, step, s, x) {
      if c :| c in FunctionaryPassed(rules, step, reply) && IsRejected(rules, step, c, x) {
        var s :| s in reply && Admitted(rules, step, s) && c == Settled(rules, step, s);
        assert Rejects(rules, step, s, x);
      }
      if s :| s in reply && IsTurnedDown(rules, step, s, x) {
        assert Rejects(rules, step, s, x);
      }
    }
  }

  ghost predicate Rejects(rules: Rules, step: Step, s: CollectionResult, x: RejectedCollection) {
    || IsTurnedDown(rules, step, s, x)
    || (Admitted(rules, step, s) && IsRejected(rules, step, Settled(rules, step, s), x))
  }

  /** A search that finds nothing leaves one rejection, of a statement that nobody vouches for. */
  lemma NothingFoundIsRejected(rules: Rules, step: Step)
    ensures
      var r := OutcomeOf(rules, step, []);
      && r.step == step.name && r.passed == []
      && (forall x :: x in r.rejected ==>
            x.collection.Some? && x.collection.value.verifiers == [] && x.collection.value.errors == [NoCollections])
      && (exists x :: x in r.rejected && x.reason == NoVerifiers)
  {
    FunctionaryPassedMembers(rules, step, [NOTHING_FOUND]);
    FunctionaryRejectedMembers(rules, step, [NOTHING_FOUND]);
    assert FunctionaryPassed(rules, step, [NOTHING_FOUND]) == [];
    assert IsTurnedDown(rules, step, NOTHING_FOUND, RejectedCollection(Some(NOTHING_FOUND), NoVerifiers));
  }

  /** The `i`th search, made for step `s`, returned a statement that became `c`. */
  ghost predicate FoundAt(p: Policy, rules: Rules, log: seq<Visit>, i: nat, s: string, c: CollectionResult) {
    && i < |log| && log[i].stepName == s && s in p.steps
    && (exists statement :: statement in log[i].reply && CameFrom(rules, p.steps[s], statement, c))
  }

  /** Every listed collection was returned by a search for its step, signed for it, complete, and free of errors. */
  lemma PassedAreFound(p: Policy, rules: Rules, search: Search, seeds: seq<string>, log: seq<Visit>, s: string)
    requires WellFormed(p) && IsRun(p, rules, search, seeds, log) && s in ResultsOf(p, rules, log)
    ensures forall c :: c in ResultsOf(p, rules, log)[s].passed <==> exists i: nat :: FoundAt(p, rules, log, i, s, c)
    ensures forall c :: c in ResultsOf(p, rules, log)[s].passed ==> c.errors == []
  {
    MergeLosesNothing(p, rules, log, s);
    PassedInMembers(p, rules, log, s);
    assert s in p.steps;
    forall i | 0 <= i < |log| && log[i].stepName == s
      ensures forall c :: c in OutcomeOf(rules, p.steps[s], log[i].reply).passed <==> FoundAt(p, rules, log, i, s, c)
    {
      OutcomePassedMembers(rules, p.steps[s], log[i].reply);
    }
  }

  // ---- the verdict ----------------------------------------------------------------------------

  /**
   * Verification of a well-formed policy never fails for want of a step result. Its verdict is positive exactly when each
   * step has a listed collection that is acceptable against the results of the search, whatever order pruning takes;
   * the results are then returned as the search left them. Since no passed collection carries an error, analysing a
   * result comes to asking whether anything is left in it.
   */
  lemma VerdictIff(p: Policy, rules: Rules, search: Search, opts: VerifyOptions, trace: Trace)
    requires WellFormed(p) && IsTrace(p, rules, search, opts, trace) && Enumerates(trace.order, p.steps.Keys)
    ensures ResultsOf(p, rules, trace.log).Keys == p.steps.Keys
    ensures Prune(p, trace.order, ResultsOf(p, rules, trace.log)).Some?
    ensures
      var found := ResultsOf(p, rules, trace.log);
      var pruned := Prune(p, trace.order, found).value;
      && (AllPass(pruned) <==> forall s :: s in p.steps ==> StepHolds(p.steps[s], found))
      && (AllPass(pruned) <==> forall k :: k in pruned ==> pruned[k].passed != [])
      && (AllPass(pruned) ==> pruned == found)
  {
    var found := ResultsOf(p, rules, trace.log);
    CoveredSteps(p, rules, opts.searchDepth, trace.log);
    PruneVerdict(p, trace.order, found);
    var pruned := Pruned(p, trace.order, found);
    forall k, i | k in pruned && 0 <= i < |pruned[k].passed| ensures pruned[k].passed[i].errors == [] {
      PassedAreFound(p, rules, search, opts.subjectDigests, trace.log, k);
      assert pruned[k].passed[i] in found[k].passed;
    }
  }

  /** Whatever stops a well-formed policy's verification after the option checks, it is not a step without a result. */
  lemma NoStepResultIsMissing(p: Policy, rules: Rules, search: Search, opts: VerifyOptions, trace: Trace)
    requires WellFormed(p) && IsTrace(p, rules, search, opts, trace)
    ensures Prune(p, trace.order, ResultsOf(p, rules, trace.log)).Some?
  {
    CoveredSteps(p, rules, opts.searchDepth, trace.log);
    PruneShrinks(p, trace.order, ResultsOf(p, rules, trace.log));
  }

  /** Without any match, a statement could only get through if its source had filled in functionaries beforehand. */
  ghost predicate NoPriorFunctionaries(log: seq<Visit>) {
    forall i, s :: 0 <= i < |log| && s in log[i].reply ==> s.validFunctionaries == []
  }

  /** Everything a passed collection stands for. */
  ghost predicate Trusted(rules: Rules, step: Step, c: CollectionResult) {
    && c.errors == []
    && c.env.collection.name in {step.name, ""}
    && SignedForStep(rules, step, c)
    && Complete(rules, step, c)
  }

  /** Collection `c` stands for step `s` in the returned results. */
  ghost predicate Represents(p: Policy, rules: Rules, log: seq<Visit>, results: map<string, StepResult>, s: string,
                             c: CollectionResult)
    requires s in p.steps
  {
    && s in results && c in results[s].passed
    && Trusted(rules, p.steps[s], c)
    && (exists i: nat :: FoundAt(p, rules, log, i, s, c))
    && Acceptable(p.steps[s], c, results)
  }

  /**
   * End to end: behind a positive verdict stands, for every step, a returned collection that some search produced for
   * the step, signed by one of its functionaries, complete, and with materials that agree with the first collection
   * returned for every step it takes artifacts from.
   */
  lemma PositiveVerdictIsSound(p: Policy, rules: Rules, search: Search, opts: VerifyOptions, trace: Trace, v: Verdict)
    requires WellFormed(p) && Explains(p, rules, search, opts, trace, v) && v.pass
    requires NoPriorFunctionaries(trace.log)
    ensures forall s :: s in p.steps ==> exists c :: Represents(p, rules, trace.log, v.results, s, c)
  {
    VerdictIff(p, rules, search, opts, trace);
    forall s | s in p.steps ensures exists c :: Represents(p, rules, trace.log, v.results, s, c) {
      assert StepHolds(p.steps[s], v.results);
      var i :| 0 <= i < |v.results[s].passed| && Acceptable(p.steps[s], v.results[s].passed[i], v.results);
      var c := v.results[s].passed[i];
      PassedAreFound(p, rules, search, opts.subjectDigests, trace.log, s);
      assert c in ResultsOf(p, rules, trace.log)[s].passed;
      var k: nat :| FoundAt(p, rules, trace.log, k, s, c);
      var statement :| statement in trace.log[k].reply && CameFrom(rules, p.steps[s], statement, c);
      AdmittedIff(rules, p.steps[s], statement);
      assert SignedForStep(rules, p.steps[s], statement);
      var j :| 0 <= j < |statement.verifiers| && MatchesSome(rules, p.steps[s].functionaries, statement.verifiers[j]);
      assert c.verifiers[j] == statement.verifiers[j];
      assert Represents(p, rules, trace.log, v.results, s, c);
    }
  }

  /** With a verified source, being signed for a step means a signature on the envelope that holds under a functionary's key. */
  lemma SignedMeansVerifiedSignature(rules: Rules, step: Step, crypto: Crypto, verifyOpts: VerificationOptions,
                                     statement: CollectionResult, c: CollectionResult)
    requires Lifts(crypto, verifyOpts, c.env, statement) && CameFrom(rules, step, statement, c)
    ensures exists v, sig ::
      && MatchesSome(rules, step.functionaries, v)
      && sig in c.env.envelope.signatures
      && Vouches(crypto, verifyOpts, PaeOf(c.env), sig, v)
  {
    AdmittedIff(rules, step, statement);
    var j :| 0 <= j < |statement.verifiers| && MatchesSome(rules, step.functionaries, statement.verifiers[j]);
    ResultVerifiersVouch(crypto, verifyOpts, c.env, statement);
    assert statement.verifiers[j] in statement.verifiers;
    var sig :| sig in c.env.envelope.signatures && Vouches(crypto, verifyOpts, PaeOf(c.env), sig, statement.verifiers[j]);
  }
}
