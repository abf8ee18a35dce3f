// Policy verification (policy/policy.go): search rounds, the two filters, artifact pruning, one verdict.
module PolicyEngine {
  import opened Options
  import opened Digests
  import opened Collections
  import opened Envelopes
  import opened Sources
  import opened Functionaries
  import opened Steps

  /** `expired` is what comparing the expiry with the clock says; `trustBundles` is None when a certificate fails to parse. */
  datatype Policy = Policy(
    expired: bool, trustBundles: Option<map<string, TrustBundle>>, steps: map<string, Step>)

  ghost predicate WellFormed(p: Policy) {
    forall k :: k in p.steps ==> p.steps[k].name == k && k != ""
  }

  datatype VerifyOptions = VerifyOptions(hasSource: bool, subjectDigests: seq<string>, searchDepth: int)

  datatype EngineError =
    | NoVerifiedSource
    | NoSubjectDigests
    | BadSearchDepth
    | PolicyExpired
    | BadTrustBundle
    | SearchFailed
    | StepResultMissing(step: string)

  datatype Verdict = Verdict(pass: bool, results: map<string, StepResult>, error: Option<EngineError>)

  /**
   * Any source at all: the answer may depend on how many searches went before, the collection name, the digests and the
   * attestation types. None stands for an error.
   */
  type Search = (nat, string, seq<string>, seq<string>) -> Option<seq<CollectionResult>>

  // ---- one visit to a step --------------------------------------------------------------------

  /** What is checked when a search finds nothing. */
  const NOTHING_FOUND: CollectionResult := CollectionResult(
    [], [], CollectionEnvelope(Envelope([], [], []), Statement("", []), Collection("", []), ""), [NoCollections], [])

  function Statements(reply: seq<CollectionResult>): seq<CollectionResult> {
    if reply == [] then [NOTHING_FOUND] else reply
  }

  /** The step result one reply gives rise to. */
  ghost function OutcomeOf(rules: Rules, step: Step, reply: seq<CollectionResult>): StepResult {
    var admitted := FunctionaryPassed(rules, step, Statements(reply));
    StepResult(
      step.name,
      ValidationPassed(rules, step, admitted),
      ValidationRejections(rules, step, admitted) + FunctionaryRejections(rules, step, Statements(reply)))
  }

  function TypesOf(step: Step): seq<string> {
    seq(|step.attestations|, i requires 0 <= i < |step.attestations| => step.attestations[i].typ)
  }

  method CheckReply(rules: Rules, step: Step, reply: seq<CollectionResult>) returns (result: StepResult)
    ensures result == OutcomeOf(rules, step, reply)
  {
    var collections := reply;
    if |collections| == 0 {
      collections := [NOTHING_FOUND];
    }
    var statements := new CollectionResult[|collections|](i requires 0 <= i < |collections| => collections[i]);
    assert statements[..] == Statements(reply);
    var functionaryCheckResults := CheckFunctionaries(rules, step, statements);
    result := ValidateAttestations(rules, step, functionaryCheckResults.passed);
    result := result.(rejected := result.rejected + functionaryCheckResults.rejected);
  }

  /** Every digest back-referenced by a list of collections. */
  ghost function BackReferenced(passed: seq<CollectionResult>): set<string> {
    if passed == [] then {}
    else BackReferenced(passed[..|passed| - 1]) + BackRefDigests(passed[|passed| - 1].env.collection)
  }

  /** The digests to append, in whatever order the maps are walked. */
  method GatherBackRefs(passed: seq<CollectionResult>) returns (digests: seq<string>)
    ensures Elements(digests) == BackReferenced(passed)
  {
    digests := [];
    for i := 0 to |passed|
      invariant Elements(digests) == BackReferenced(passed[..i])
    {
      assert passed[..i + 1][..i] == passed[..i];
      var more := GatherFrom(passed[i].env.collection);
      ElementsAppend(digests, more);
      digests := digests + more;
    }
    assert passed[..|passed|] == passed;
  }

  method GatherFrom(c: Collection) returns (digests: seq<string>)
    ensures Elements(digests) == BackRefDigests(c)
  {
    var refs := BackRefs(c);
    digests := [];
    var rest := refs.Keys;
    while rest != {}
      invariant rest <= refs.Keys
      invariant Elements(digests) == set k, h | k in refs && k !in rest && h in refs[k] :: refs[k][h]
      decreases rest
    {
      var k :| k in rest;
      var more := ValuesOf(refs[k]);
      ElementsAppend(digests, more);
      digests := digests + more;
      rest := rest - {k};
    }
  }

  method ValuesOf(ds: DigestSet) returns (digests: seq<string>)
    ensures Elements(digests) == set h | h in ds :: ds[h]
  {
    digests := [];
    var rest := ds.Keys;
    while rest != {}
      invariant rest <= ds.Keys
      invariant Elements(digests) == set h | h in ds && h !in rest :: ds[h]
      decreases rest
    {
      var h :| h in rest;
      rest := rest - {h};
      ElementsAppend(digests, [ds[h]]);
      digests := digests + [ds[h]];
    }
  }

  // ---- runs of the search loop ----------------------------------------------------------------

  /** One pass through the inner loop: who was asked for what, what came back, and what was appended afterwards. */
  datatype Visit = Visit(
    round: nat, stepName: string, digests: seq<string>, reply: seq<CollectionResult>, appended: seq<string>)

  function DigestsAfter(seeds: seq<string>, log: seq<Visit>): seq<string> {
    if log == [] then seeds else DigestsAfter(seeds, log[..|log| - 1]) + log[|log| - 1].appended
  }

  /** Visit `i` did what the loop body does. */
  ghost predicate VisitOk(p: Policy, rules: Rules, search: Search, seeds: seq<string>, log: seq<Visit>, i: nat)
    requires i < |log|
  {
    var v := log[i];
    && v.stepName in p.steps
    && v.digests == DigestsAfter(seeds, log[..i])
    && search(i, v.stepName, v.digests, TypesOf(p.steps[v.stepName])) == Some(v.reply)
    && Elements(v.appended) == BackReferenced(OutcomeOf(rules, p.steps[v.stepName], v.reply).passed)
  }

  /** Rounds come one after the other, and no round visits a step twice. */
  ghost predicate InRounds(log: seq<Visit>) {
    forall i, j :: 0 <= i < j < |log| ==>
      log[i].round < log[j].round || (log[i].round == log[j].round && log[i].stepName != log[j].stepName)
  }

  ghost predicate Known(p: Policy, log: seq<Visit>) {
    forall i :: 0 <= i < |log| ==> log[i].stepName in p.steps
  }

  ghost predicate IsRun(p: Policy, rules: Rules, search: Search, seeds: seq<string>, log: seq<Visit>) {
    && Known(p, log)
    && InRounds(log)
    && (forall i :: 0 <= i < |log| ==> VisitOk(p, rules, search, seeds, log, i))
  }

  ghost predicate Visited(log: seq<Visit>, round: nat, stepName: string) {
    exists i :: 0 <= i < |log| && log[i].round == round && log[i].stepName == stepName
  }

  /** Every step was visited in each of the rounds, in some order. */
  ghost predicate Covers(p: Policy, depth: nat, log: seq<Visit>) {
    && (forall i :: 0 <= i < |log| ==> log[i].round < depth)
    && (forall d, s :: 0 <= d < depth && s in p.steps ==> Visited(log, d, s))
  }

  /** In the middle of a round, with these steps still to come. */
  ghost predicate CoversPartly(p: Policy, depth: nat, rest: set<string>, log: seq<Visit>) {
    && (forall i :: 0 <= i < |log| ==>
          log[i].round < depth || (log[i].round == depth && log[i].stepName !in rest))
    && (forall d, s :: 0 <= d < depth && s in p.steps ==> Visited(log, d, s))
    && (forall s :: s in p.steps && s !in rest ==> Visited(log, depth, s))
  }

  lemma CoversOneMore(p: Policy, depth: nat, rest: set<string>, log: seq<Visit>, v: Visit)
    requires CoversPartly(p, depth, rest, log) && v.round == depth
    ensures CoversPartly(p, depth, rest - {v.stepName}, log + [v])
  {
    forall d, s | Visited(log, d, s) || (d == depth && s == v.stepName) ensures Visited(log + [v], d, s) {
      VisitedOneMore(log, v, d, s);
    }
  }

  lemma VisitedOneMore(log: seq<Visit>, v: Visit, d: nat, s: string)
    ensures Visited(log + [v], d, s) <==> Visited(log, d, s) || (d == v.round && s == v.stepName)
  {
    var more := log + [v];
    if Visited(log, d, s) {
      var i :| 0 <= i < |log| && log[i].round == d && log[i].stepName == s;
      assert more[i] == log[i];
    }
    assert more[|log|] == v;
    if Visited(more, d, s) {
      var i :| 0 <= i < |more| && more[i].round == d && more[i].stepName == s;
      assert i == |log| || log[i] == more[i];
    }
  }

  function Merge(results: map<string, StepResult>, stepName: string, r: StepResult): map<string, StepResult> {
    if stepName !in results || results[stepName].step == "" then results[stepName := r]
    else results[stepName := results[stepName].(
      passed := results[stepName].passed + r.passed,
      rejected := results[stepName].rejected + r.rejected)]
  }

  ghost function ResultsOf(p: Policy, rules: Rules, log: seq<Visit>): map<string, StepResult>
    requires Known(p, log)
  {
    if log == [] then map[] else
    var last := log[|log| - 1];
    Merge(ResultsOf(p, rules, log[..|log| - 1]), last.stepName, OutcomeOf(rules, p.steps[last.stepName], last.reply))
  }

  lemma RunExtends(p: Policy, rules: Rules, search: Search, seeds: seq<string>, log: seq<Visit>, v: Visit)
    requires IsRun(p, rules, search, seeds, log)
    requires forall i :: 0 <= i < |log| ==>
      log[i].round < v.round || (log[i].round == v.round && log[i].stepName != v.stepName)
    requires VisitOk(p, rules, search, seeds, log + [v], |log|)
    ensures IsRun(p, rules, search, seeds, log + [v])
    ensures ResultsOf(p, rules, log + [v])
      == Merge(ResultsOf(p, rules, log), v.stepName, OutcomeOf(rules, p.steps[v.stepName], v.reply))
    ensures DigestsAfter(seeds, log + [v]) == DigestsAfter(seeds, log) + v.appended
  {
    var more := log + [v];
    assert more[..|log|] == log;
    forall i | 0 <= i < |more| ensures VisitOk(p, rules, search, seeds, more, i) {
      if i < |log| {
        assert VisitOk(p, rules, search, seeds, log, i);
        assert more[..i] == log[..i];
      }
    }
  }

  /** The search loop. The steps are visited in an arbitrary order, chosen anew in every round. */
  method SearchRounds(p: Policy, rules: Rules, search: Search, seeds: seq<string>, searchDepth: nat)
    returns (results: map<string, StepResult>, ok: bool, ghost log: seq<Visit>)
    ensures IsRun(p, rules, search, seeds, log)
    ensures ok ==> Covers(p, searchDepth, log) && results == ResultsOf(p, rules, log)
    ensures !ok ==> exists s :: s in p.steps && search(|log|, s, DigestsAfter(seeds, log), TypesOf(p.steps[s])).None?
  {
    results, ok, log := map[], true, [];
    var subjectDigests := seeds;
    var searches := 0;
    for depth := 0 to searchDepth
      invariant IsRun(p, rules, search, seeds, log) && Covers(p, depth, log)
      invariant results == ResultsOf(p, rules, log)
      invariant subjectDigests == DigestsAfter(seeds, log) && searches == |log|
    {
      var rest := p.steps.Keys;
      while rest != {}
        invariant rest <= p.steps.Keys
        invariant IsRun(p, rules, search, seeds, log) && CoversPartly(p, depth, rest, log)
        invariant results == ResultsOf(p, rules, log)
        invariant subjectDigests == DigestsAfter(seeds, log) && searches == |log|
        decreases rest
      {
        var stepName :| stepName in rest;
        ghost var before := rest;
        rest := rest - {stepName};
        var step := p.steps[stepName];
        var reply := search(searches, stepName, subjectDigests, TypesOf(step));
        if reply.None? {
          ok := false;
          return;
        }
        searches := searches + 1;
        var stepResult := CheckReply(rules, step, reply.value);
        results := Merge(results, stepName, stepResult);
        var digests := GatherBackRefs(stepResult.passed);
        ghost var v := Visit(depth, stepName, subjectDigests, reply.value, digests);
        assert (log + [v])[..|log|] == log;
        RunExtends(p, rules, search, seeds, log, v);
        CoversOneMore(p, depth, before, log, v);
        log := log + [v];
        subjectDigests := subjectDigests + digests;
      }
    }
  }

  // ---- artifact pruning -----------------------------------------------------------------------

  /** The first passed collection of step `from` has artifacts that agree with the given materials. */
  ghost predicate FirstAgrees(mats: map<string, DigestSet>, from: string, results: map<string, StepResult>) {
    && from in results && results[from].passed != []
    && Compatible(mats, ArtifactsOf(results[from].passed[0].env.collection))
  }

  ghost predicate Acceptable(step: Step, c: CollectionResult, results: map<string, StepResult>) {
    forall i :: 0 <= i < |step.artifactsFrom| ==>
      FirstAgrees(MaterialsOf(c.env.collection.attestations), step.artifactsFrom[i], results)
  }

  ghost predicate StepHolds(step: Step, results: map<string, StepResult>) {
    && step.name in results
    && (exists i :: 0 <= i < |results[step.name].passed| && Acceptable(step, results[step.name].passed[i], results))
  }

  /** The inner loop breaks at the first mismatch, so it accepts some collection only if it accepts the first. */
  method VerifyCollectionArtifacts(step: Step, collection: CollectionResult, results: map<string, StepResult>)
    returns (ok: bool)
    ensures ok <==> Acceptable(step, collection, results)
  {
    var mats := Materials(collection.env.collection);
    for i := 0 to |step.artifactsFrom|
      invariant forall k :: 0 <= k < i ==> FirstAgrees(mats, step.artifactsFrom[k], results)
    {
      var from := step.artifactsFrom[i];
      var accepted: seq<CollectionResult> := [];
      var candidates := if from in results then results[from].passed else [];
      for j := 0 to |candidates|
        invariant |accepted| == j
        invariant j > 0 ==> Compatible(mats, ArtifactsOf(candidates[0].env.collection))
      {
        var arts := Artifacts(candidates[j].env.collection);
        var mismatch := CompareArtifacts(mats, arts);
        if mismatch.Some? {
          break;
        }
        accepted := accepted + [candidates[j]];
      }
      if |accepted| <= 0 {
        return false;
      }
    }
    return true;
  }

  /** The loop body of `verifyArtifacts`. None is the error for a step that has no result. */
  ghost function PruneStep(step: Step, results: map<string, StepResult>): Option<map<string, StepResult>> {
    if step.name !in results then None
    else
      var r := results[step.name];
      if r.passed == [] then
        Some(results[step.name := r.(rejected := r.rejected + [RejectedCollection(None, NoPassedCollections)])])
      else if StepHolds(step, results) then Some(results)
      else Some(results[step.name :=
             r.(passed := [], rejected := r.rejected + [RejectedCollection(None, ArtifactsFailed)])])
  }

  /** Pruning the steps in a given order. */
  ghost function Prune(p: Policy, order: seq<string>, results: map<string, StepResult>): Option<map<string, StepResult>>
    requires forall i :: 0 <= i < |order| ==> order[i] in p.steps
  {
    if order == [] then Some(results) else
    match Prune(p, order[..|order| - 1], results)
    case None => None
    case Some(pruned) => PruneStep(p.steps[order[|order| - 1]], pruned)
  }

  method PruneOne(step: Step, results: map<string, StepResult>)
    returns (pruned: map<string, StepResult>, error: Option<EngineError>)
    ensures error.None? <==> PruneStep(step, results).Some?
    ensures error.None? ==> PruneStep(step, results) == Some(pruned)
    ensures error.Some? ==> error == Some(StepResultMissing(step.name))
  {
    var passed := if step.name in results then results[step.name].passed else [];
    if |passed| == 0 {
      if step.name !in results {
        return results, Some(StepResultMissing(step.name));
      }
      var result := results[step.name];
      result := result.(rejected := result.rejected + [RejectedCollection(None, NoPassedCollections)]);
      return results[step.name := result], None;
    }
    var accepted := AnyAcceptable(step, passed, results);
    if !accepted {
      var result := results[step.name];
      result := result.(passed := [], rejected := result.rejected + [RejectedCollection(None, ArtifactsFailed)]);
      return results[step.name := result], None;
    }
    return results, None;
  }

  method AnyAcceptable(step: Step, passed: seq<CollectionResult>, results: map<string, StepResult>)
    returns (accepted: bool)
    ensures accepted <==> exists i :: 0 <= i < |passed| && Acceptable(step, passed[i], results)
  {
    accepted := false;
    for i := 0 to |passed|
      invariant accepted <==> exists k :: 0 <= k < i && Acceptable(step, passed[k], results)
    {
      var ok := VerifyCollectionArtifacts(step, passed[i], results);
      if ok {
        accepted := true;
      }
    }
  }

  /** The error for one of the policy's steps, by the name it gives itself. */
  ghost predicate MissingResult(p: Policy, error: Option<EngineError>) {
    exists key :: key in p.steps && error == Some(StepResultMissing(p.steps[key].name))
  }

  /** `verifyArtifacts` walks the steps in an arbitrary order and overwrites results as it goes. */
  method VerifyArtifacts(p: Policy, resultsByStep: map<string, StepResult>)
    returns (results: map<string, StepResult>, error: Option<EngineError>, ghost order: seq<string>)
    ensures forall i :: 0 <= i < |order| ==> order[i] in p.steps
    ensures error.None? ==> Enumerates(order, p.steps.Keys) && Prune(p, order, resultsByStep) == Some(results)
    ensures error.Some? ==> Prune(p, order, resultsByStep).None? && MissingResult(p, error)
  {
    results, order := resultsByStep, [];
    var rest := p.steps.Keys;
    while rest != {}
      invariant rest <= p.steps.Keys
      invariant Enumerates(order, p.steps.Keys - rest)
      invariant forall i :: 0 <= i < |order| ==> order[i] in p.steps
      invariant Prune(p, order, resultsByStep) == Some(results)
      decreases rest
    {
      var key :| key in rest;
      rest := rest - {key};
      ghost var before := order;
      ElementsAppend(order, [key]);
      order := order + [key];
      assert order[..|order| - 1] == before;
      results, error := PruneOne(p.steps[key], results);
      if error.Some? {
        return;
      }
    }
    error := None;
  }

  // ---- the verdict ----------------------------------------------------------------------------

  ghost predicate AllPass(results: map<string, StepResult>) {
    forall k :: k in results ==>
      results[k].passed != [] && forall i :: 0 <= i < |results[k].passed| ==> results[k].passed[i].errors == []
  }

  method AnalyzeAll(results: map<string, StepResult>) returns (pass: bool)
    ensures pass <==> AllPass(results)
  {
    pass := true;
    var rest := results.Keys;
    while rest != {}
      invariant rest <= results.Keys
      invariant pass <==> forall k :: k in results && k !in rest ==>
        results[k].passed != [] && forall i :: 0 <= i < |results[k].passed| ==> results[k].passed[i].errors == []
      decreases rest
    {
      var k :| k in rest;
      rest := rest - {k};
      var ok := Analyze(results[k]);
      if !ok {
        pass := false;
      }
    }
  }

  /** How a run that got past the option checks came to its verdict. */
  datatype Trace = Trace(log: seq<Visit>, order: seq<string>)

  ghost predicate IsTrace(p: Policy, rules: Rules, search: Search, opts: VerifyOptions, trace: Trace) {
    && opts.searchDepth >= 1
    && IsRun(p, rules, search, opts.subjectDigests, trace.log)
    && Covers(p, opts.searchDepth, trace.log)
    && (forall i :: 0 <= i < |trace.order| ==> trace.order[i] in p.steps)
  }

  ghost predicate Explains(p: Policy, rules: Rules, search: Search, opts: VerifyOptions, trace: Trace, v: Verdict) {
    && IsTrace(p, rules, search, opts, trace)
    && Enumerates(trace.order, p.steps.Keys)
    && Prune(p, trace.order, ResultsOf(p, rules, trace.log)) == Some(v.results)
    && (v.pass <==> AllPass(v.results))
  }

  /**
   * `Policy.Verify`. It refuses for the first reason there is; past that, what it answers is explained by a run under the
   * policy's own trust bundles and the given evaluation of rego policies.
   */
  method Verify(p: Policy, pki: Pki, rego: (Option<Attestor>, seq<RegoPolicy>) -> bool, search: Search,
                opts: VerifyOptions)
    returns (v: Verdict, ghost trace: Trace)
    ensures v.error.Some? ==> !v.pass && v.results == map[]
    ensures v.error == Some(NoVerifiedSource) <==> !opts.hasSource
    ensures v.error == Some(NoSubjectDigests) <==> opts.hasSource && opts.subjectDigests == []
    ensures v.error == Some(BadSearchDepth) <==> opts.hasSource && opts.subjectDigests != [] && opts.searchDepth < 1
    ensures v.error == Some(PolicyExpired) <==>
      opts.hasSource && opts.subjectDigests != [] && opts.searchDepth >= 1 && p.expired
    ensures v.error == Some(BadTrustBundle) <==>
      opts.hasSource && opts.subjectDigests != [] && opts.searchDepth >= 1 && !p.expired && p.trustBundles.None?
    ensures v.error.None? ==>
      && opts.hasSource && opts.subjectDigests != [] && opts.searchDepth >= 1 && !p.expired && p.trustBundles.Some?
      && Explains(p, Rules(pki, p.trustBundles.value, rego), search, opts, trace, v)
    ensures v.error == Some(SearchFailed) ==>
      exists s :: s in p.steps
        && search(|trace.log|, s, DigestsAfter(opts.subjectDigests, trace.log), TypesOf(p.steps[s])).None?
    ensures v.error.Some? && v.error.value.StepResultMissing? ==>
      && p.trustBundles.Some? && IsTrace(p, Rules(pki, p.trustBundles.value, rego), search, opts, trace)
      && Prune(p, trace.order, ResultsOf(p, Rules(pki, p.trustBundles.value, rego), trace.log)).None?
      && MissingResult(p, v.error)
  {
    trace := Trace([], []);
    if !opts.hasSource {
      return Verdict(false, map[], Some(NoVerifiedSource)), trace;
    }
    if |opts.subjectDigests| == 0 {
      return Verdict(false, map[], Some(NoSubjectDigests)), trace;
    }
    if opts.searchDepth < 1 {
      return Verdict(false, map[], Some(BadSearchDepth)), trace;
    }
    if p.expired {
      return Verdict(false, map[], Some(PolicyExpired)), trace;
    }
    if p.trustBundles.None? {
      return Verdict(false, map[], Some(BadTrustBundle)), trace;
    }
    var rules := Rules(pki, p.trustBundles.value, rego);
    ghost var log, order;
    var results, ok;
    results, ok, log := SearchRounds(p, rules, search, opts.subjectDigests, opts.searchDepth);
    trace := Trace(log, []);
    if !ok {
      return Verdict(false, map[], Some(SearchFailed)), trace;
    }
    var error;
    results, error, order := VerifyArtifacts(p, results);
    trace := Trace(log, order);
    if error.Some? {
      return Verdict(false, map[], error), trace;
    }
    var pass := AnalyzeAll(results);
    return Verdict(pass, results, None), trace;
  }
}
