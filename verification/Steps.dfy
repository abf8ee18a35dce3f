// The two filters a step applies to the collections a search found (policy/step.go, policy/policy.go).
module Steps {
  import opened Options
  import opened Collections
  import opened Envelopes
  import opened Sources
  import opened Functionaries

  const COLLECTION_TYPE: string := "https://witness.testifysec.com/attestation-collection/v0.1"

  datatype RegoPolicy = RegoPolicy(moduleText: string, name: string)

  datatype ExpectedAttestation = ExpectedAttestation(typ: string, regoPolicies: seq<RegoPolicy>)

  datatype Step = Step(
    name: string,
    functionaries: seq<Functionary>,
    attestations: seq<ExpectedAttestation>,
    artifactsFrom: seq<string>)

  /** What one verification run holds fixed: the trust bundles, certificate checks and rego evaluation. */
  datatype Rules = Rules(
    pki: Pki, bundles: map<string, TrustBundle>, rego: (Option<Attestor>, seq<RegoPolicy>) -> bool)

  datatype Failure = EnvelopeError(error: SourceError) | Missing(typ: string) | Denied(typ: string)

  datatype Reason =
    | WrongPredicateType
    | NoFunctionaryMatched
    | NoVerifiers
    | ValidationFailed(failures: seq<Failure>)
    | NoPassedCollections
    | ArtifactsFailed

  datatype RejectedCollection = RejectedCollection(collection: Option<CollectionResult>, reason: Reason)

  datatype StepResult = StepResult(
    step: string, passed: seq<CollectionResult>, rejected: seq<RejectedCollection>)

  // ---- functionaries: specification -----------------------------------------------------------

  function ToSeq<T>(o: Option<T>): seq<T> {
    if o.Some? then [o.value] else []
  }

  ghost predicate Accepts(rules: Rules, f: Functionary, v: Verifier) {
    FunctionaryAccepts(rules.pki, rules.bundles, f, v)
  }

  ghost predicate MatchesSome(rules: Rules, fs: seq<Functionary>, v: Verifier) {
    exists i :: 0 <= i < |fs| && Accepts(rules, fs[i], v)
  }

  /** The last of the verifiers that some functionary accepts. */
  ghost function LastMatch(rules: Rules, fs: seq<Functionary>, vs: seq<Verifier>): Option<Verifier> {
    if vs == [] then None
    else if MatchesSome(rules, fs, vs[|vs| - 1]) then Some(vs[|vs| - 1])
    else LastMatch(rules, fs, vs[..|vs| - 1])
  }

  ghost function LastRejecting(rules: Rules, fs: seq<Functionary>, v: Verifier): Option<Warning> {
    if fs == [] then None
    else if !Accepts(rules, fs[|fs| - 1], v) then Some(FunctionaryRejected(fs[|fs| - 1].publicKeyId))
    else LastRejecting(rules, fs[..|fs| - 1], v)
  }

  ghost function LastWarning(rules: Rules, fs: seq<Functionary>, vs: seq<Verifier>): Option<Warning> {
    if vs == [] then None
    else if LastRejecting(rules, fs, vs[|vs| - 1]).Some? then LastRejecting(rules, fs, vs[|vs| - 1])
    else LastWarning(rules, fs, vs[..|vs| - 1])
  }

  /**
   * A statement after the functionary check. Both lists are rebuilt from the loop's copy each time, so only the last
   * match and the last warning are there at the end.
   */
  ghost function Settled(rules: Rules, step: Step, s: CollectionResult): CollectionResult {
    s.(validFunctionaries := s.validFunctionaries + ToSeq(LastMatch(rules, step.functionaries, s.verifiers)),
       warnings := s.warnings + ToSeq(LastWarning(rules, step.functionaries, s.verifiers)))
  }

  ghost predicate Admitted(rules: Rules, step: Step, s: CollectionResult) {
    s.verifiers != [] && Settled(rules, step, s).validFunctionaries != []
  }

  ghost function FunctionaryPassed(rules: Rules, step: Step, ss: seq<CollectionResult>): seq<CollectionResult> {
    if ss == [] then [] else
    var front, last := FunctionaryPassed(rules, step, ss[..|ss| - 1]), ss[|ss| - 1];
    if Admitted(rules, step, last) then front + [Settled(rules, step, last)] else front
  }

  ghost function RejectionsOf(rules: Rules, step: Step, s: CollectionResult): seq<RejectedCollection> {
    (if s.env.statement.predicateType != COLLECTION_TYPE
     then [RejectedCollection(Some(s), WrongPredicateType)] else []) +
    (if s.verifiers == [] then [RejectedCollection(Some(s), NoVerifiers)]
     else if !Admitted(rules, step, s) then [RejectedCollection(Some(Settled(rules, step, s)), NoFunctionaryMatched)]
     else [])
  }

  ghost function FunctionaryRejections(rules: Rules, step: Step, ss: seq<CollectionResult>): seq<RejectedCollection> {
    if ss == [] then []
    else FunctionaryRejections(rules, step, ss[..|ss| - 1]) + RejectionsOf(rules, step, ss[|ss| - 1])
  }

  // ---- functionaries: method ------------------------------------------------------------------

  /** The inner loop: one verifier against every functionary, writing into the statement's slot. */
  method TryFunctionaries(rules: Rules, fs: seq<Functionary>, statement: CollectionResult, v: Verifier,
                          statements: array<CollectionResult>, i: nat)
    requires i < statements.Length
    modifies statements
    ensures forall k :: 0 <= k < statements.Length && k != i ==> statements[k] == old(statements[k])
    ensures statements[i] == old(statements[i]).(
      validFunctionaries := if MatchesSome(rules, fs, v) then statement.validFunctionaries + [v]
                            else old(statements[i]).validFunctionaries,
      warnings := if LastRejecting(rules, fs, v).Some?
                  then statement.warnings + [LastRejecting(rules, fs, v).value] else old(statements[i]).warnings)
  {
    for j := 0 to |fs|
      invariant forall k :: 0 <= k < statements.Length && k != i ==> statements[k] == old(statements[k])
      invariant statements[i] == old(statements[i]).(
        validFunctionaries := if MatchesSome(rules, fs[..j], v) then statement.validFunctionaries + [v]
                              else old(statements[i]).validFunctionaries,
        warnings := if LastRejecting(rules, fs[..j], v).Some?
                    then statement.warnings + [LastRejecting(rules, fs[..j], v).value] else old(statements[i]).warnings)
    {
      FunctionaryStep(rules, fs, v, j);
      var ok := Validate(rules.pki, rules.bundles, fs[j], v);
      if !ok {
        statements[i] := statements[i].(warnings := statement.warnings + [FunctionaryRejected(fs[j].publicKeyId)]);
        continue;
      }
      statements[i] := statements[i].(validFunctionaries := statement.validFunctionaries + [v]);
    }
    assert fs[..|fs|] == fs;
  }

  lemma FunctionaryStep(rules: Rules, fs: seq<Functionary>, v: Verifier, j: nat)
    requires j < |fs|
    ensures MatchesSome(rules, fs[..j + 1], v) <==> MatchesSome(rules, fs[..j], v) || Accepts(rules, fs[j], v)
    ensures LastRejecting(rules, fs[..j + 1], v)
      == if Accepts(rules, fs[j], v) then LastRejecting(rules, fs[..j], v) else Some(FunctionaryRejected(fs[j].publicKeyId))
  {
    assert fs[..j + 1][..j] == fs[..j];
    if MatchesSome(rules, fs[..j], v) {
      var k :| 0 <= k < j && Accepts(rules, fs[..j][k], v);
      assert Accepts(rules, fs[..j + 1][k], v);
    }
    if Accepts(rules, fs[j], v) {
      assert Accepts(rules, fs[..j + 1][j], v);
    }
    if MatchesSome(rules, fs[..j + 1], v) {
      var k :| 0 <= k < j + 1 && Accepts(rules, fs[..j + 1][k], v);
      assert k < j ==> fs[..j][k] == fs[k];
    }
  }

  method SettleInPlace(rules: Rules, step: Step, statements: array<CollectionResult>, i: nat)
    requires i < statements.Length
    modifies statements
    ensures forall k :: 0 <= k < statements.Length && k != i ==> statements[k] == old(statements[k])
    ensures statements[i] == Settled(rules, step, old(statements[i]))
  {
    var statement := statements[i];
    for j := 0 to |statement.verifiers|
      invariant forall k :: 0 <= k < statements.Length && k != i ==> statements[k] == old(statements[k])
      invariant statements[i] == statement.(
        validFunctionaries :=
          statement.validFunctionaries + ToSeq(LastMatch(rules, step.functionaries, statement.verifiers[..j])),
        warnings := statement.warnings + ToSeq(LastWarning(rules, step.functionaries, statement.verifiers[..j])))
    {
      assert statement.verifiers[..j + 1][..j] == statement.verifiers[..j];
      TryFunctionaries(rules, step.functionaries, statement, statement.verifiers[j], statements, i);
    }
    assert statement.verifiers[..|statement.verifiers|] == statement.verifiers;
  }

  /** `checkFunctionaries`. A wrong predicate type is recorded and does not stop the check of the verifiers. */
  method CheckFunctionaries(rules: Rules, step: Step, statements: array<CollectionResult>) returns (result: StepResult)
    modifies statements
    ensures result.step == step.name
    ensures result.passed == FunctionaryPassed(rules, step, old(statements[..]))
    ensures result.rejected == FunctionaryRejections(rules, step, old(statements[..]))
  {
    ghost var was := statements[..];
    result := StepResult(step.name, [], []);
    for i := 0 to statements.Length
      invariant forall k :: i <= k < statements.Length ==> statements[k] == was[k]
      invariant result.step == step.name
      invariant result.passed == FunctionaryPassed(rules, step, was[..i])
      invariant result.rejected == FunctionaryRejections(rules, step, was[..i])
    {
      assert was[..i + 1][..i] == was[..i];
      var statement := statements[i];
      var rejections: seq<RejectedCollection> := [];
      if statement.env.statement.predicateType != COLLECTION_TYPE {
        rejections := [RejectedCollection(Some(statement), WrongPredicateType)];
      }
      if |statement.verifiers| > 0 {
        SettleInPlace(rules, step, statements, i);
        if |statements[i].validFunctionaries| == 0 {
          rejections := rejections + [RejectedCollection(Some(statements[i]), NoFunctionaryMatched)];
        } else {
          result := result.(passed := result.passed + [statements[i]]);
        }
      } else {
        rejections := rejections + [RejectedCollection(Some(statements[i]), NoVerifiers)];
      }
      result := result.(rejected := result.rejected + rejections);
    }
    assert was[..statements.Length] == was;
  }

  // ---- attestations: specification ------------------------------------------------------------

  predicate RegoAccepts(rules: Rules, attestor: Option<Attestor>, policies: seq<RegoPolicy>) {
    policies == [] || rules.rego(attestor, policies)
  }

  /** The attestor found under a recorded type: the last one wins. */
  function Found(atts: seq<CollectionAttestation>, typ: string): Option<Attestor> {
    if atts == [] then None
    else if atts[|atts| - 1].recordedType == typ then Some(atts[|atts| - 1].attestor)
    else Found(atts[..|atts| - 1], typ)
  }

  function EnvelopeFailures(errors: seq<SourceError>): seq<Failure> {
    if errors == [] then [] else EnvelopeFailures(errors[..|errors| - 1]) + [EnvelopeError(errors[|errors| - 1])]
  }

  function FailuresFor(rules: Rules, c: Collection, expected: ExpectedAttestation): seq<Failure> {
    var attestor := Found(c.attestations, expected.typ);
    (if attestor.None? then [Missing(expected.typ)] else []) +
    (if RegoAccepts(rules, attestor, expected.regoPolicies) then [] else [Denied(expected.typ)])
  }

  function AttestationFailures(rules: Rules, c: Collection, expected: seq<ExpectedAttestation>): seq<Failure> {
    if expected == [] then []
    else AttestationFailures(rules, c, expected[..|expected| - 1]) + FailuresFor(rules, c, expected[|expected| - 1])
  }

  function FailuresOf(rules: Rules, step: Step, r: CollectionResult): seq<Failure> {
    EnvelopeFailures(r.errors) + AttestationFailures(rules, r.env.collection, step.attestations)
  }

  predicate ForStep(step: Step, r: CollectionResult) {
    r.env.collection.name == step.name || r.env.collection.name == ""
  }

  function ValidationPassed(rules: Rules, step: Step, rs: seq<CollectionResult>): seq<CollectionResult> {
    if rs == [] then [] else
    var front, last := ValidationPassed(rules, step, rs[..|rs| - 1]), rs[|rs| - 1];
    if ForStep(step, last) && FailuresOf(rules, step, last) == [] then front + [last] else front
  }

  function ValidationRejections(rules: Rules, step: Step, rs: seq<CollectionResult>): seq<RejectedCollection> {
    if rs == [] then [] else
    var front, last := ValidationRejections(rules, step, rs[..|rs| - 1]), rs[|rs| - 1];
    if ForStep(step, last) && FailuresOf(rules, step, last) != []
    then front + [RejectedCollection(Some(last), ValidationFailed(FailuresOf(rules, step, last)))] else front
  }

  function Skipped(step: Step, rs: seq<CollectionResult>): seq<CollectionResult> {
    if rs == [] then [] else
    var front, last := Skipped(step, rs[..|rs| - 1]), rs[|rs| - 1];
    if ForStep(step, last) then front else front + [last]
  }

  // ---- attestations: method -------------------------------------------------------------------

  method IndexByType(atts: seq<CollectionAttestation>) returns (found: map<string, Attestor>)
    ensures forall t :: t in found <==> Found(atts, t).Some?
    ensures forall t :: t in found ==> Found(atts, t) == Some(found[t])
  {
    found := map[];
    for i := 0 to |atts|
      invariant forall t :: t in found <==> Found(atts[..i], t).Some?
      invariant forall t :: t in found ==> Found(atts[..i], t) == Some(found[t])
    {
      assert atts[..i + 1][..i] == atts[..i];
      found := found[atts[i].recordedType := atts[i].attestor];
    }
    assert atts[..|atts|] == atts;
  }

  method CollectFailures(rules: Rules, step: Step, r: CollectionResult) returns (failures: seq<Failure>, passed: bool)
    ensures failures == FailuresOf(rules, step, r)
    ensures passed <==> failures == []
  {
    var more, noMore;
    failures, passed := CollectEnvelopeFailures(r.errors);
    more, noMore := CollectAttestationFailures(rules, r.env.collection, step.attestations);
    return failures + more, passed && noMore;
  }

  method CollectEnvelopeFailures(errors: seq<SourceError>) returns (failures: seq<Failure>, passed: bool)
    ensures failures == EnvelopeFailures(errors)
    ensures passed <==> failures == []
  {
    failures, passed := [], true;
    for i := 0 to |errors|
      invariant failures == EnvelopeFailures(errors[..i])
      invariant passed <==> failures == []
    {
      assert errors[..i + 1][..i] == errors[..i];
      passed := false;
      failures := failures + [EnvelopeError(errors[i])];
    }
    assert errors[..|errors|] == errors;
  }

  method CollectAttestationFailures(rules: Rules, c: Collection, expected: seq<ExpectedAttestation>)
    returns (failures: seq<Failure>, passed: bool)
    ensures failures == AttestationFailures(rules, c, expected)
    ensures passed <==> failures == []
  {
    var found := IndexByType(c.attestations);
    failures, passed := [], true;
    for i := 0 to |expected|
      invariant failures == AttestationFailures(rules, c, expected[..i])
      invariant passed <==> failures == []
    {
      assert expected[..i + 1][..i] == expected[..i];
      var attestor := if expected[i].typ in found then Some(found[expected[i].typ]) else None;
      if attestor.None? {
        passed := false;
        failures := failures + [Missing(expected[i].typ)];
      }
      if !RegoAccepts(rules, attestor, expected[i].regoPolicies) {
        passed := false;
        failures := failures + [Denied(expected[i].typ)];
      }
    }
    assert expected[..|expected|] == expected;
  }

  /** `validateAttestations`. A collection for another step is passed over without a trace. */
  method ValidateAttestations(rules: Rules, step: Step, collectionResults: seq<CollectionResult>)
    returns (result: StepResult)
    ensures result == StepResult(
      step.name,
      ValidationPassed(rules, step, collectionResults),
      ValidationRejections(rules, step, collectionResults))
  {
    result := StepResult(step.name, [], []);
    for i := 0 to |collectionResults|
      invariant result == StepResult(
        step.name,
        ValidationPassed(rules, step, collectionResults[..i]),
        ValidationRejections(rules, step, collectionResults[..i]))
    {
      assert collectionResults[..i + 1][..i] == collectionResults[..i];
      var collection := collectionResults[i];
      if collection.env.collection.name != step.name && collection.env.collection.name != "" {
        continue;
      }
      var failures, passed := CollectFailures(rules, step, collection);
      if passed {
        result := result.(passed := result.passed + [collection]);
      } else {
        result := result.(
          rejected := result.rejected + [RejectedCollection(Some(collection), ValidationFailed(failures))]);
      }
    }
    assert collectionResults[..|collectionResults|] == collectionResults;
  }

  /** `Analyze`: something passed and nothing that passed carries an error. */
  method Analyze(r: StepResult) returns (pass: bool)
    ensures pass <==> r.passed != [] && forall i :: 0 <= i < |r.passed| ==> r.passed[i].errors == []
  {
    pass := false;
    if |r.passed| > 0 {
      pass := true;
    }
    for i := 0 to |r.passed|
      invariant pass <==> r.passed != [] && forall k :: 0 <= k < i ==> r.passed[k].errors == []
    {
      for j := 0 to |r.passed[i].errors|
        invariant pass <==>
          r.passed != [] && (forall k :: 0 <= k < i ==> r.passed[k].errors == []) && j == 0
      {
        pass := false;
      }
    }
  }
}
