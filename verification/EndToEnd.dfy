// Policy verification from end to end, over a verified in-memory source: what a positive verdict guarantees, said in terms
// of what is loaded, signed and configured, and what is enough for one.
module EndToEnd {
  import opened Options
  import opened Digests
  import opened PreAuth
  import opened Collections
  import opened Envelopes
  import opened Thresholds
  import opened Sources
  import opened Functionaries
  import opened Steps
  import opened StepTheorems
  import opened PolicyEngine
  import opened Soundness
  import opened BackRefSearch
  import opened VerdictOrder
  import opened TwoStepVerdicts

  // ---- artifacts ------------------------------------------------------------------------------

  /** What the last product says about the path, or else the last material, has these digests. */
  ghost predicate Leaves(atts: seq<CollectionAttestation>, path: string, d: DigestSet) {
    || (exists i: nat :: LastProduct(atts, path, i) && atts[i].attestor.products.value[path].digest == d)
    || (&& !(exists i: nat :: LastProduct(atts, path, i))
        && exists i: nat :: LastMaterial(atts, path, i) && atts[i].attestor.materials.value[path] == d)
  }

  /** What the last material says about the path has these digests. */
  ghost predicate Takes(atts: seq<CollectionAttestation>, path: string, d: DigestSet) {
    exists i: nat :: LastMaterial(atts, path, i) && atts[i].attestor.materials.value[path] == d
  }

  /** On every path that one collection takes and the other leaves, their digests agree. */
  ghost predicate FitsTogether(taker: Collection, giver: Collection) {
    forall path, d1, d2 :: Takes(taker.attestations, path, d1) && Leaves(giver.attestations, path, d2) ==> Agree(d1, d2)
  }

  lemma TakesIff(atts: seq<CollectionAttestation>, path: string, d: DigestSet)
    ensures Takes(atts, path, d) <==> path in MaterialsOf(atts) && MaterialsOf(atts)[path] == d
  {
    if path in MaterialsOf(atts) {
      var i := MaterialHasSupplier(atts, path);
      MaterialLastWins(atts, path, i);
    }
    if i: nat :| LastMaterial(atts, path, i) && atts[i].attestor.materials.value[path] == d {
      MaterialLastWins(atts, path, i);
    }
  }

  lemma LeavesIff(c: Collection, path: string, d: DigestSet)
    ensures Leaves(c.attestations, path, d) <==> path in ArtifactsOf(c) && ArtifactsOf(c)[path] == d
  {
    ArtifactsAreLastWins(c, path);
  }

  lemma FitsTogetherIff(taker: Collection, giver: Collection)
    ensures FitsTogether(taker, giver) <==> Compatible(MaterialsOf(taker.attestations), ArtifactsOf(giver))
  {
    var mats, arts := MaterialsOf(taker.attestations), ArtifactsOf(giver);
    if FitsTogether(taker, giver) {
      forall path | path in mats && path in arts ensures Agree(mats[path], arts[path]) {
        TakesIff(taker.attestations, path, mats[path]);
        LeavesIff(giver, path, arts[path]);
      }
    }
    if Compatible(mats, arts) {
      forall path, d1, d2 | Takes(taker.attestations, path, d1) && Leaves(giver.attestations, path, d2)
        ensures Agree(d1, d2)
      {
        TakesIff(taker.attestations, path, d1);
        LeavesIff(giver, path, d2);
      }
    }
  }

  /** A step holds if and only if one of its collections fits the first one listed for each step it takes artifacts from. */
  lemma StepHoldsIff(step: Step, results: map<string, StepResult>)
    ensures StepHolds(step, results) <==>
      step.name in results && exists c :: c in results[step.name].passed && FitsSuppliers(step, c, results)
  {
    forall c ensures Acceptable(step, c, results) <==> FitsSuppliers(step, c, results) {
      AcceptableIff(step, c, results);
    }
    if step.name in results {
      var passed := results[step.name].passed;
      if c :| c in passed && FitsSuppliers(step, c, results) {
        var i :| 0 <= i < |passed| && passed[i] == c;
        assert Acceptable(step, passed[i], results);
      }
      if i :| 0 <= i < |passed| && Acceptable(step, passed[i], results) {
        assert passed[i] in passed;
      }
    }
  }

  ghost predicate FitsSuppliers(step: Step, c: CollectionResult, results: map<string, StepResult>) {
    forall from :: from in step.artifactsFrom ==> FitsFirstOf(c, from, results)
  }

  ghost predicate FitsFirstOf(c: CollectionResult, from: string, results: map<string, StepResult>) {
    && from in results && results[from].passed != []
    && FitsTogether(c.env.collection, results[from].passed[0].env.collection)
  }

  lemma AcceptableIff(step: Step, c: CollectionResult, results: map<string, StepResult>)
    ensures Acceptable(step, c, results) <==> FitsSuppliers(step, c, results)
  {
    var mats := MaterialsOf(c.env.collection.attestations);
    forall from ensures FirstAgrees(mats, from, results) <==> FitsFirstOf(c, from, results) {
      if from in results && results[from].passed != [] {
        FitsTogetherIff(c.env.collection, results[from].passed[0].env.collection);
      }
    }
    if Acceptable(step, c, results) {
      forall from | from in step.artifactsFrom ensures FitsFirstOf(c, from, results) {
        var k :| 0 <= k < |step.artifactsFrom| && step.artifactsFrom[k] == from;
        assert FirstAgrees(mats, step.artifactsFrom[k], results);
      }
    }
    if FitsSuppliers(step, c, results) {
      forall k | 0 <= k < |step.artifactsFrom| ensures FirstAgrees(mats, step.artifactsFrom[k], results) {
        assert step.artifactsFrom[k] in step.artifactsFrom;
      }
    }
  }

  // ---- what a positive verdict guarantees -----------------------------------------------------

  /** The functionary has the verifier's key ID, or its constraint is one that the verifier's certificate fits. */
  ghost predicate Entitled(pki: Pki, bundles: map<string, TrustBundle>, f: Functionary, v: Verifier) {
    && v.keyId.Some?
    && (|| (f.publicKeyId != "" && v.keyId == Some(f.publicKeyId))
        || (v.X509Verifier? && f.certConstraint.roots != [] && CertificateFits(pki, bundles, f.certConstraint, v)))
  }

  /** One of the step's functionaries has signed the envelope: its type and payload, under a verifier entitled to it. */
  ghost predicate SignedFor(st: Store, pki: Pki, bundles: map<string, TrustBundle>, step: Step, e: Envelope) {
    exists f, v, sig ::
      && f in step.functionaries && Entitled(pki, bundles, f, v)
      && sig in e.signatures && Vouches(st.crypto, st.verifyOpts, PreauthEncode(e.payloadType, e.payload), sig, v)
  }

  /** Collection `ce` was loaded for step `s`, and is listed for it, signed for it, met, and fits what it was made from. */
  ghost predicate Guaranteed(st: Store, p: Policy, pki: Pki, bundles: map<string, TrustBundle>,
                             rego: (Option<Attestor>, seq<RegoPolicy>) -> bool, results: map<string, StepResult>, s: string,
                             c: CollectionResult)
    requires s in p.steps
  {
    && s in results && c in results[s].passed && c.env in st.loads && c.env.collection.name == s
    && SignedFor(st, pki, bundles, p.steps[s], c.env.envelope)
    && (forall e :: e in p.steps[s].attestations ==> IsMet(rego, c.env.collection.attestations, e))
    && FitsSuppliers(p.steps[s], c, results)
  }

  lemma EntitledIff(rules: Rules, fs: seq<Functionary>, v: Verifier)
    ensures MatchesSome(rules, fs, v) <==> exists f :: f in fs && Entitled(rules.pki, rules.bundles, f, v)
  {
    forall f ensures Accepts(rules, f, v) <==> Entitled(rules.pki, rules.bundles, f, v) {
      FunctionaryAcceptsIff(rules.pki, rules.bundles, f, v);
    }
    if f :| f in fs && Entitled(rules.pki, rules.bundles, f, v) {
      var i :| 0 <= i < |fs| && fs[i] == f;
      assert Accepts(rules, fs[i], v);
    }
    if i :| 0 <= i < |fs| && Accepts(rules, fs[i], v) {
      assert fs[i] in fs;
    }
  }

  lemma StoreFillsInNoFunctionaries(st: Store, p: Policy, rules: Rules, seeds: seq<string>, log: seq<Visit>)
    requires IsRun(p, rules, StoreSearch(st), seeds, log)
    ensures NoPriorFunctionaries(log)
  {
    StoreSearchAnswers(st, p, rules, seeds, log);
    forall i, s | 0 <= i < |log| && s in log[i].reply ensures s.validFunctionaries == [] {
      assert Answered(st, p, log, i);
      var k :| 0 <= k < |log[i].reply| && log[i].reply[k] == s;
      assert Lifts(st.crypto, st.verifyOpts, FoundBy(st, p, log[i])[k], log[i].reply[k]);
    }
  }

  /** A statement that a visit to the store returned is that of a loaded envelope with the step's name. */
  lemma StatementIsLoaded(st: Store, p: Policy, rules: Rules, seeds: seq<string>, log: seq<Visit>, i: nat,
                          statement: CollectionResult)
    requires IsRun(p, rules, StoreSearch(st), seeds, log) && i < |log| && statement in log[i].reply
    ensures statement.env in st.loads && statement.env.collection.name == log[i].stepName
    ensures Lifts(st.crypto, st.verifyOpts, statement.env, statement)
  {
    StoreSearchAnswers(st, p, rules, seeds, log);
    assert Answered(st, p, log, i);
    var k :| 0 <= k < |log[i].reply| && log[i].reply[k] == statement;
    var found := FoundBy(st, p, log[i]);
    assert Lifts(st.crypto, st.verifyOpts, found[k], log[i].reply[k]) && found[k] in found;
    FoundMembers(st, p, log[i]);
  }

  lemma StatementIsSigned(st: Store, rules: Rules, step: Step, statement: CollectionResult, c: CollectionResult)
    requires Lifts(st.crypto, st.verifyOpts, c.env, statement) && CameFrom(rules, step, statement, c)
    ensures SignedFor(st, rules.pki, rules.bundles, step, c.env.envelope)
  {
    SignedMeansVerifiedSignature(rules, step, st.crypto, st.verifyOpts, statement, c);
    var v, sig :|
      && MatchesSome(rules, step.functionaries, v) && sig in c.env.envelope.signatures
      && Vouches(st.crypto, st.verifyOpts, PaeOf(c.env), sig, v);
    EntitledIff(rules, step.functionaries, v);
  }

  lemma RepresentedIsGuaranteed(st: Store, p: Policy, rules: Rules, seeds: seq<string>, log: seq<Visit>,
                                results: map<string, StepResult>, s: string, c: CollectionResult)
    requires IsRun(p, rules, StoreSearch(st), seeds, log) && s in p.steps
    requires Represents(p, rules, log, results, s, c)
    ensures Guaranteed(st, p, rules.pki, rules.bundles, rules.rego, results, s, c)
  {
    var i: nat :| FoundAt(p, rules, log, i, s, c);
    var statement :| statement in log[i].reply && CameFrom(rules, p.steps[s], statement, c);
    StatementIsLoaded(st, p, rules, seeds, log, i, statement);
    StatementIsSigned(st, rules, p.steps[s], statement, c);
    AcceptableIff(p.steps[s], c, results);
    forall e | e in p.steps[s].attestations ensures IsMet(rules.rego, c.env.collection.attestations, e) {
      var k :| 0 <= k < |p.steps[s].attestations| && p.steps[s].attestations[k] == e;
    }
  }

  /**
   * Verifying a policy against the store. A positive verdict means that the policy had not expired and its trust bundles
   * parsed, and guarantees a collection for every step.
   */
  method VerifyStored(p: Policy, pki: Pki, rego: (Option<Attestor>, seq<RegoPolicy>) -> bool, st: Store,
                      opts: VerifyOptions)
    returns (v: Verdict)
    requires WellFormed(p)
    ensures v.pass ==>
      && v.error.None? && opts.hasSource && opts.subjectDigests != [] && opts.searchDepth >= 1
      && !p.expired && p.trustBundles.Some?
      && forall s :: s in p.steps ==>
           exists c :: Guaranteed(st, p, pki, p.trustBundles.value, rego, v.results, s, c)
  {
    var search := StoreSearch(st);
    ghost var trace: Trace;
    v, trace := PolicyEngine.Verify(p, pki, rego, search, opts);
    if v.pass {
      ghost var rules := Rules(pki, p.trustBundles.value, rego);
      StoreFillsInNoFunctionaries(st, p, rules, opts.subjectDigests, trace.log);
      PositiveVerdictIsSound(p, rules, search, opts, trace, v);
      forall s | s in p.steps
        ensures exists c :: Guaranteed(st, p, pki, p.trustBundles.value, rego, v.results, s, c)
      {
        ghost var c :| Represents(p, rules, trace.log, v.results, s, c);
        RepresentedIsGuaranteed(st, p, rules, opts.subjectDigests, trace.log, v.results, s, c);
      }
    }
  }

  // ---- what is enough for one -----------------------------------------------------------------

  /** One of the configured verifiers accepts a signature without a certificate, and a functionary has its key ID. */
  ghost predicate PlainlySigned(st: Store, step: Step, e: Envelope) {
    exists f, v: Verifier, sig ::
      && f in step.functionaries && f.publicKeyId != "" && v.keyId == Some(f.publicKeyId)
      && sig in e.signatures && sig.certificate == [] && Some(v) in st.verifyOpts.verifiers
      && st.crypto.accepts(v, PreauthEncode(e.payloadType, e.payload), sig.sig)
  }

  /** A loaded collection for the step that the seeds lead to, signed for it, and with everything expected of it. */
  ghost predicate Ready(st: Store, rego: (Option<Attestor>, seq<RegoPolicy>) -> bool, seeds: seq<string>, step: Step,
                        ce: CollectionEnvelope)
  {
    && ce in st.loads && ce.collection.name == step.name && HasSubject(ce, seeds)
    && PlainlySigned(st, step, ce.envelope)
    && (forall e :: e in step.attestations ==>
          HasAttestor(ce, e.typ) && IsMet(rego, ce.collection.attestations, e))
  }

  lemma PlainlySignedIsAdmitted(st: Store, rules: Rules, step: Step, ce: CollectionEnvelope)
    requires st.verifyOpts.threshold == 1 && PlainlySigned(st, step, ce.envelope)
    ensures LiftOf(st, ce).errors == [] && Admitted(rules, step, LiftOf(st, ce))
  {
    var f, v: Verifier, sig :|
      && f in step.functionaries && f.publicKeyId != "" && v.keyId == Some(f.publicKeyId)
      && sig in ce.envelope.signatures && sig.certificate == [] && Some(v) in st.verifyOpts.verifiers
      && st.crypto.accepts(v, PreauthEncode(ce.envelope.payloadType, ce.envelope.payload), sig.sig);
    var sigs := ce.envelope.signatures;
    AcceptingVerifierCounts(st.crypto, st.verifyOpts, PaeOf(ce), sigs, sig, v);
    var r := LiftOf(st, ce);
    assert v in r.verifiers;
    assert Entitled(rules.pki, rules.bundles, f, v);
    EntitledIff(rules, step.functionaries, v);
    var j :| 0 <= j < |r.verifiers| && r.verifiers[j] == v;
    assert MatchesSome(rules, step.functionaries, r.verifiers[j]);
    AdmittedIff(rules, step, r);
  }

  lemma ReadyIsHit(st: Store, p: Policy, rules: Rules, seeds: seq<string>, s: string, ce: CollectionEnvelope)
    requires WellFormed(p) && s in p.steps && st.verifyOpts.threshold == 1 && Ready(st, rules.rego, seeds, p.steps[s], ce)
    ensures Hit(st, p, rules, s, ce, Elements(seeds))
  {
    var step := p.steps[s];
    PlainlySignedIsAdmitted(st, rules, step, ce);
    assert Complete(rules, step, Listed(st, rules, step, ce)) by {
      assert forall i :: 0 <= i < |step.attestations| ==> step.attestations[i] in step.attestations;
    }
    assert CameFrom(rules, step, LiftOf(st, ce), Listed(st, rules, step, ce));
    TypesAreAnswered(step, ce);
    var i, k :| 0 <= i < |ce.statement.subjects| && k in ce.statement.subjects[i].digest
      && ce.statement.subjects[i].digest[k] in seeds;
    assert ce.statement.subjects[i].digest[k] in SubjectDigests(ce);
  }

  lemma TypesAreAnswered(step: Step, ce: CollectionEnvelope)
    requires forall e :: e in step.attestations ==> HasAttestor(ce, e.typ)
    ensures forall t :: t in TypesOf(step) ==> t in AttestorTypes(ce)
  {
    forall t | t in TypesOf(step) ensures t in AttestorTypes(ce) {
      var k :| 0 <= k < |step.attestations| && step.attestations[k].typ == t;
      assert step.attestations[k] in step.attestations;
      var i :| 0 <= i < |ce.collection.attestations| && ce.collection.attestations[i].attestor.typeName == t;
    }
  }

  /** Whatever the order of the steps, a policy without suppliers passes when there is a ready collection for every step. */
  lemma ReadyPolicyPasses(st: Store, p: Policy, rules: Rules, opts: VerifyOptions, t: Trace, v: Verdict)
    requires WellFormed(p) && st.verifyOpts.threshold == 1
    requires forall s :: s in p.steps ==> p.steps[s].artifactsFrom == []
    requires forall s :: s in p.steps ==> exists ce :: Ready(st, rules.rego, opts.subjectDigests, p.steps[s], ce)
    requires Explains(p, rules, StoreSearch(st), opts, t, v)
    ensures v.pass
  {
    forall s | s in p.steps ensures PassedIn(p, rules, t.log, s) != [] {
      var ce :| Ready(st, rules.rego, opts.subjectDigests, p.steps[s], ce);
      ReadyIsFound(st, p, rules, opts.subjectDigests, opts.searchDepth, t.log, s, ce);
    }
    assert Verdicts(p, rules, StoreSearch(st), opts, t, v.pass);
    VerdictIsFindsAll(p, rules, StoreSearch(st), opts, t, v.pass);
  }

  lemma ReadyIsFound(st: Store, p: Policy, rules: Rules, seeds: seq<string>, depth: nat, log: seq<Visit>, s: string,
                     ce: CollectionEnvelope)
    requires WellFormed(p) && s in p.steps && st.verifyOpts.threshold == 1 && Ready(st, rules.rego, seeds, p.steps[s], ce)
    requires IsRun(p, rules, StoreSearch(st), seeds, log) && Covers(p, depth, log) && depth >= 1
    ensures PassedIn(p, rules, log, s) != []
  {
    StoreSearchAnswers(st, p, rules, seeds, log);
    ReadyIsHit(st, p, rules, seeds, s, ce);
    assert Visited(log, 0, s);
    var i :| 0 <= i < |log| && log[i].round == 0 && log[i].stepName == s;
    SeedHitIsFound(st, p, rules, seeds, log, i, ce);
  }

  lemma SeedHitIsFound(st: Store, p: Policy, rules: Rules, seeds: seq<string>, log: seq<Visit>, i: nat,
                       ce: CollectionEnvelope)
    requires IsRun(p, rules, StoreSearch(st), seeds, log) && FromStore(st, p, log) && i < |log|
    requires Hit(st, p, rules, log[i].stepName, ce, Elements(seeds))
    ensures PassedIn(p, rules, log, log[i].stepName) != []
  {
    DigestsGrow(seeds, log, 0, i);
    assert log[..0] == [];
    assert Hit(st, p, rules, log[i].stepName, ce, DigestsAt(seeds, log, i));
    HitAtVisitIsListed(st, p, rules, StoreSearch(st), seeds, log, i, log[i].stepName, ce);
  }
}
