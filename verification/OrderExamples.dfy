// Policies and stores for which the order of a Go map decides the verdict.
module OrderExamples {
  import opened Options
  import opened Digests
  import opened Collections
  import opened Envelopes
  import opened Sources
  import opened Functionaries
  import opened Steps
  import opened StepTheorems
  import opened PolicyEngine
  import opened Soundness
  import opened BackRefSearch
  import opened VerdictOrder
  import opened FirstFound

  // ---- signed collections and plain steps -----------------------------------------------------

  function SignedBy(name: string, subject: string, attestations: seq<CollectionAttestation>): CollectionEnvelope {
    CollectionEnvelope(
      Envelope([], [], [Signature("k", [], [], [], [])]),
      Statement(COLLECTION_TYPE, [Subject("", map["sha256" := subject])]),
      Collection(name, attestations),
      name + "/" + subject)
  }

  function RefersTo(digest: string): CollectionAttestation {
    var refs := map["parent" := map[DigestValue(Sha256, false, false) := digest]];
    CollectionAttestation("t", Attestor("t", None, None, Some(refs), ""))
  }

  /** Signed for by one key, expecting no attestations. */
  function PlainStep(name: string, artifactsFrom: seq<string>): Step {
    Step(name, [Functionary(CertConstraint("", [], [], [], [], [], ""), "k")], [], artifactsFrom)
  }

  const KEY: Verifier := KeyVerifier([], Some("k"))

  const ONE_KEY: VerificationOptions := VerificationOptions([], [], [Some(KEY)], 1, [])

  ghost predicate KeyAcceptsAll(crypto: Crypto) {
    forall pae, sig :: crypto.accepts(KEY, pae, sig)
  }

  lemma SignedIsVerified(crypto: Crypto, ce: CollectionEnvelope)
    requires KeyAcceptsAll(crypto) && ce.envelope.signatures == [Signature("k", [], [], [], [])]
    ensures VerifiersFor(crypto, ONE_KEY, ce) == [KEY]
  {
    var opts, sig := ONE_KEY, ce.envelope.signatures[0];
    assert opts.verifiers[..0] == [] && ce.envelope.signatures[..0] == [];
    assert crypto.accepts(KEY, PaeOf(ce), sig.sig);
    assert Accepting(crypto, opts.verifiers[..0], PaeOf(ce), sig) == [];
    assert Accepting(crypto, opts.verifiers, PaeOf(ce), sig) == [KEY];
    assert AcceptedFor(crypto, opts, PaeOf(ce), sig) == [KEY];
    assert Accepted(crypto, opts, PaeOf(ce), ce.envelope.signatures[..0]) == [];
  }

  /** A signed collection qualifies for the plain step it is named after. */
  lemma SignedQualifies(st: Store, p: Policy, rules: Rules, s: string, from: seq<string>, ce: CollectionEnvelope)
    requires KeyAcceptsAll(st.crypto) && st.verifyOpts == ONE_KEY
    requires s in p.steps && p.steps[s] == PlainStep(s, from)
    requires ce.envelope.signatures == [Signature("k", [], [], [], [])] && ce.collection.name == s
    ensures Qualifies(st, p, rules, s, ce)
  {
    SignedIsVerified(st.crypto, ce);
    PlainStepAdmits(rules, s, from, LiftOf(st, ce));
  }

  lemma PlainStepAdmits(rules: Rules, s: string, from: seq<string>, r: CollectionResult)
    requires r.verifiers == [KEY] && r.errors == [] && r.env.collection.name == s
    ensures CameFrom(rules, PlainStep(s, from), r, Settled(rules, PlainStep(s, from), r))
  {
    var step := PlainStep(s, from);
    assert Accepts(rules, step.functionaries[0], KEY);
    assert MatchesSome(rules, step.functionaries, r.verifiers[0]);
    AdmittedIff(rules, step, r);
  }

  lemma SubjectOf(name: string, subject: string, attestations: seq<CollectionAttestation>)
    ensures SubjectDigests(SignedBy(name, subject, attestations)) == {subject}
  {
    var ce := SignedBy(name, subject, attestations);
    assert "sha256" in ce.statement.subjects[0].digest;
  }

  lemma BackRefOf(name: string, digest: string)
    ensures BackRefDigests(Collection(name, [RefersTo(digest)])) == {digest}
  {
    var att, h := RefersTo(digest), DigestValue(Sha256, false, false);
    var atts := [att];
    assert atts[..0] == [];
    TagIsReadBack(att);
    assert Tag(att, "parent") in TaggedBackRefs(att) && TaggedBackRefs(att)[Tag(att, "parent")][h] == digest;
    assert Tag(att, "parent") in BackRefsOf(atts) && h in BackRefsOf(atts)[Tag(att, "parent")];
  }

  // ---- a chain of two steps -------------------------------------------------------------------

  /** Collection "a" is about digest "x" and refers back to "y", which collection "b" is about. */
  function ChainStore(crypto: Crypto): Store {
    Store(crypto, ONE_KEY, [SignedBy("a", "x", [RefersTo("y")]), SignedBy("b", "y", [])])
  }

  const CHAIN_POLICY: Policy := Policy(
    false, Some(map[]), map["a" := PlainStep("a", []), "b" := PlainStep("b", [])])

  lemma ChainStarts(crypto: Crypto, rules: Rules)
    requires KeyAcceptsAll(crypto)
    ensures Hit(ChainStore(crypto), CHAIN_POLICY, rules, "a", SignedBy("a", "x", [RefersTo("y")]), Elements(["x"]))
  {
    var ea := SignedBy("a", "x", [RefersTo("y")]);
    SubjectOf("a", "x", ea.collection.attestations);
    SignedQualifies(ChainStore(crypto), CHAIN_POLICY, rules, "a", [], ea);
    assert "x" in ["x"] && ChainStore(crypto).loads[0] == ea;
  }

  lemma ChainContinues(crypto: Crypto, rules: Rules)
    requires KeyAcceptsAll(crypto)
    ensures Hit(ChainStore(crypto), CHAIN_POLICY, rules, "b", SignedBy("b", "y", []),
                BackRefDigests(SignedBy("a", "x", [RefersTo("y")]).collection))
  {
    SubjectOf("b", "y", []);
    BackRefOf("a", "y");
    SignedQualifies(ChainStore(crypto), CHAIN_POLICY, rules, "b", [], SignedBy("b", "y", []));
    assert ChainStore(crypto).loads[1] == SignedBy("b", "y", []);
  }

  lemma ChainMisses(crypto: Crypto, rules: Rules)
    ensures NotLedTo(ChainStore(crypto), CHAIN_POLICY, rules, "b", ["x"])
  {
    SubjectOf("b", "y", []);
    forall ce ensures !Hit(ChainStore(crypto), CHAIN_POLICY, rules, "b", ce, Elements(["x"])) {
      if ce in ChainStore(crypto).loads && ce.collection.name == "b" {
        assert ce == SignedBy("b", "y", []);
      }
    }
  }

  lemma ChainIsWellFormed()
    ensures WellFormed(CHAIN_POLICY) && TwoSteps(CHAIN_POLICY, "a", "b")
  {
    assert CHAIN_POLICY.steps["a"].name == "a" && CHAIN_POLICY.steps["b"].name == "b";
    assert |"a"| == 1 && |"b"| == 1;
    assert CHAIN_POLICY.steps.Keys == {"a", "b"};
    forall k | k in CHAIN_POLICY.steps ensures CHAIN_POLICY.steps[k].name == k && k != "" {
      assert k == "a" || k == "b";
    }
  }

  /** So there are a policy and a store for which the order in which Go ranges over a map decides the verdict. */
  lemma ChainExists(crypto: Crypto, rules: Rules)
    requires KeyAcceptsAll(crypto)
    ensures Chained(ChainStore(crypto), CHAIN_POLICY, rules, ["x"], "a", "b",
                    SignedBy("a", "x", [RefersTo("y")]), SignedBy("b", "y", []))
  {
    ChainIsWellFormed();
    ChainStarts(crypto, rules);
    ChainContinues(crypto, rules);
    ChainMisses(crypto, rules);
  }

  /** Hops settle once a digest leads to every envelope there is. */
  lemma TouchingAllSettles(st: Store, p: Policy, rules: Rules, seeds: seq<string>, d: nat)
    requires forall ce :: ce in st.loads ==> Touches(ce, Layer(st, p, rules, seeds, d))
    ensures Settles(st, p, rules, seeds, d)
  {
  }

  lemma ChainTouched(crypto: Crypto, rules: Rules, ce: CollectionEnvelope)
    requires KeyAcceptsAll(crypto) && ce in ChainStore(crypto).loads
    ensures Touches(ce, Layer(ChainStore(crypto), CHAIN_POLICY, rules, ["x"], 1))
  {
    SubjectOf("a", "x", [RefersTo("y")]);
    SubjectOf("b", "y", []);
    ChainLayer(crypto, rules);
    assert ce == SignedBy("a", "x", [RefersTo("y")]) || ce == SignedBy("b", "y", []);
    assert "x" in SubjectDigests(ce) || "y" in SubjectDigests(ce);
  }

  /** With two rounds the hops of the same policy settle. */
  lemma ChainSettles(crypto: Crypto, rules: Rules)
    requires KeyAcceptsAll(crypto)
    ensures Settles(ChainStore(crypto), CHAIN_POLICY, rules, ["x"], 1)
  {
    forall ce | ce in ChainStore(crypto).loads
      ensures Touches(ce, Layer(ChainStore(crypto), CHAIN_POLICY, rules, ["x"], 1))
    {
      ChainTouched(crypto, rules, ce);
    }
    TouchingAllSettles(ChainStore(crypto), CHAIN_POLICY, rules, ["x"], 1);
  }

  /** So two rounds are enough for it: whatever the order, the verdict is positive. */
  lemma TwoRoundsAreEnough(crypto: Crypto, rules: Rules, opts: VerifyOptions, t: Trace, v: Verdict)
    requires KeyAcceptsAll(crypto) && opts.searchDepth == 2 && opts.subjectDigests == ["x"]
    requires Explains(CHAIN_POLICY, rules, StoreSearch(ChainStore(crypto)), opts, t, v)
    ensures v.pass
  {
    ChainIsWellFormed();
    VerdictIff(CHAIN_POLICY, rules, StoreSearch(ChainStore(crypto)), opts, t);
    forall s | s in CHAIN_POLICY.steps ensures StepHolds(CHAIN_POLICY.steps[s], ResultsOf(CHAIN_POLICY, rules, t.log)) {
      ChainStepListed(crypto, rules, t.log, s);
      StepWithoutSuppliers(CHAIN_POLICY.steps[s], ResultsOf(CHAIN_POLICY, rules, t.log));
    }
  }

  lemma ChainStepListed(crypto: Crypto, rules: Rules, log: seq<Visit>, s: string)
    requires KeyAcceptsAll(crypto) && s in CHAIN_POLICY.steps
    requires IsRun(CHAIN_POLICY, rules, StoreSearch(ChainStore(crypto)), ["x"], log) && Covers(CHAIN_POLICY, 2, log)
    ensures s in ResultsOf(CHAIN_POLICY, rules, log) && ResultsOf(CHAIN_POLICY, rules, log)[s].passed != []
  {
    var st := ChainStore(crypto);
    ChainIsWellFormed();
    StoreSearchAnswers(st, CHAIN_POLICY, rules, ["x"], log);
    ChainSettles(crypto, rules);
    SettledStep(st, CHAIN_POLICY, rules, StoreSearch(st), ["x"], 1, log, s);
    ChainHitOf(crypto, rules, s);
  }

  lemma ChainHitOf(crypto: Crypto, rules: Rules, s: string)
    requires KeyAcceptsAll(crypto) && s in CHAIN_POLICY.steps
    ensures exists c :: ListedHit(ChainStore(crypto), CHAIN_POLICY, rules, s, c,
                                  Layer(ChainStore(crypto), CHAIN_POLICY, rules, ["x"], 1))
  {
    var st := ChainStore(crypto);
    var ce := if s == "a" then SignedBy("a", "x", [RefersTo("y")]) else SignedBy("b", "y", []);
    assert ce == st.loads[if s == "a" then 0 else 1];
    ChainTouched(crypto, rules, ce);
    SignedQualifies(st, CHAIN_POLICY, rules, s, [], ce);
    assert ListedHit(st, CHAIN_POLICY, rules, s, Listed(st, rules, CHAIN_POLICY.steps[s], ce),
                     Layer(st, CHAIN_POLICY, rules, ["x"], 1));
  }

  lemma ChainLayer(crypto: Crypto, rules: Rules)
    ensures "x" in Layer(ChainStore(crypto), CHAIN_POLICY, rules, ["x"], 1)
    ensures KeyAcceptsAll(crypto) ==> "y" in Layer(ChainStore(crypto), CHAIN_POLICY, rules, ["x"], 1)
  {
    var st, ea := ChainStore(crypto), SignedBy("a", "x", [RefersTo("y")]);
    assert "x" in Elements(["x"]);
    if KeyAcceptsAll(crypto) {
      ChainStarts(crypto, rules);
      BackRefOf("a", "y");
      ReachedIff(st, CHAIN_POLICY, rules, Layer(st, CHAIN_POLICY, rules, ["x"], 0), "y");
    }
  }

  // ---- a supplier with two collections --------------------------------------------------------

  const SHA256: DigestValue := DigestValue(Sha256, false, false)

  function Uses(digest: string): CollectionAttestation {
    CollectionAttestation("m", Attestor("m", Some(map["artifact" := map[SHA256 := digest]]), None, None, ""))
  }

  function Makes(digest: string): CollectionAttestation {
    CollectionAttestation(
      "p", Attestor("p", None, Some(map["artifact" := Product("", map[SHA256 := digest])]), None, ""))
  }

  const GOOD: CollectionEnvelope := SignedBy("f", "x", [Makes("1")])
  const BAD: CollectionEnvelope := SignedBy("f", "y", [Makes("2")])
  const TAKER: CollectionEnvelope := SignedBy("t", "s", [Uses("1")])
  const TO_GOOD: CollectionEnvelope := SignedBy("g", "s", [RefersTo("x")])
  const TO_BAD: CollectionEnvelope := SignedBy("h", "s", [RefersTo("y")])

  /** From digest "s", one step leads to the collection that "t" was built from and another one to its rival. */
  function ForkStore(crypto: Crypto): Store {
    Store(crypto, ONE_KEY, [GOOD, BAD, TAKER, TO_GOOD, TO_BAD])
  }

  const FORK_POLICY: Policy := Policy(
    false, Some(map[]),
    map["f" := PlainStep("f", []), "g" := PlainStep("g", []), "h" := PlainStep("h", []), "t" := PlainStep("t", ["f"])])

  lemma ForkIsWellFormed()
    ensures WellFormed(FORK_POLICY)
    ensures FORK_POLICY.steps.Keys == {"f", "g", "h", "t"}
    ensures FORK_POLICY.steps["t"] == PlainStep("t", ["f"])
    ensures forall s :: s in FORK_POLICY.steps && s != "t" ==> FORK_POLICY.steps[s] == PlainStep(s, [])
  {
    assert |"f"| == 1 && |"g"| == 1 && |"h"| == 1 && |"t"| == 1;
    assert FORK_POLICY.steps.Keys == {"f", "g", "h", "t"};
    forall k | k in FORK_POLICY.steps ensures FORK_POLICY.steps[k].name == k && k != "" {
      assert k == "f" || k == "g" || k == "h" || k == "t";
    }
  }

  lemma ForkLoads(crypto: Crypto, ce: CollectionEnvelope)
    ensures ce in ForkStore(crypto).loads <==> ce == GOOD || ce == BAD || ce == TAKER || ce == TO_GOOD || ce == TO_BAD
    ensures GOOD.collection.name == BAD.collection.name == "f" && TAKER.collection.name == "t"
    ensures TO_GOOD.collection.name == "g" && TO_BAD.collection.name == "h"
  {
    var loads := ForkStore(crypto).loads;
    assert loads[0] == GOOD && loads[1] == BAD && loads[2] == TAKER && loads[3] == TO_GOOD && loads[4] == TO_BAD;
  }

  lemma ForkSubjects()
    ensures SubjectDigests(GOOD) == {"x"} && SubjectDigests(BAD) == {"y"} && SubjectDigests(TAKER) == {"s"}
    ensures SubjectDigests(TO_GOOD) == {"s"} && SubjectDigests(TO_BAD) == {"s"}
    ensures BackRefDigests(TO_GOOD.collection) == {"x"} && BackRefDigests(TO_BAD.collection) == {"y"}
  {
    SubjectOf("f", "x", [Makes("1")]);
    SubjectOf("f", "y", [Makes("2")]);
    SubjectOf("t", "s", [Uses("1")]);
    SubjectOf("g", "s", [RefersTo("x")]);
    SubjectOf("h", "s", [RefersTo("y")]);
    BackRefOf("g", "x");
    BackRefOf("h", "y");
  }

  /** A loaded envelope is a hit of its step exactly when its subject is among the digests. */
  lemma ForkHitIff(crypto: Crypto, rules: Rules, s: string, ce: CollectionEnvelope, d: string, digests: set<string>)
    requires KeyAcceptsAll(crypto) && s in FORK_POLICY.steps && ce in ForkStore(crypto).loads
    requires ce.collection.name == s && SubjectDigests(ce) == {d}
    ensures Hit(ForkStore(crypto), FORK_POLICY, rules, s, ce, digests) <==> d in digests
  {
    ForkQualifies(crypto, rules, s, ce);
    assert d in SubjectDigests(ce);
  }

  lemma ForkQualifies(crypto: Crypto, rules: Rules, s: string, ce: CollectionEnvelope)
    requires KeyAcceptsAll(crypto) && s in FORK_POLICY.steps && ce in ForkStore(crypto).loads && ce.collection.name == s
    ensures Qualifies(ForkStore(crypto), FORK_POLICY, rules, s, ce)
  {
    ForkIsWellFormed();
    ForkLoads(crypto, ce);
    SignedQualifies(ForkStore(crypto), FORK_POLICY, rules, s, FORK_POLICY.steps[s].artifactsFrom, ce);
  }

  lemma ForkStarts(crypto: Crypto, rules: Rules, s: string, ce: CollectionEnvelope)
    requires KeyAcceptsAll(crypto) && s in FORK_POLICY.steps && ce in ForkStore(crypto).loads
    requires ce.collection.name == s && SubjectDigests(ce) == {"s"}
    ensures OnlyHit(ForkStore(crypto), FORK_POLICY, rules, s, ce, Elements(["s"]))
  {
    assert Elements(["s"]) == {"s", "s"};
    ForkOnlyHit(crypto, rules, s, ce, "s", Elements(["s"]));
  }

  lemma ForkGoesOn(crypto: Crypto, rules: Rules, from: CollectionEnvelope, ce: CollectionEnvelope, d: string)
    requires KeyAcceptsAll(crypto) && "f" in FORK_POLICY.steps && ce in ForkStore(crypto).loads
    requires ce.collection.name == "f" && SubjectDigests(ce) == {d} && BackRefDigests(from.collection) == {d}
    ensures OnlyHit(ForkStore(crypto), FORK_POLICY, rules, "f", ce,
                    Elements(["s"]) + BackRefDigests(from.collection))
  {
    assert Elements(["s"]) + BackRefDigests(from.collection) == {"s", d};
    ForkOnlyHit(crypto, rules, "f", ce, d, Elements(["s"]) + BackRefDigests(from.collection));
  }

  /** The collections of the supplier and the two that lead to them. */
  lemma ForkFacts(crypto: Crypto)
    ensures FORK_POLICY.steps.Keys == {"f", "g", "h", "t"}
    ensures forall ce :: ce in {GOOD, BAD, TAKER, TO_GOOD, TO_BAD} ==> ce in ForkStore(crypto).loads
    ensures GOOD.collection.name == BAD.collection.name == "f"
    ensures TO_GOOD.collection.name == "g" && TO_BAD.collection.name == "h"
  {
    ForkIsWellFormed();
    forall ce | ce in {GOOD, BAD, TAKER, TO_GOOD, TO_BAD} ensures ce in ForkStore(crypto).loads {
      ForkLoads(crypto, ce);
    }
  }

  lemma ForkLeadsToGood(crypto: Crypto, rules: Rules)
    requires KeyAcceptsAll(crypto)
    ensures LeadsTo(ForkStore(crypto), FORK_POLICY, rules, ["s"], "g", "f", TO_GOOD, GOOD)
  {
    ForkNames();
    ForkFacts(crypto);
    ForkSubjects();
    ForkStarts(crypto, rules, "g", TO_GOOD);
    ForkGoesOn(crypto, rules, TO_GOOD, GOOD, "x");
  }

  lemma ForkLeadsToBad(crypto: Crypto, rules: Rules)
    requires KeyAcceptsAll(crypto)
    ensures LeadsTo(ForkStore(crypto), FORK_POLICY, rules, ["s"], "h", "f", TO_BAD, BAD)
  {
    ForkNames();
    ForkFacts(crypto);
    ForkSubjects();
    ForkStarts(crypto, rules, "h", TO_BAD);
    ForkGoesOn(crypto, rules, TO_BAD, BAD, "y");
  }

  /** No other envelope of the step has its subject among the digests. */
  lemma ForkOnlyHit(crypto: Crypto, rules: Rules, s: string, ce: CollectionEnvelope, d: string, digests: set<string>)
    requires KeyAcceptsAll(crypto) && s in FORK_POLICY.steps && ce in ForkStore(crypto).loads
    requires ce.collection.name == s && SubjectDigests(ce) == {d} && digests == {"s", d}
    ensures OnlyHit(ForkStore(crypto), FORK_POLICY, rules, s, ce, digests)
  {
    ForkHitIff(crypto, rules, s, ce, d, digests);
    forall other | Hit(ForkStore(crypto), FORK_POLICY, rules, s, other, digests) ensures other == ce {
      ForkOther(crypto, ce, d, other, digests);
    }
  }

  lemma ForkOther(crypto: Crypto, ce: CollectionEnvelope, d: string, other: CollectionEnvelope, digests: set<string>)
    requires ce in ForkStore(crypto).loads && other in ForkStore(crypto).loads
    requires other.collection.name == ce.collection.name && Touches(other, digests)
    requires SubjectDigests(ce) == {d} && digests == {"s", d}
    ensures other == ce
  {
    ForkLoads(crypto, ce);
    ForkLoads(crypto, other);
    ForkNames();
    if other != ce {
      ForkRivals(ce, d, other, digests);
    }
  }

  /** Of two collections of one step, the digests that lead to one do not lead to the other. */
  lemma ForkRivals(ce: CollectionEnvelope, d: string, other: CollectionEnvelope, digests: set<string>)
    requires (ce, other) in {(GOOD, BAD), (BAD, GOOD)} && SubjectDigests(ce) == {d} && digests == {"s", d}
    ensures !Touches(other, digests)
  {
    ForkSubjects();
    ForkNames();
    assert d in SubjectDigests(ce);
  }

  lemma ForkNames()
    ensures "f" != "g" && "f" != "h" && "f" != "t" && "g" != "h" && "g" != "t" && "h" != "t"
    ensures "x" != "y" && "x" != "s" && "y" != "s"
  {
    assert "f"[0] == 'f' && "g"[0] == 'g' && "h"[0] == 'h' && "t"[0] == 't';
    assert "x"[0] == 'x' && "y"[0] == 'y' && "s"[0] == 's';
  }

  lemma ForkTakes(crypto: Crypto, rules: Rules)
    requires KeyAcceptsAll(crypto)
    ensures TakesFrom(ForkStore(crypto), FORK_POLICY, rules, ["s"], "t", "f", TAKER)
  {
    ForkIsWellFormed();
    ForkSubjects();
    ForkLoads(crypto, TAKER);
    ForkHitIff(crypto, rules, "t", TAKER, "s", Elements(["s"]));
    assert "s" in ["s"];
    forall other, digests | Hit(ForkStore(crypto), FORK_POLICY, rules, "t", other, digests) ensures other == TAKER {
      ForkLoads(crypto, other);
    }
  }

  lemma ForkSeedsLead(crypto: Crypto, rules: Rules)
    requires KeyAcceptsAll(crypto)
    ensures SeedsLead(ForkStore(crypto), FORK_POLICY, rules, ["s"], "f")
  {
    ForkIsWellFormed();
    forall s | s in FORK_POLICY.steps && s != "f"
      ensures exists ce :: Hit(ForkStore(crypto), FORK_POLICY, rules, s, ce, Elements(["s"]))
    {
      assert s in FORK_POLICY.steps.Keys;
      var ce := if s == "g" then TO_GOOD else if s == "h" then TO_BAD else TAKER;
      ForkStartHit(crypto, rules, s, ce);
    }
  }

  lemma ForkStartHit(crypto: Crypto, rules: Rules, s: string, ce: CollectionEnvelope)
    requires KeyAcceptsAll(crypto) && (s, ce) in {("g", TO_GOOD), ("h", TO_BAD), ("t", TAKER)}
    ensures s in FORK_POLICY.steps && Hit(ForkStore(crypto), FORK_POLICY, rules, s, ce, Elements(["s"]))
  {
    ForkIsWellFormed();
    ForkSubjects();
    ForkLoads(crypto, ce);
    assert s in FORK_POLICY.steps.Keys && "s" in ["s"];
    ForkHitIff(crypto, rules, s, ce, "s", Elements(["s"]));
  }

  lemma ForkSettles(crypto: Crypto, rules: Rules)
    requires KeyAcceptsAll(crypto)
    ensures Settles(ForkStore(crypto), FORK_POLICY, rules, ["s"], 1)
  {
    var st := ForkStore(crypto);
    ForkSubjects();
    ForkLayer(crypto, rules, "g", TO_GOOD, "x");
    ForkLayer(crypto, rules, "h", TO_BAD, "y");
    forall ce | ce in st.loads ensures Touches(ce, Layer(st, FORK_POLICY, rules, ["s"], 1)) {
      ForkLoads(crypto, ce);
      assert "s" in SubjectDigests(ce) || "x" in SubjectDigests(ce) || "y" in SubjectDigests(ce);
    }
    TouchingAllSettles(st, FORK_POLICY, rules, ["s"], 1);
  }

  lemma ForkLayer(crypto: Crypto, rules: Rules, s: string, ce: CollectionEnvelope, d: string)
    requires KeyAcceptsAll(crypto) && (s, ce, d) in {("g", TO_GOOD, "x"), ("h", TO_BAD, "y")}
    ensures "s" in Layer(ForkStore(crypto), FORK_POLICY, rules, ["s"], 1)
    ensures d in Layer(ForkStore(crypto), FORK_POLICY, rules, ["s"], 1)
  {
    var st := ForkStore(crypto);
    ForkIsWellFormed();
    ForkSubjects();
    ForkLoads(crypto, ce);
    assert "s" in ["s"];
    ForkHitIff(crypto, rules, s, ce, "s", Elements(["s"]));
    assert s in FORK_POLICY.steps.Keys;
    ReachedIff(st, FORK_POLICY, rules, Layer(st, FORK_POLICY, rules, ["s"], 0), d);
  }

  lemma ForkFits()
    ensures Fits(TAKER, GOOD) && !Fits(TAKER, BAD)
  {
    MadeAndUsed("1");
    MadeAndUsed("2");
    assert "1"[0] != "2"[0];
    var one: DigestSet := map[SHA256 := "1"];
    var two: DigestSet := map[SHA256 := "2"];
    assert SHA256 in one && SHA256 in two && one[SHA256] != two[SHA256];
    assert Agree(one, one) && !Agree(one, two);
    assert "artifact" in MaterialsOf([Uses("1")]) && "artifact" in ArtifactsOf(BAD.collection);
  }

  lemma MadeAndUsed(digest: string)
    ensures MaterialsOf([Uses(digest)]) == map["artifact" := map[SHA256 := digest]]
    ensures ArtifactsOf(Collection("f", [Makes(digest)])) == map["artifact" := map[SHA256 := digest]]
  {
    var made, used := [Makes(digest)], [Uses(digest)];
    assert made[..0] == [] && used[..0] == [];
    assert MaterialsOf(made[..0]) == map[] && ProductsOf(made[..0]) == map[];
  }

  /**
   * So exhaustive search is not enough: for this policy and store both verdicts are possible at a depth at which every
   * order finds all collections.
   */
  lemma ForkDecides(crypto: Crypto, rules: Rules, opts: VerifyOptions) returns (t1: Trace, t2: Trace)
    requires KeyAcceptsAll(crypto) && opts.searchDepth == 2 && opts.subjectDigests == ["s"]
    ensures Settles(ForkStore(crypto), FORK_POLICY, rules, ["s"], 1)
    ensures Verdicts(FORK_POLICY, rules, StoreSearch(ForkStore(crypto)), opts, t1, true)
    ensures Verdicts(FORK_POLICY, rules, StoreSearch(ForkStore(crypto)), opts, t2, false)
  {
    ForkIsWellFormed();
    ForkSettles(crypto, rules);
    ForkLeadsToGood(crypto, rules);
    ForkLeadsToBad(crypto, rules);
    ForkTakes(crypto, rules);
    ForkSeedsLead(crypto, rules);
    ForkFits();
    t1, t2 := FirstFoundDecides(ForkStore(crypto), FORK_POLICY, rules, opts, "g", "h", "f", "t",
                                TO_GOOD, TO_BAD, GOOD, BAD, TAKER);
  }
}
