// The search picks collections by the types their attestors answer (source/memory.go), the validation looks the expected
// attestations up by the types written beside them (policy/step.go). When the two agree, exactly.
module RecordedTypes {
  import opened Options
  import opened Collections
  import opened Envelopes
  import opened Sources
  import opened Steps
  import opened StepTheorems
  import opened PolicyEngine

  /** Every attestation the step expects is found under its recorded type. */
  ghost predicate NoneMissing(step: Step, ce: CollectionEnvelope) {
    forall i :: 0 <= i < |step.attestations| ==> Found(ce.collection.attestations, step.attestations[i].typ).Some?
  }

  /** Whenever the in-memory source would return the collection for a step, no expected attestation is missing. */
  ghost predicate FoundMeansComplete(ce: CollectionEnvelope) {
    forall step: Step, digests ::
      Matches(ce, step.name, digests, TypesOf(step)) ==> NoneMissing(step, ce)
  }

  /** Whenever the collection has everything a step expects, the source returns it for any digest that leads to it. */
  ghost predicate CompleteMeansFound(ce: CollectionEnvelope) {
    forall step: Step, digests ::
      Leads(ce, step, digests) && NoneMissing(step, ce) ==> Matches(ce, step.name, digests, TypesOf(step))
  }

  ghost predicate Leads(ce: CollectionEnvelope, step: Step, digests: seq<string>) {
    ce.collection.name == step.name && exists d :: d in digests && d in SubjectDigests(ce)
  }

  function RecordedTypesOf(ce: CollectionEnvelope): set<string> {
    set i | 0 <= i < |ce.collection.attestations| :: ce.collection.attestations[i].recordedType
  }

  lemma {:induction false} FoundIff(atts: seq<CollectionAttestation>, typ: string)
    ensures Found(atts, typ).Some? <==> exists i :: 0 <= i < |atts| && atts[i].recordedType == typ
  {
    if atts != [] {
      var front, last := atts[..|atts| - 1], |atts| - 1;
      FoundIff(front, typ);
      if i :| 0 <= i < |front| && front[i].recordedType == typ {
        assert atts[i].recordedType == typ;
      }
      if i :| 0 <= i < |atts| && atts[i].recordedType == typ {
        assert i < last ==> front[i].recordedType == typ;
      }
    }
  }

  /** A step that expects one attestation, and nothing else. */
  function Expecting(name: string, typ: string): Step {
    Step(name, [], [ExpectedAttestation(typ, [])], [])
  }

  lemma ExpectingOne(ce: CollectionEnvelope, typ: string, d: string)
    requires d in SubjectDigests(ce)
    ensures Matches(ce, ce.collection.name, [d], TypesOf(Expecting(ce.collection.name, typ))) <==> typ in AttestorTypes(ce)
    ensures NoneMissing(Expecting(ce.collection.name, typ), ce) <==> typ in RecordedTypesOf(ce)
    ensures Leads(ce, Expecting(ce.collection.name, typ), [d])
  {
    var step := Expecting(ce.collection.name, typ);
    assert TypesOf(step) == [typ] && d in [d];
    FoundIff(ce.collection.attestations, typ);
    assert NoneMissing(step, ce) <==> Found(ce.collection.attestations, step.attestations[0].typ).Some?;
  }

  /**
   * A collection that a digest can lead to never lacks an expected attestation once the source has returned it, whatever
   * the step and the digests, if and only if every type its attestors answer is also recorded.
   */
  lemma FoundMeansCompleteIff(ce: CollectionEnvelope)
    requires SubjectDigests(ce) != {}
    ensures FoundMeansComplete(ce) <==> AttestorTypes(ce) <= RecordedTypesOf(ce)
  {
    if AttestorTypes(ce) <= RecordedTypesOf(ce) {
      forall step: Step, digests | Matches(ce, step.name, digests, TypesOf(step)) ensures NoneMissing(step, ce) {
        forall i | 0 <= i < |step.attestations|
          ensures Found(ce.collection.attestations, step.attestations[i].typ).Some?
        {
          assert TypesOf(step)[i] in TypesOf(step);
          FoundIff(ce.collection.attestations, step.attestations[i].typ);
        }
      }
    } else {
      var typ :| typ in AttestorTypes(ce) && typ !in RecordedTypesOf(ce);
      var d :| d in SubjectDigests(ce);
      ExpectingOne(ce, typ, d);
      assert !FoundMeansComplete(ce);
    }
  }

  /** And it is found for every step it is complete for if and only if every recorded type is one its attestors answer. */
  lemma CompleteMeansFoundIff(ce: CollectionEnvelope)
    requires SubjectDigests(ce) != {}
    ensures CompleteMeansFound(ce) <==> RecordedTypesOf(ce) <= AttestorTypes(ce)
  {
    if RecordedTypesOf(ce) <= AttestorTypes(ce) {
      forall step: Step, digests | Leads(ce, step, digests) && NoneMissing(step, ce)
        ensures Matches(ce, step.name, digests, TypesOf(step))
      {
        forall t | t in TypesOf(step) ensures t in AttestorTypes(ce) {
          var i :| 0 <= i < |TypesOf(step)| && TypesOf(step)[i] == t;
          assert Found(ce.collection.attestations, step.attestations[i].typ).Some?;
          FoundIff(ce.collection.attestations, t);
        }
      }
    } else {
      var typ :| typ in RecordedTypesOf(ce) && typ !in AttestorTypes(ce);
      var d :| d in SubjectDigests(ce);
      ExpectingOne(ce, typ, d);
      assert !CompleteMeansFound(ce);
    }
  }

  // ---- an attestor that changes its type ------------------------------------------------------

  const SBOM_TYPE: string := "https://witness.dev/attestations/sbom/v0.1"
  const SPDX_TYPE: string := "https://spdx.dev/Document"

  /** Recorded under the attestor's own name, and answering the type of the document once that has been read. */
  const SBOM: CollectionEnvelope := CollectionEnvelope(
    Envelope([], [], []),
    Statement(COLLECTION_TYPE, [Subject("", map["sha256" := "d"])]),
    Collection("build", [CollectionAttestation(SBOM_TYPE, Attestor(SPDX_TYPE, None, None, None, ""))]),
    "sbom")

  lemma SbomTypes()
    ensures AttestorTypes(SBOM) == {SPDX_TYPE} && RecordedTypesOf(SBOM) == {SBOM_TYPE} && SPDX_TYPE != SBOM_TYPE
    ensures "d" in SubjectDigests(SBOM)
  {
    assert SBOM.collection.attestations[0].attestor.typeName == SPDX_TYPE;
    assert SBOM.collection.attestations[0].recordedType == SBOM_TYPE;
    assert SPDX_TYPE[8] == 's' && SBOM_TYPE[8] == 'w';
    assert "sha256" in SBOM.statement.subjects[0].digest;
  }

  /**
   * The source returns it to a step that expects the type of the document, and the validation rejects it for want of that
   * very attestation.
   */
  lemma SbomIsFoundAndMissing(rules: Rules, r: CollectionResult)
    requires r.env == SBOM
    ensures Scan([SBOM], "build", ["d"], TypesOf(Expecting("build", SPDX_TYPE))) == [SBOM]
    ensures !Complete(rules, Expecting("build", SPDX_TYPE), r)
  {
    SbomTypes();
    ExpectingOne(SBOM, SPDX_TYPE, "d");
    ScanOne(SBOM, "build", ["d"], TypesOf(Expecting("build", SPDX_TYPE)));
    assert !NoneMissing(Expecting("build", SPDX_TYPE), SBOM);
  }

  /** For a step that expects the recorded type it is complete, and the source does not return it. */
  lemma SbomIsCompleteAndNotFound(rules: Rules, r: CollectionResult)
    requires r.env == SBOM && r.errors == []
    ensures Complete(rules, Expecting("build", SBOM_TYPE), r)
    ensures Scan([SBOM], "build", ["d"], TypesOf(Expecting("build", SBOM_TYPE))) == []
  {
    SbomTypes();
    ExpectingOne(SBOM, SBOM_TYPE, "d");
    ScanOne(SBOM, "build", ["d"], TypesOf(Expecting("build", SBOM_TYPE)));
    var step := Expecting("build", SBOM_TYPE);
    assert Found(SBOM.collection.attestations, step.attestations[0].typ).Some?;
  }

  lemma ScanOne(ce: CollectionEnvelope, name: string, digests: seq<string>, types: seq<string>)
    ensures Scan([ce], name, digests, types) == if Matches(ce, name, digests, types) then [ce] else []
  {
    assert [ce][..0] == [];
  }
}
