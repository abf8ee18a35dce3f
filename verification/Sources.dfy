// The in-memory source of collections and the source that verifies what another one finds
// (source/memory.go, source/verified.go, source/source.go).
module Sources {
  import opened Options
  import opened PreAuth
  import opened Collections
  import opened Envelopes
  import opened Thresholds

  datatype Subject = Subject(name: string, digest: map<string, string>)

  datatype Statement = Statement(predicateType: string, subjects: seq<Subject>)

  datatype CollectionEnvelope = CollectionEnvelope(
    envelope: Envelope, statement: Statement, collection: Collection, reference: string)

  /** JSON decoding of an envelope's payload into a statement and the collection inside it. */
  type Decoder = Bytes -> Option<(Statement, Collection)>

  datatype LoadError = DuplicateReference(reference: string) | Undecodable

  // ---- specification: a linear scan -----------------------------------------------------------

  function SubjectDigests(ce: CollectionEnvelope): set<string> {
    set i, k | 0 <= i < |ce.statement.subjects| && k in ce.statement.subjects[i].digest ::
      ce.statement.subjects[i].digest[k]
  }

  /** The types the attestors themselves answer, which is what the index records. */
  function AttestorTypes(ce: CollectionEnvelope): set<string> {
    set i | 0 <= i < |ce.collection.attestations| :: ce.collection.attestations[i].attestor.typeName
  }

  predicate Matches(ce: CollectionEnvelope, name: string, digests: seq<string>, types: seq<string>) {
    && ce.collection.name == name
    && (exists d :: d in digests && d in SubjectDigests(ce))
    && (forall t :: t in types ==> t in AttestorTypes(ce))
  }

  /** What walking every loaded envelope in load order would pick. */
  function Scan(loads: seq<CollectionEnvelope>, name: string, digests: seq<string>, types: seq<string>)
    : seq<CollectionEnvelope>
  {
    if loads == [] then [] else
    var front, last := Scan(loads[..|loads| - 1], name, digests, types), loads[|loads| - 1];
    if Matches(last, name, digests, types) then front + [last] else front
  }

  // ---- the index ------------------------------------------------------------------------------

  /** The references loaded under a collection name, in load order. */
  function ReferencesNamed(loads: seq<CollectionEnvelope>, name: string): seq<string> {
    if loads == [] then [] else
    var front, last := ReferencesNamed(loads[..|loads| - 1], name), loads[|loads| - 1];
    if last.collection.name == name then front + [last.reference] else front
  }

  ghost predicate IndexesEnvelopes(loads: seq<CollectionEnvelope>, envelopes: map<string, CollectionEnvelope>) {
    && (forall i, j :: 0 <= i < j < |loads| ==> loads[i].reference != loads[j].reference)
    && (forall i :: 0 <= i < |loads| ==> loads[i].reference in envelopes && envelopes[loads[i].reference] == loads[i])
    && (forall r :: r in envelopes ==> envelopes[r] in loads && envelopes[r].reference == r)
  }

  ghost predicate IndexesNames(loads: seq<CollectionEnvelope>, references: map<string, seq<string>>) {
    && (forall name :: name in references ==> references[name] == ReferencesNamed(loads, name))
    && (forall name :: name !in references ==> ReferencesNamed(loads, name) == [])
  }

  ghost predicate IndexesSets(loads: seq<CollectionEnvelope>, subjects: map<string, set<string>>,
                              attestations: map<string, set<string>>)
  {
    && (forall i :: 0 <= i < |loads| ==>
          loads[i].reference in subjects && subjects[loads[i].reference] == SubjectDigests(loads[i]))
    && (forall i :: 0 <= i < |loads| ==>
          loads[i].reference in attestations && attestations[loads[i].reference] == AttestorTypes(loads[i]))
  }

  /** The four maps are the index of `loads`. */
  ghost predicate Indexes(
    loads: seq<CollectionEnvelope>,
    envelopes: map<string, CollectionEnvelope>,
    references: map<string, seq<string>>,
    subjects: map<string, set<string>>,
    attestations: map<string, set<string>>)
  {
    && IndexesEnvelopes(loads, envelopes)
    && IndexesNames(loads, references)
    && IndexesSets(loads, subjects, attestations)
  }

  ghost predicate Loaded(loads: seq<CollectionEnvelope>, reference: string) {
    exists ce :: ce in loads && ce.reference == reference
  }

  lemma LoadedIffFiled(loads: seq<CollectionEnvelope>, envelopes: map<string, CollectionEnvelope>, reference: string)
    requires IndexesEnvelopes(loads, envelopes)
    ensures Loaded(loads, reference) <==> reference in envelopes
  {
  }

  lemma EnvelopesAfterLoad(loads: seq<CollectionEnvelope>, envelopes: map<string, CollectionEnvelope>,
                           ce: CollectionEnvelope)
    requires IndexesEnvelopes(loads, envelopes) && ce.reference !in envelopes
    ensures IndexesEnvelopes(loads + [ce], envelopes[ce.reference := ce])
  {
  }

  lemma NamesAfterLoad(loads: seq<CollectionEnvelope>, references: map<string, seq<string>>, ce: CollectionEnvelope)
    requires IndexesNames(loads, references)
    ensures
      var name := ce.collection.name;
      IndexesNames(loads + [ce],
                   references[name := (if name in references then references[name] else []) + [ce.reference]])
  {
    assert (loads + [ce])[..|loads|] == loads;
  }

  lemma SetsAfterLoad(loads: seq<CollectionEnvelope>, envelopes: map<string, CollectionEnvelope>,
                      subjects: map<string, set<string>>, attestations: map<string, set<string>>, ce: CollectionEnvelope)
    requires IndexesEnvelopes(loads, envelopes) && ce.reference !in envelopes && IndexesSets(loads, subjects, attestations)
    ensures IndexesSets(loads + [ce], subjects[ce.reference := SubjectDigests(ce)],
                        attestations[ce.reference := AttestorTypes(ce)])
  {
  }

  lemma IndexesAfterLoad(
    loads: seq<CollectionEnvelope>,
    envelopes: map<string, CollectionEnvelope>,
    references: map<string, seq<string>>,
    subjects: map<string, set<string>>,
    attestations: map<string, set<string>>,
    ce: CollectionEnvelope)
    requires Indexes(loads, envelopes, references, subjects, attestations)
    requires ce.reference !in envelopes
    ensures
      var r, name := ce.reference, ce.collection.name;
      Indexes(loads + [ce], envelopes[r := ce],
              references[name := (if name in references then references[name] else []) + [r]],
              subjects[r := SubjectDigests(ce)], attestations[r := AttestorTypes(ce)])
  {
    EnvelopesAfterLoad(loads, envelopes, ce);
    NamesAfterLoad(loads, references, ce);
    SetsAfterLoad(loads, envelopes, subjects, attestations, ce);
  }

  class MemorySource {
    var envelopesByReference: map<string, CollectionEnvelope>
    var referencesByCollectionName: map<string, seq<string>>
    var subjectDigestsByReference: map<string, set<string>>
    var attestationsByReference: map<string, set<string>>

    /** Every envelope loaded so far, in order. */
    ghost var loads: seq<CollectionEnvelope>

    ghost predicate Valid()
      reads this
    {
      Indexes(loads, envelopesByReference, referencesByCollectionName, subjectDigestsByReference, attestationsByReference)
    }

    constructor ()
      ensures Valid() && loads == []
    {
      envelopesByReference := map[];
      referencesByCollectionName := map[];
      subjectDigestsByReference := map[];
      attestationsByReference := map[];
      loads := [];
    }

    /** A load that is refused, as a duplicate or because the payload does not decode, changes nothing. */
    method LoadEnvelope(decode: Decoder, reference: string, env: Envelope) returns (error: Option<LoadError>)
      requires Valid()
      modifies this
      ensures Valid()
      ensures error
        == if Loaded(old(loads), reference) then Some(DuplicateReference(reference))
           else if decode(env.payload).None? then Some(Undecodable) else None
      ensures error.Some? ==>
        && loads == old(loads)
        && envelopesByReference == old(envelopesByReference)
        && referencesByCollectionName == old(referencesByCollectionName)
        && subjectDigestsByReference == old(subjectDigestsByReference)
        && attestationsByReference == old(attestationsByReference)
      ensures error.None? ==>
        loads == old(loads) + [CollectionEnvelope(env, decode(env.payload).value.0, decode(env.payload).value.1, reference)]
    {
      LoadedIffFiled(loads, envelopesByReference, reference);
      if reference in envelopesByReference {
        return Some(DuplicateReference(reference));
      }
      var decoded := decode(env.payload);
      if decoded.None? {
        return Some(Undecodable);
      }
      var collEnv := CollectionEnvelope(env, decoded.value.0, decoded.value.1, reference);
      IndexesAfterLoad(loads, envelopesByReference, referencesByCollectionName, subjectDigestsByReference,
                       attestationsByReference, collEnv);
      envelopesByReference := envelopesByReference[reference := collEnv];
      var name := collEnv.collection.name;
      var named := if name in referencesByCollectionName then referencesByCollectionName[name] else [];
      referencesByCollectionName := referencesByCollectionName[name := named + [reference]];
      var subDigestIndex := IndexSubjects(collEnv);
      subjectDigestsByReference := subjectDigestsByReference[reference := subDigestIndex];
      var attestationIndex := IndexAttestations(collEnv);
      attestationsByReference := attestationsByReference[reference := attestationIndex];
      loads := loads + [collEnv];
      return None;
    }

    static method IndexSubjects(ce: CollectionEnvelope) returns (index: set<string>)
      ensures index == SubjectDigests(ce)
    {
      index := {};
      var subjects := ce.statement.subjects;
      for i := 0 to |subjects|
        invariant index == set j, k | 0 <= j < i && k in subjects[j].digest :: subjects[j].digest[k]
      {
        ghost var before := index;
        var rest := subjects[i].digest.Keys;
        while rest != {}
          invariant rest <= subjects[i].digest.Keys
          invariant index == before + set k | k in subjects[i].digest && k !in rest :: subjects[i].digest[k]
          decreases rest
        {
          var k :| k in rest;
          rest := rest - {k};
          index := index + {subjects[i].digest[k]};
        }
      }
    }

    static method IndexAttestations(ce: CollectionEnvelope) returns (index: set<string>)
      ensures index == AttestorTypes(ce)
    {
      index := {};
      for i := 0 to |ce.collection.attestations|
        invariant index == set j | 0 <= j < i :: ce.collection.attestations[j].attestor.typeName
      {
        index := index + {ce.collection.attestations[i].attestor.typeName};
      }
    }

    /** The indexed search returns what the linear scan picks, in the same order. */
    method Search(collectionName: string, subjectDigests: seq<string>, attestations: seq<string>)
      returns (matches: seq<CollectionEnvelope>)
      requires Valid()
      ensures matches == Scan(loads, collectionName, subjectDigests, attestations)
    {
      matches := [];
      var references := if collectionName in referencesByCollectionName
        then referencesByCollectionName[collectionName] else [];
      assert references == ReferencesNamed(loads, collectionName);
      ghost var upTo: nat := 0;  // how far into the loads the references seen so far reach
      assert loads[..0] == [];
      for i := 0 to |references|
        invariant ScannedTo(loads, collectionName, subjectDigests, attestations, references[..i], upTo, matches)
      {
        ghost var k := NextScanned(loads, collectionName, subjectDigests, attestations, upTo, references, i);
        var more := Consider(references[i], subjectDigests, attestations, k);
        ScannedNext(loads, collectionName, subjectDigests, attestations, references, i, upTo, k, matches, more);
        upTo, matches := k + 1, matches + more;
      }
      assert references[..|references|] == references;
      NoMoreScanned(loads, collectionName, subjectDigests, attestations, upTo);
    }

    /** The loop body: the envelope under the reference, load `k`, if it matches. */
    method Consider(reference: string, subjectDigests: seq<string>, attestations: seq<string>, ghost k: nat)
      returns (more: seq<CollectionEnvelope>)
      requires Valid() && k < |loads| && loads[k].reference == reference
      ensures more
        == if Matches(loads[k], loads[k].collection.name, subjectDigests, attestations) then [loads[k]] else []
    {
      if reference !in envelopesByReference {
        return [];
      }
      var accepted := Accepts(reference, subjectDigests, attestations);
      return if accepted then [envelopesByReference[reference]] else [];
    }

    /** Some of the given digests is among the reference's subjects, and all of the given types among its attestors. */
    method Accepts(reference: string, subjectDigests: seq<string>, attestations: seq<string>) returns (ok: bool)
      requires Valid() && reference in envelopesByReference
      ensures ok <==> Matches(envelopesByReference[reference], envelopesByReference[reference].collection.name,
                              subjectDigests, attestations)
    {
      var subjectMatchFound := AnyIn(subjectDigests, subjectDigestsByReference[reference]);
      if !subjectMatchFound {
        return false;
      }
      var attestationsMatched := AllIn(attestations, attestationsByReference[reference]);
      return attestationsMatched;
    }

    static method AnyIn(digests: seq<string>, index: set<string>) returns (found: bool)
      ensures found <==> exists d :: d in digests && d in index
    {
      for i := 0 to |digests|
        invariant forall k :: 0 <= k < i ==> digests[k] !in index
      {
        if digests[i] in index {
          return true;
        }
      }
      return false;
    }

    static method AllIn(types: seq<string>, index: set<string>) returns (all: bool)
      ensures all <==> forall t :: t in types ==> t in index
    {
      for i := 0 to |types|
        invariant forall k :: 0 <= k < i ==> types[k] in index
      {
        if types[i] !in index {
          return false;
        }
      }
      return true;
    }
  }

  // ---- why the index finds everything ---------------------------------------------------------

  lemma {:induction false} ReferencesGrow(loads: seq<CollectionEnvelope>, name: string, a: nat, b: nat)
    requires a <= b <= |loads|
    ensures ReferencesNamed(loads[..a], name) <= ReferencesNamed(loads[..b], name)
  {
    if a < b {
      assert loads[..b][..b - 1] == loads[..b - 1];
      ReferencesGrow(loads, name, a, b - 1);
    }
  }

  /** The load that the next reference of a name came from: nothing between `upTo` and it has that name. */
  lemma {:induction false} NextNamed(loads: seq<CollectionEnvelope>, name: string, upTo: nat, references: seq<string>,
                                     i: nat) returns (k: nat)
    requires upTo <= |loads| && i < |references|
    requires references == ReferencesNamed(loads, name)
    requires ReferencesNamed(loads[..upTo], name) == references[..i]
    ensures upTo <= k < |loads| && loads[k].reference == references[i] && loads[k].collection.name == name
    ensures forall j :: upTo <= j < k ==> loads[j].collection.name != name
    ensures ReferencesNamed(loads[..k + 1], name) == references[..i + 1]
    decreases |loads| - upTo
  {
    assert loads[..|loads|] == loads;
    if upTo == |loads| {
      assert false;
    }
    assert loads[..upTo + 1][..upTo] == loads[..upTo];
    if loads[upTo].collection.name == name {
      k := upTo;
      ReferencesGrow(loads, name, upTo + 1, |loads|);
      assert ReferencesNamed(loads[..upTo + 1], name) == references[..i] + [loads[upTo].reference];
      assert references[i] == ReferencesNamed(loads[..upTo + 1], name)[i];
    } else {
      k := NextNamed(loads, name, upTo + 1, references, i);
    }
  }

  lemma {:induction false} NoMoreNamed(loads: seq<CollectionEnvelope>, name: string, upTo: nat)
    requires upTo <= |loads|
    requires ReferencesNamed(loads[..upTo], name) == ReferencesNamed(loads, name)
    ensures forall j :: upTo <= j < |loads| ==> loads[j].collection.name != name
    decreases |loads| - upTo
  {
    if upTo < |loads| {
      assert loads[..upTo + 1][..upTo] == loads[..upTo];
      ReferencesGrow(loads, name, upTo + 1, |loads|);
      assert loads[..|loads|] == loads;
      NoMoreNamed(loads, name, upTo + 1);
    }
  }

  lemma ScanOneMore(loads: seq<CollectionEnvelope>, name: string, digests: seq<string>, types: seq<string>, k: nat)
    requires k < |loads|
    ensures Scan(loads[..k + 1], name, digests, types)
      == Scan(loads[..k], name, digests, types) + if Matches(loads[k], name, digests, types) then [loads[k]] else []
  {
    assert loads[..k + 1][..k] == loads[..k];
  }

  lemma {:induction false} ScanSkips(loads: seq<CollectionEnvelope>, name: string, digests: seq<string>,
                                     types: seq<string>, a: nat, b: nat)
    requires a <= b <= |loads|
    requires forall j :: a <= j < b ==> loads[j].collection.name != name
    ensures Scan(loads[..b], name, digests, types) == Scan(loads[..a], name, digests, types)
  {
    if a < b {
      assert loads[..b][..b - 1] == loads[..b - 1];
      ScanSkips(loads, name, digests, types, a, b - 1);
    }
  }

  /** The first `upTo` loads have the references seen so far, and the scan picks the matches from them. */
  ghost predicate ScannedTo(loads: seq<CollectionEnvelope>, name: string, digests: seq<string>, types: seq<string>,
                            seen: seq<string>, upTo: nat, matches: seq<CollectionEnvelope>)
  {
    && upTo <= |loads| && ReferencesNamed(loads[..upTo], name) == seen
    && matches == Scan(loads[..upTo], name, digests, types)
  }

  /** Between two references of a name the scan picks nothing. */
  lemma NextScanned(loads: seq<CollectionEnvelope>, name: string, digests: seq<string>, types: seq<string>,
                    upTo: nat, references: seq<string>, i: nat) returns (k: nat)
    requires upTo <= |loads| && i < |references|
    requires references == ReferencesNamed(loads, name)
    requires ReferencesNamed(loads[..upTo], name) == references[..i]
    ensures upTo <= k < |loads| && loads[k].reference == references[i] && loads[k].collection.name == name
    ensures ReferencesNamed(loads[..k + 1], name) == references[..i + 1]
    ensures Scan(loads[..k + 1], name, digests, types)
      == Scan(loads[..upTo], name, digests, types) + if Matches(loads[k], name, digests, types) then [loads[k]] else []
  {
    k := NextNamed(loads, name, upTo, references, i);
    ScanSkips(loads, name, digests, types, upTo, k);
    ScanOneMore(loads, name, digests, types, k);
  }

  lemma ScannedNext(loads: seq<CollectionEnvelope>, name: string, digests: seq<string>, types: seq<string>,
                    references: seq<string>, i: nat, upTo: nat, k: nat, matches: seq<CollectionEnvelope>,
                    more: seq<CollectionEnvelope>)
    requires i < |references| && upTo <= k < |loads|
    requires ScannedTo(loads, name, digests, types, references[..i], upTo, matches)
    requires ReferencesNamed(loads[..k + 1], name) == references[..i + 1]
    requires more == if Matches(loads[k], name, digests, types) then [loads[k]] else []
    requires Scan(loads[..k + 1], name, digests, types)
      == Scan(loads[..upTo], name, digests, types) + if Matches(loads[k], name, digests, types) then [loads[k]] else []
    ensures ScannedTo(loads, name, digests, types, references[..i + 1], k + 1, matches + more)
  {
  }

  lemma NoMoreScanned(loads: seq<CollectionEnvelope>, name: string, digests: seq<string>, types: seq<string>, upTo: nat)
    requires upTo <= |loads| && ReferencesNamed(loads[..upTo], name) == ReferencesNamed(loads, name)
    ensures Scan(loads[..upTo], name, digests, types) == Scan(loads, name, digests, types)
  {
    assert loads[..|loads|] == loads;
    NoMoreNamed(loads, name, upTo);
    ScanSkips(loads, name, digests, types, upTo, |loads|);
  }

  // ---- how results move with the query --------------------------------------------------------

  lemma {:induction false} ScanMembers(loads: seq<CollectionEnvelope>, name: string, digests: seq<string>,
                                       types: seq<string>)
    ensures forall ce :: ce in Scan(loads, name, digests, types) <==> ce in loads && Matches(ce, name, digests, types)
  {
    if loads != [] {
      var front, last := loads[..|loads| - 1], loads[|loads| - 1];
      ScanMembers(front, name, digests, types);
      assert forall ce :: ce in loads <==> ce in front || ce == last;
    }
  }

  /** One of the digests is among the envelope's subjects, under whatever hash function. */
  ghost predicate HasSubject(ce: CollectionEnvelope, digests: seq<string>) {
    exists i, k :: 0 <= i < |ce.statement.subjects| && k in ce.statement.subjects[i].digest
      && ce.statement.subjects[i].digest[k] in digests
  }

  /** One of the attestors answers the type. */
  ghost predicate HasAttestor(ce: CollectionEnvelope, typ: string) {
    exists i :: 0 <= i < |ce.collection.attestations| && ce.collection.attestations[i].attestor.typeName == typ
  }

  /** Picked are the loaded envelopes with the name, one of the digests and all of the types, and no others. */
  lemma ScanPicksIff(loads: seq<CollectionEnvelope>, name: string, digests: seq<string>, types: seq<string>,
                     ce: CollectionEnvelope)
    ensures ce in Scan(loads, name, digests, types) <==>
      && ce in loads && ce.collection.name == name && HasSubject(ce, digests)
      && (forall t :: t in types ==> HasAttestor(ce, t))
  {
    ScanMembers(loads, name, digests, types);
    if HasSubject(ce, digests) {
      var i, k :| 0 <= i < |ce.statement.subjects| && k in ce.statement.subjects[i].digest
        && ce.statement.subjects[i].digest[k] in digests;
      assert ce.statement.subjects[i].digest[k] in SubjectDigests(ce);
    }
    if d :| d in digests && d in SubjectDigests(ce) {
      var i, k :| 0 <= i < |ce.statement.subjects| && k in ce.statement.subjects[i].digest
        && ce.statement.subjects[i].digest[k] == d;
      assert HasSubject(ce, digests);
    }
    assert forall t :: t in AttestorTypes(ce) <==> HasAttestor(ce, t);
  }

  /** They come in the order in which they were loaded. */
  lemma {:induction false} ScanInOrder(loads: seq<CollectionEnvelope>, name: string, digests: seq<string>,
                                       types: seq<string>) returns (idx: seq<nat>)
    ensures Increasing(idx, |loads|) && |idx| == |Scan(loads, name, digests, types)|
    ensures forall k :: 0 <= k < |idx| ==> loads[idx[k]] == Scan(loads, name, digests, types)[k]
    ensures forall i :: 0 <= i < |loads| && Matches(loads[i], name, digests, types) ==> i in idx
  {
    if loads == [] {
      idx := [];
    } else {
      var front, last := loads[..|loads| - 1], |loads| - 1;
      idx := ScanInOrder(front, name, digests, types);
      assert forall i :: 0 <= i < |front| ==> front[i] == loads[i];
      if Matches(loads[last], name, digests, types) {
        idx := idx + [last];
      }
    }
  }

  /** `a` is what is left of `b` after leaving some elements out. */
  ghost predicate Subsequence<T(!new)>(a: seq<T>, b: seq<T>) {
    if a == [] then true
    else if b == [] then false
    else if a[|a| - 1] == b[|b| - 1] && Subsequence(a[..|a| - 1], b[..|b| - 1]) then true
    else Subsequence(a, b[..|b| - 1])
  }

  /** More digests can only add results, more types can only remove some, and what stays keeps its order. */
  lemma {:induction false} ScanMonotone(loads: seq<CollectionEnvelope>, name: string, few: seq<string>,
                                        many: seq<string>, fewTypes: seq<string>, manyTypes: seq<string>)
    requires forall d :: d in few ==> d in many
    requires forall t :: t in fewTypes ==> t in manyTypes
    ensures Subsequence(Scan(loads, name, few, manyTypes), Scan(loads, name, many, fewTypes))
  {
    if loads != [] {
      var front, last := loads[..|loads| - 1], loads[|loads| - 1];
      ScanMonotone(front, name, few, many, fewTypes, manyTypes);
      var less, more := Scan(front, name, few, manyTypes), Scan(front, name, many, fewTypes);
      if Matches(last, name, few, manyTypes) {
        assert Matches(last, name, many, fewTypes);
        assert (less + [last])[..|less|] == less && (more + [last])[..|more|] == more;
      } else if Matches(last, name, many, fewTypes) {
        assert (more + [last])[..|more|] == more;
      }
    }
  }

  // ---- verified results -----------------------------------------------------------------------

  datatype SourceError = EnvelopeUnverified(cause: VerifyError) | NoVerifiersPassed | NoCollections

  /** A functionary that a verifier failed to satisfy. */
  datatype Warning = FunctionaryRejected(publicKeyId: string)

  datatype CollectionResult = CollectionResult(
    verifiers: seq<Verifier>,
    validFunctionaries: seq<Verifier>,
    env: CollectionEnvelope,
    errors: seq<SourceError>,
    warnings: seq<Warning>)

  function PaeOf(ce: CollectionEnvelope): Bytes {
    PreauthEncode(ce.envelope.payloadType, ce.envelope.payload)
  }

  /** The verifiers a search result carries: all the acceptances if verification succeeds, none otherwise. */
  function VerifiersFor(crypto: Crypto, opts: VerificationOptions, ce: CollectionEnvelope): seq<Verifier> {
    if Succeeds(crypto, opts, PaeOf(ce), ce.envelope.signatures)
    then Accepted(crypto, opts, PaeOf(ce), ce.envelope.signatures) else []
  }

  /** `r` is what verification makes of `ce`. */
  ghost predicate Lifts(crypto: Crypto, opts: VerificationOptions, ce: CollectionEnvelope, r: CollectionResult) {
    && r.env == ce
    && r.verifiers == VerifiersFor(crypto, opts, ce)
    && r.validFunctionaries == [] && r.warnings == []
    && |r.errors| <= 1
    && (r.errors == [] <==> r.verifiers != [])
  }

  class VerifiedSource {
    const source: MemorySource
    const crypto: Crypto
    const verifyOpts: VerificationOptions

    constructor (source: MemorySource, crypto: Crypto, verifyOpts: VerificationOptions)
      ensures this.source == source && this.crypto == crypto && this.verifyOpts == verifyOpts
    {
      this.source := source;
      this.crypto := crypto;
      this.verifyOpts := verifyOpts;
    }

    /** Order and length are those of the underlying search, and a result has no errors exactly when it has verifiers. */
    method Search(collectionName: string, subjectDigests: seq<string>, attestations: seq<string>)
      returns (results: seq<CollectionResult>)
      requires source.Valid()
      ensures
        var found := Scan(source.loads, collectionName, subjectDigests, attestations);
        && |results| == |found|
        && (forall i :: 0 <= i < |found| ==> Lifts(crypto, verifyOpts, found[i], results[i]))
    {
      var unverified := source.Search(collectionName, subjectDigests, attestations);
      results := [];
      for i := 0 to |unverified|
        invariant |results| == i
        invariant forall k :: 0 <= k < i ==> Lifts(crypto, verifyOpts, unverified[k], results[k])
      {
        var result := VerifyOne(unverified[i]);
        results := results + [result];
      }
    }

    /** The loop body: what one envelope of the underlying search becomes. */
    method VerifyOne(toVerify: CollectionEnvelope) returns (result: CollectionResult)
      ensures Lifts(crypto, verifyOpts, toVerify, result)
      ensures result.errors != [] ==> result.errors[0].EnvelopeUnverified?
    {
      var envelopeVerifiers, err := Verify(crypto, toVerify.envelope, verifyOpts);
      if err.Some? {
        return CollectionResult([], [], toVerify, [EnvelopeUnverified(err.value)], []);
      }
      var passedVerifiers := KeepPassed(envelopeVerifiers);
      var errors: seq<SourceError> := [];
      if |passedVerifiers| == 0 {
        errors := [NoVerifiersPassed];
      }
      return CollectionResult(passedVerifiers, [], toVerify, errors, []);
    }

    static method KeepPassed(checked: seq<CheckedVerifier>) returns (verifiers: seq<Verifier>)
      requires ErrorFreeHaveVerifier(checked)
      ensures verifiers == Passed(checked)
    {
      verifiers := [];
      for i := 0 to |checked|
        invariant verifiers == Passed(checked[..i])
      {
        assert checked[..i + 1][..i] == checked[..i];
        if checked[i].error.None? {
          verifiers := verifiers + [checked[i].verifier.value];
        }
      }
      assert checked[..|checked|] == checked;
    }
  }

  /** Every verifier on a search result accepted a signature of that result's own envelope. */
  lemma ResultVerifiersVouch(crypto: Crypto, opts: VerificationOptions, ce: CollectionEnvelope, r: CollectionResult)
    requires Lifts(crypto, opts, ce, r)
    ensures forall v :: v in r.verifiers ==>
      exists sig :: sig in ce.envelope.signatures && Vouches(crypto, opts, PaeOf(ce), sig, v)
  {
    AcceptedVouch(crypto, opts, PaeOf(ce), ce.envelope.signatures);
  }
}
