// Attestation collections and the artifacts they describe (attestation/collection.go, policy/policy.go).
module Collections {
  import opened Options
  import opened Digests

  datatype Product = Product(mimeType: string, digest: DigestSet)

  /**
   * An attestor that was read back from a collection. `typeName` is what its own Type() answers. The optional fields say
   * whether it is a Materialer, a Producer or a BackReffer, and what it then reports; `body` is the rest of its content.
   */
  datatype Attestor = Attestor(
    typeName: string,
    materials: Option<map<string, DigestSet>>,
    products: Option<map<string, Product>>,
    backRefs: Option<map<string, DigestSet>>,
    body: string)

  /** `recordedType` is the type written beside the attestor. Nothing makes it equal to the attestor's own type. */
  datatype CollectionAttestation = CollectionAttestation(recordedType: string, attestor: Attestor)

  datatype Collection = Collection(name: string, attestations: seq<CollectionAttestation>)

  // ---- specification --------------------------------------------------------------------------

  function ProductDigests(products: map<string, Product>): map<string, DigestSet> {
    map k | k in products :: products[k].digest
  }

  function MaterialsOf(atts: seq<CollectionAttestation>): map<string, DigestSet> {
    if atts == [] then map[]
    else MaterialsOf(atts[..|atts| - 1]) + atts[|atts| - 1].attestor.materials.GetOr(map[])
  }

  function ProductsOf(atts: seq<CollectionAttestation>): map<string, DigestSet> {
    if atts == [] then map[]
    else ProductsOf(atts[..|atts| - 1]) + ProductDigests(atts[|atts| - 1].attestor.products.GetOr(map[]))
  }

  function ArtifactsOf(c: Collection): map<string, DigestSet> {
    MaterialsOf(c.attestations) + ProductsOf(c.attestations)
  }

  function Tag(att: CollectionAttestation, backRef: string): string {
    att.recordedType + "/" + backRef
  }

  /** The back references of one attestation, under the keys the collection gives them. */
  function TaggedBackRefs(att: CollectionAttestation): map<string, DigestSet> {
    var refs := att.attestor.backRefs.GetOr(map[]);
    var keys := set r | r in refs :: Tag(att, r);
    TagIsReadBack(att);
    map k | k in keys :: refs[k[|att.recordedType| + 1..]]
  }

  function BackRefsOf(atts: seq<CollectionAttestation>): map<string, DigestSet> {
    if atts == [] then map[]
    else BackRefsOf(atts[..|atts| - 1]) + TaggedBackRefs(atts[|atts| - 1])
  }

  /** Every digest a back reference of the collection mentions. */
  ghost function BackRefDigests(c: Collection): set<string> {
    var refs := BackRefsOf(c.attestations);
    set k, h | k in refs && h in refs[k] :: refs[k][h]
  }

  // ---- methods --------------------------------------------------------------------------------

  /** Copies every entry of `extra` into `base`, in an arbitrary order of the keys. */
  method CopyInto<V>(base: map<string, V>, extra: map<string, V>) returns (result: map<string, V>)
    ensures result == base + extra
  {
    result := base;
    var rest := extra.Keys;
    while rest != {}
      invariant rest <= extra.Keys
      invariant result.Keys == base.Keys + (extra.Keys - rest)
      invariant forall k :: k in result ==> result[k] == if k in extra && k !in rest then extra[k] else base[k]
      decreases rest
    {
      var k :| k in rest;
      rest := rest - {k};
      result := result[k := extra[k]];
    }
  }

  method Materials(c: Collection) returns (materials: map<string, DigestSet>)
    ensures materials == MaterialsOf(c.attestations)
  {
    materials := map[];
    for i := 0 to |c.attestations|
      invariant materials == MaterialsOf(c.attestations[..i])
    {
      var attestation := c.attestations[i];
      assert c.attestations[..i + 1][..i] == c.attestations[..i];
      if attestation.attestor.materials.Some? {
        materials := CopyInto(materials, attestation.attestor.materials.value);
      }
    }
    assert c.attestations[..|c.attestations|] == c.attestations;
  }

  method Artifacts(c: Collection) returns (artifacts: map<string, DigestSet>)
    ensures artifacts == ArtifactsOf(c)
  {
    var allMaterials: map<string, DigestSet> := map[];
    var allProducts: map<string, DigestSet> := map[];
    for i := 0 to |c.attestations|
      invariant allMaterials == MaterialsOf(c.attestations[..i])
      invariant allProducts == ProductsOf(c.attestations[..i])
    {
      var attestation := c.attestations[i];
      assert c.attestations[..i + 1][..i] == c.attestations[..i];
      if attestation.attestor.materials.Some? {
        allMaterials := CopyInto(allMaterials, attestation.attestor.materials.value);
      }
      if attestation.attestor.products.Some? {
        allProducts := CopyInto(allProducts, ProductDigests(attestation.attestor.products.value));
      }
    }
    assert c.attestations[..|c.attestations|] == c.attestations;
    artifacts := CopyInto(allMaterials, allProducts);
  }

  method BackRefs(c: Collection) returns (backRefs: map<string, DigestSet>)
    ensures backRefs == BackRefsOf(c.attestations)
  {
    backRefs := map[];
    for i := 0 to |c.attestations|
      invariant backRefs == BackRefsOf(c.attestations[..i])
    {
      var attestation := c.attestations[i];
      assert c.attestations[..i + 1][..i] == c.attestations[..i];
      if attestation.attestor.backRefs.Some? {
        backRefs := TagAll(backRefs, attestation);
      }
    }
    assert c.attestations[..|c.attestations|] == c.attestations;
  }

  /** The inner loop of `BackRefs`: writes one attestation's references under their tagged keys. */
  method TagAll(base: map<string, DigestSet>, att: CollectionAttestation) returns (result: map<string, DigestSet>)
    requires att.attestor.backRefs.Some?
    ensures result == base + TaggedBackRefs(att)
  {
    var refs := att.attestor.backRefs.value;
    ghost var tagged := TaggedBackRefs(att);
    TagIsReadBack(att);
    result := base;
    var rest := refs.Keys;
    while rest != {}
      invariant rest <= refs.Keys
      invariant forall r :: r in refs && r !in rest ==> Tag(att, r) in result
      invariant forall k :: k in base ==> k in result
      invariant forall k :: k in result ==>
        || (k in tagged && result[k] == tagged[k])
        || (k in base && result[k] == base[k] && forall r :: r in refs && r !in rest ==> Tag(att, r) != k)
      decreases rest
    {
      var r :| r in rest;
      rest := rest - {r};
      result := result[Tag(att, r) := refs[r]];
    }
  }

  lemma TagIsReadBack(att: CollectionAttestation)
    ensures forall r :: Tag(att, r)[|att.recordedType| + 1..] == r
  {
    forall r ensures Tag(att, r)[|att.recordedType| + 1..] == r {
    }
  }

  // ---- back references ------------------------------------------------------------------------

  /** The attestation gives the key: its recorded type, a slash, and one of its own references. */
  ghost predicate GivesBackRef(att: CollectionAttestation, key: string, r: string) {
    r in att.attestor.backRefs.GetOr(map[]) && key == att.recordedType + "/" + r
  }

  ghost predicate Gives(att: CollectionAttestation, key: string) {
    exists r :: GivesBackRef(att, key, r)
  }

  lemma TaggedBackRefIs(att: CollectionAttestation, key: string)
    ensures key in TaggedBackRefs(att) <==> Gives(att, key)
    ensures forall r :: GivesBackRef(att, key, r) ==> TaggedBackRefs(att)[key] == att.attestor.backRefs.value[r]
  {
    TagIsReadBack(att);
    var refs := att.attestor.backRefs.GetOr(map[]);
    forall r | GivesBackRef(att, key, r) ensures key in TaggedBackRefs(att) && TaggedBackRefs(att)[key] == refs[r] {
      assert key == Tag(att, r);
    }
    if key in TaggedBackRefs(att) {
      var r :| r in refs && key == Tag(att, r);
      assert GivesBackRef(att, key, r);
    }
  }

  /** Attestation `i` is the last one to give the key. */
  ghost predicate LastGiver(atts: seq<CollectionAttestation>, key: string, i: nat) {
    i < |atts| && Gives(atts[i], key) && forall j :: i < j < |atts| ==> !Gives(atts[j], key)
  }

  lemma LastOneDecides(atts: seq<CollectionAttestation>, key: string)
    requires atts != []
    ensures
      var front, last := BackRefsOf(atts[..|atts| - 1]), atts[|atts| - 1];
      if Gives(last, key) then key in TaggedBackRefs(last) && key in BackRefsOf(atts)
        && BackRefsOf(atts)[key] == TaggedBackRefs(last)[key]
      else (key in BackRefsOf(atts) <==> key in front) && (key in front ==> BackRefsOf(atts)[key] == front[key])
  {
    TaggedBackRefIs(atts[|atts| - 1], key);
  }

  lemma {:induction false} LastGiverDecides(atts: seq<CollectionAttestation>, key: string, i: nat)
    requires LastGiver(atts, key, i)
    ensures key in TaggedBackRefs(atts[i]) && key in BackRefsOf(atts)
    ensures BackRefsOf(atts)[key] == TaggedBackRefs(atts[i])[key]
  {
    LastOneDecides(atts, key);
    if i < |atts| - 1 {
      LastGiverInFront(atts, key, i);
      LastGiverDecides(atts[..|atts| - 1], key, i);
    }
  }

  lemma LastGiverInFront(atts: seq<CollectionAttestation>, key: string, i: nat)
    requires LastGiver(atts, key, i) && i < |atts| - 1
    ensures LastGiver(atts[..|atts| - 1], key, i) && !Gives(atts[|atts| - 1], key)
    ensures atts[..|atts| - 1][i] == atts[i]
  {
  }

  /** The last attestation to give a key decides its digests. */
  lemma BackRefLastWins(atts: seq<CollectionAttestation>, key: string, i: nat, r: string)
    requires LastGiver(atts, key, i) && GivesBackRef(atts[i], key, r)
    ensures key in BackRefsOf(atts) && BackRefsOf(atts)[key] == atts[i].attestor.backRefs.value[r]
  {
    LastGiverDecides(atts, key, i);
    TaggedBackRefIs(atts[i], key);
  }

  /** And there are no keys but those some attestation gives. */
  lemma {:induction false} BackRefHasGiver(atts: seq<CollectionAttestation>, key: string) returns (i: nat)
    requires key in BackRefsOf(atts)
    ensures LastGiver(atts, key, i)
  {
    LastOneDecides(atts, key);
    var front, last := atts[..|atts| - 1], |atts| - 1;
    if Gives(atts[last], key) {
      i := last;
    } else {
      i := BackRefHasGiver(front, key);
      assert front[i] == atts[i];
      assert forall j :: i < j < |atts| ==> j == last || atts[j] == front[j];
    }
  }

  /** The digests a collection refers back to are those under the keys as the last giver leaves them, in all hash functions. */
  lemma BackRefDigestsIff(c: Collection, d: string)
    ensures d in BackRefDigests(c) <==> exists key, i: nat, r :: RefersBack(c.attestations, key, i, r, d)
  {
    var refs := BackRefsOf(c.attestations);
    if d in BackRefDigests(c) {
      var key, h :| key in refs && h in refs[key] && refs[key][h] == d;
      var i := BackRefHasGiver(c.attestations, key);
      var r :| GivesBackRef(c.attestations[i], key, r);
      BackRefLastWins(c.attestations, key, i, r);
      assert RefersBack(c.attestations, key, i, r, d);
    }
    if key, i: nat, r :| RefersBack(c.attestations, key, i, r, d) {
      BackRefLastWins(c.attestations, key, i, r);
      var h :| h in refs[key] && refs[key][h] == d;
    }
  }

  ghost predicate RefersBack(atts: seq<CollectionAttestation>, key: string, i: nat, r: string, d: string) {
    && LastGiver(atts, key, i) && GivesBackRef(atts[i], key, r)
    && exists h :: h in atts[i].attestor.backRefs.value[r] && atts[i].attestor.backRefs.value[r][h] == d
  }

  // ---- which attestation decides an artifact --------------------------------------------------

  ghost predicate SuppliesMaterial(att: CollectionAttestation, path: string) {
    path in att.attestor.materials.GetOr(map[])
  }

  /** Attestation `i` is the last one to supply a material for `path`. */
  ghost predicate LastMaterial(atts: seq<CollectionAttestation>, path: string, i: nat) {
    && i < |atts|
    && SuppliesMaterial(atts[i], path)
    && (forall j :: i < j < |atts| ==> !SuppliesMaterial(atts[j], path))
  }

  lemma {:induction false} MaterialLastWins(atts: seq<CollectionAttestation>, path: string, i: nat)
    requires LastMaterial(atts, path, i)
    ensures path in MaterialsOf(atts) && MaterialsOf(atts)[path] == atts[i].attestor.materials.value[path]
  {
    var last := |atts| - 1;
    if i < last {
      assert !SuppliesMaterial(atts[last], path);
      MaterialLastWins(atts[..last], path, i);
    }
  }

  lemma {:induction false} MaterialHasSupplier(atts: seq<CollectionAttestation>, path: string) returns (i: nat)
    requires path in MaterialsOf(atts)
    ensures LastMaterial(atts, path, i)
  {
    var last := |atts| - 1;
    if SuppliesMaterial(atts[last], path) {
      i := last;
    } else {
      i := MaterialHasSupplier(atts[..last], path);
      forall j | i < j < |atts| ensures !SuppliesMaterial(atts[j], path) {
        if j < last {
          assert atts[..last][j] == atts[j];
        }
      }
    }
  }

  ghost predicate SuppliesProduct(att: CollectionAttestation, path: string) {
    path in att.attestor.products.GetOr(map[])
  }

  /** Attestation `i` is the last one to supply a product for `path`. */
  ghost predicate LastProduct(atts: seq<CollectionAttestation>, path: string, i: nat) {
    && i < |atts|
    && SuppliesProduct(atts[i], path)
    && (forall j :: i < j < |atts| ==> !SuppliesProduct(atts[j], path))
  }

  lemma {:induction false} ProductLastWins(atts: seq<CollectionAttestation>, path: string, i: nat)
    requires LastProduct(atts, path, i)
    ensures path in ProductsOf(atts) && ProductsOf(atts)[path] == atts[i].attestor.products.value[path].digest
  {
    var last := |atts| - 1;
    if i < last {
      assert !SuppliesProduct(atts[last], path);
      ProductLastWins(atts[..last], path, i);
    }
  }

  lemma {:induction false} ProductHasSupplier(atts: seq<CollectionAttestation>, path: string) returns (i: nat)
    requires path in ProductsOf(atts)
    ensures LastProduct(atts, path, i)
  {
    var last := |atts| - 1;
    if SuppliesProduct(atts[last], path) {
      i := last;
    } else {
      i := ProductHasSupplier(atts[..last], path);
      forall j | i < j < |atts| ensures !SuppliesProduct(atts[j], path) {
        if j < last {
          assert atts[..last][j] == atts[j];
        }
      }
    }
  }

  /**
   * A path is an artifact exactly when some attestation supplies it. The last product for it decides its digests, and
   * only when there is no product does the last material.
   */
  lemma ArtifactsAreLastWins(c: Collection, path: string)
    ensures path in ArtifactsOf(c) <==>
      exists i: nat :: LastProduct(c.attestations, path, i) || LastMaterial(c.attestations, path, i)
    ensures forall i: nat :: LastProduct(c.attestations, path, i) ==>
      path in ArtifactsOf(c) && ArtifactsOf(c)[path] == c.attestations[i].attestor.products.value[path].digest
    ensures forall i: nat ::
      LastMaterial(c.attestations, path, i) && !(exists j: nat :: LastProduct(c.attestations, path, j)) ==>
      path in ArtifactsOf(c) && ArtifactsOf(c)[path] == c.attestations[i].attestor.materials.value[path]
  {
    forall i: nat | LastProduct(c.attestations, path, i)
      ensures path in ProductsOf(c.attestations)
        && ProductsOf(c.attestations)[path] == c.attestations[i].attestor.products.value[path].digest
    {
      ProductLastWins(c.attestations, path, i);
    }
    forall i: nat | LastMaterial(c.attestations, path, i)
      ensures path in MaterialsOf(c.attestations)
        && MaterialsOf(c.attestations)[path] == c.attestations[i].attestor.materials.value[path]
    {
      MaterialLastWins(c.attestations, path, i);
    }
    if path in ProductsOf(c.attestations) {
      var i := ProductHasSupplier(c.attestations, path);
    } else if path in MaterialsOf(c.attestations) {
      var i := MaterialHasSupplier(c.attestations, path);
    }
  }

  // ---- the end state of the files -------------------------------------------------------------

  /** The files as the attestors saw them one after the other, each its materials first and then its products. */
  function EndState(atts: seq<CollectionAttestation>): map<string, DigestSet> {
    if atts == [] then map[] else
    EndState(atts[..|atts| - 1])
      + atts[|atts| - 1].attestor.materials.GetOr(map[])
      + ProductDigests(atts[|atts| - 1].attestor.products.GetOr(map[]))
  }

  ghost predicate Supplies(att: CollectionAttestation, path: string) {
    SuppliesMaterial(att, path) || SuppliesProduct(att, path)
  }

  /** Attestation `i` is the last one to say anything about the path. */
  ghost predicate LastSupplier(atts: seq<CollectionAttestation>, path: string, i: nat) {
    && i < |atts| && Supplies(atts[i], path)
    && (forall j :: i < j < |atts| ==> !Supplies(atts[j], path))
  }

  lemma {:induction false} EndStateIsLastSupplier(atts: seq<CollectionAttestation>, path: string, i: nat)
    requires LastSupplier(atts, path, i)
    ensures path in EndState(atts)
    ensures EndState(atts)[path] == if SuppliesProduct(atts[i], path) then atts[i].attestor.products.value[path].digest
                                    else atts[i].attestor.materials.value[path]
  {
    var last := |atts| - 1;
    if i < last {
      assert !Supplies(atts[last], path);
      EndStateIsLastSupplier(atts[..last], path, i);
    }
  }

  lemma {:induction false} EndStateHasSupplier(atts: seq<CollectionAttestation>, path: string) returns (i: nat)
    requires path in EndState(atts)
    ensures LastSupplier(atts, path, i)
  {
    var last := |atts| - 1;
    if Supplies(atts[last], path) {
      i := last;
    } else {
      i := EndStateHasSupplier(atts[..last], path);
      forall j | i < j < |atts| ensures !Supplies(atts[j], path) {
        if j < last {
          assert atts[..last][j] == atts[j];
        }
      }
    }
  }

  /** A later attestation saw the path with other digests than the last product reports. */
  ghost predicate Overtaken(atts: seq<CollectionAttestation>, path: string, i: nat, j: nat) {
    && i < j && LastProduct(atts, path, i) && LastMaterial(atts, path, j)
    && atts[j].attestor.materials.value[path] != atts[i].attestor.products.value[path].digest
  }

  /** On one path, artifacts and end state differ exactly when a later material has overtaken the last product. */
  lemma ArtifactIsEndStateIff(c: Collection, path: string)
    ensures path in ArtifactsOf(c) <==> path in EndState(c.attestations)
    ensures path in ArtifactsOf(c) ==>
      (ArtifactsOf(c)[path] != EndState(c.attestations)[path] <==>
        exists i: nat, j: nat :: Overtaken(c.attestations, path, i, j))
  {
    var atts := c.attestations;
    if path in ProductsOf(atts) {
      var i := ProductHasSupplier(atts, path);
      ProductLastWins(atts, path, i);
      if path in MaterialsOf(atts) {
        var j := MaterialHasSupplier(atts, path);
        MaterialLastWins(atts, path, j);
        BothSupplied(atts, path, i, j);
        assert ArtifactsOf(c)[path] == atts[i].attestor.products.value[path].digest;
        assert ArtifactsOf(c)[path] != EndState(atts)[path] <==> Overtaken(atts, path, i, j);
      } else {
        NoMaterial(atts, path);
        EndStateIsLastSupplier(atts, path, i);
      }
    } else {
      NoProduct(atts, path);
      if path in MaterialsOf(atts) {
        var j := MaterialHasSupplier(atts, path);
        MaterialLastWins(atts, path, j);
        EndStateIsLastSupplier(atts, path, j);
      } else {
        NoMaterial(atts, path);
        if path in EndState(atts) {
          var k := EndStateHasSupplier(atts, path);
        }
      }
    }
  }

  lemma BothSupplied(atts: seq<CollectionAttestation>, path: string, i: nat, j: nat)
    requires LastProduct(atts, path, i) && LastMaterial(atts, path, j)
    ensures path in EndState(atts)
    ensures EndState(atts)[path] == if i < j then atts[j].attestor.materials.value[path]
                                    else atts[i].attestor.products.value[path].digest
    ensures forall i2: nat, j2: nat :: Overtaken(atts, path, i2, j2) ==> i2 == i && j2 == j
  {
    EndStateIsLastSupplier(atts, path, if i < j then j else i);
  }

  lemma NoMaterial(atts: seq<CollectionAttestation>, path: string)
    requires path !in MaterialsOf(atts)
    ensures forall i :: 0 <= i < |atts| ==> !SuppliesMaterial(atts[i], path)
  {
    forall i | 0 <= i < |atts| ensures !SuppliesMaterial(atts[i], path) {
      if SuppliesMaterial(atts[i], path) {
        MaterialIsKept(atts, path, i);
      }
    }
  }

  lemma {:induction false} MaterialIsKept(atts: seq<CollectionAttestation>, path: string, i: nat)
    requires i < |atts| && SuppliesMaterial(atts[i], path)
    ensures path in MaterialsOf(atts)
  {
    if i < |atts| - 1 {
      MaterialIsKept(atts[..|atts| - 1], path, i);
    }
  }

  lemma NoProduct(atts: seq<CollectionAttestation>, path: string)
    requires path !in ProductsOf(atts)
    ensures forall i :: 0 <= i < |atts| ==> !SuppliesProduct(atts[i], path)
  {
    forall i | 0 <= i < |atts| ensures !SuppliesProduct(atts[i], path) {
      if SuppliesProduct(atts[i], path) {
        ProductIsKept(atts, path, i);
      }
    }
  }

  lemma {:induction false} ProductIsKept(atts: seq<CollectionAttestation>, path: string, i: nat)
    requires i < |atts| && SuppliesProduct(atts[i], path)
    ensures path in ProductsOf(atts)
  {
    if i < |atts| - 1 {
      ProductIsKept(atts[..|atts| - 1], path, i);
    }
  }

  /** The artifacts are the end state of the files if and only if no later material has overtaken a last product. */
  lemma ArtifactsAreEndStateIff(c: Collection)
    ensures ArtifactsOf(c) == EndState(c.attestations) <==>
      !exists path, i: nat, j: nat :: Overtaken(c.attestations, path, i, j)
  {
    forall path
      ensures path in ArtifactsOf(c) <==> path in EndState(c.attestations)
      ensures path in ArtifactsOf(c) ==>
        (ArtifactsOf(c)[path] != EndState(c.attestations)[path] <==>
          exists i: nat, j: nat :: Overtaken(c.attestations, path, i, j))
    {
      ArtifactIsEndStateIff(c, path);
    }
    if path, i: nat, j: nat :| Overtaken(c.attestations, path, i, j) {
      ProductLastWins(c.attestations, path, i);
      assert path in ArtifactsOf(c);
    }
  }

  /** A product followed by a material for the same path with another digest. */
  const OVERTAKEN: Collection := Collection("", [
    CollectionAttestation(
      "p", Attestor("p", None, Some(map["file" := Product("", map[DigestValue(Sha256, false, false) := "old"])]), None, "")),
    CollectionAttestation(
      "m", Attestor("m", Some(map["file" := map[DigestValue(Sha256, false, false) := "new"]]), None, None, ""))])

  lemma ArtifactsCanMissTheEndState()
    ensures ArtifactsOf(OVERTAKEN) != EndState(OVERTAKEN.attestations)
  {
    var atts := OVERTAKEN.attestations;
    var h := DigestValue(Sha256, false, false);
    assert atts[0].attestor.products.value["file"].digest[h] == "old";
    assert atts[1].attestor.materials.value["file"][h] == "new";
    assert |"old"| == |"new"| == 3 && "old"[0] == 'o' && "new"[0] == 'n';
    assert LastProduct(atts, "file", 0) && LastMaterial(atts, "file", 1);
    assert Overtaken(atts, "file", 0, 1);
    ArtifactsAreEndStateIff(OVERTAKEN);
  }

  // ---- comparing materials with artifacts -----------------------------------------------------

  /** On every path both sides know, the digests agree. */
  ghost predicate Compatible(mats: map<string, DigestSet>, arts: map<string, DigestSet>) {
    forall path :: path in mats && path in arts ==> Agree(mats[path], arts[path])
  }

  method CompareArtifacts(mats: map<string, DigestSet>, arts: map<string, DigestSet>)
    returns (mismatch: Option<string>)
    ensures mismatch.None? <==> Compatible(mats, arts)
    ensures mismatch.None? ==> forall path :: path in mats && path in arts ==> Agree(mats[path], arts[path])
    ensures mismatch.Some? ==>
      mismatch.value in mats && mismatch.value in arts && !Agree(mats[mismatch.value], arts[mismatch.value])
  {
    var rest := mats.Keys;
    while rest != {}
      invariant rest <= mats.Keys
      invariant forall path :: path in mats && path !in rest && path in arts ==> Agree(mats[path], arts[path])
      decreases rest
    {
      var path :| path in rest;
      rest := rest - {path};
      if path in arts {
        var same := Equal(mats[path], arts[path]);
        if !same {
          return Some(path);
        }
      }
    }
    return None;
  }

  /** A path whose material has no digest at all makes the comparison fail as soon as the other side knows the path. */
  lemma EmptyDigestSetNeverCompatible(mats: map<string, DigestSet>, arts: map<string, DigestSet>, path: string)
    requires path in mats && path in arts && mats[path] == map[]
    ensures !Compatible(mats, arts)
  {
    assert !Agree(mats[path], arts[path]);
  }
}
