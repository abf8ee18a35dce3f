// Digest sets (cryptoutil/digestset.go).
module Digests {
  import opened Options

  datatype HashFunction = Sha256 | Sha1 | OtherHash(id: nat)

  datatype DigestValue = DigestValue(hash: HashFunction, gitOID: bool, dirHash: bool)

  type DigestSet = map<DigestValue, string>

  /** The two sets share a hash function, and agree under every hash function they share. */
  ghost predicate Agree(a: DigestSet, b: DigestSet) {
    && (exists h :: h in a && h in b)
    && (forall h :: h in a && h in b ==> a[h] == b[h])
  }

  /** `Equal` ranges over the receiver in an arbitrary order and stops at the first difference. */
  method Equal(ds: DigestSet, second: DigestSet) returns (equal: bool)
    ensures equal <==> Agree(ds, second)
    ensures equal <==> (exists h :: h in ds && h in second) && forall h :: h in ds && h in second ==> ds[h] == second[h]
  {
    var hasMatchingDigest := false;
    var rest := ds.Keys;
    while rest != {}
      invariant rest <= ds.Keys
      invariant forall h :: h in ds && h !in rest && h in second ==> ds[h] == second[h]
      invariant hasMatchingDigest <==> exists h :: h in ds && h !in rest && h in second
      decreases rest
    {
      var hash :| hash in rest;
      rest := rest - {hash};
      if hash in second {
        if ds[hash] == second[hash] {
          hasMatchingDigest := true;
        } else {
          return false;
        }
      }
    }
    return hasMatchingDigest;
  }

  lemma AgreeIsSymmetric(a: DigestSet, b: DigestSet)
    ensures Agree(a, b) <==> Agree(b, a)
  {
    if Agree(a, b) {
      var h :| h in a && h in b;
      assert h in b && h in a;
    }
    if Agree(b, a) {
      var h :| h in b && h in a;
      assert h in a && h in b;
    }
  }

  lemma AgreeIsReflexiveOnNonEmpty(a: DigestSet)
    ensures Agree(a, a) <==> a != map[]
  {
    if a != map[] {
      assert a.Keys != {};
      var h :| h in a.Keys;
      assert h in a;
    }
  }

  /** Agreement is not transitive: two sets that share no hash function can both agree with a third. */
  lemma AgreeIsNotTransitive()
    ensures exists a, b, c :: Agree(a, b) && Agree(b, c) && !Agree(a, c)
  {
    var s256 := DigestValue(Sha256, false, false);
    var s1 := DigestValue(Sha1, false, false);
    var a: DigestSet := map[s256 := "x"];
    var b: DigestSet := map[s256 := "x", s1 := "y"];
    var c: DigestSet := map[s1 := "y"];
    assert s256 in a && s256 in b;
    assert s1 in b && s1 in c;
    assert Agree(a, b) && Agree(b, c) && !Agree(a, c);
  }

  // ---- names ----------------------------------------------------------------------------------

  function HashName(v: DigestValue): Option<string> {
    if v == DigestValue(Sha256, false, false) then Some("sha256")
    else if v == DigestValue(Sha1, false, false) then Some("sha1")
    else if v == DigestValue(Sha256, true, false) then Some("gitoid:sha256")
    else if v == DigestValue(Sha1, true, false) then Some("gitoid:sha1")
    else if v == DigestValue(Sha256, false, true) then Some("dirHash")
    else None
  }

  function HashByName(name: string): Option<DigestValue> {
    if name == "sha256" then Some(DigestValue(Sha256, false, false))
    else if name == "sha1" then Some(DigestValue(Sha1, false, false))
    else if name == "gitoid:sha256" then Some(DigestValue(Sha256, true, false))
    else if name == "gitoid:sha1" then Some(DigestValue(Sha1, true, false))
    else if name == "dirHash" then Some(DigestValue(Sha256, false, true))
    else None
  }

  /** The names are those of the hash functions, but for directories hashed as a whole. */
  lemma WellKnownNames()
    ensures HashName(DigestValue(Sha256, false, false)) == Some("sha256")
    ensures HashName(DigestValue(Sha1, false, false)) == Some("sha1")
    ensures HashName(DigestValue(Sha256, true, false)) == Some("gitoid:sha256")
    ensures HashName(DigestValue(Sha1, true, false)) == Some("gitoid:sha1")
    ensures HashName(DigestValue(Sha256, false, true)) == Some("dirHash")
  {
  }

  /** The two tables are inverse to each other. */
  lemma NamesAreInverse(v: DigestValue, name: string)
    ensures HashName(v) == Some(name) <==> HashByName(name) == Some(v)
  {
    assert "sha256" != "sha1" && "sha256"[0] != "gitoid:sha256"[0] && "sha256"[0] != "dirHash"[0];
    assert "sha1"[0] != "gitoid:sha256"[0] && "gitoid:sha1"[0] != "dirHash"[0];
    assert |"gitoid:sha256"| != |"gitoid:sha1"| && |"sha256"| != |"sha1"|;
  }

  /** `names` and `ds` hold the same digests, one under names and the other under hash functions. */
  ghost predicate SameDigests(ds: DigestSet, names: map<string, string>) {
    && (forall v :: v in ds ==> HashName(v).Some? && HashName(v).value in names && names[HashName(v).value] == ds[v])
    && (forall n :: n in names ==> HashByName(n).Some? && HashByName(n).value in ds)
  }

  method ToNameMap(ds: DigestSet) returns (names: map<string, string>, ok: bool)
    ensures ok <==> forall v :: v in ds ==> HashName(v).Some?
    ensures ok ==> SameDigests(ds, names)
  {
    names := map[];
    var rest := ds.Keys;
    while rest != {}
      invariant rest <= ds.Keys
      invariant forall v :: v in ds && v !in rest ==>
        HashName(v).Some? && HashName(v).value in names && names[HashName(v).value] == ds[v]
      invariant forall n :: n in names ==> HashByName(n).Some? && HashByName(n).value in ds
      invariant forall n :: n in names ==> HashByName(n).value !in rest
      decreases rest
    {
      var hash :| hash in rest;
      rest := rest - {hash};
      match HashName(hash)
      case None => return names, false;
      case Some(name) =>
        NamesAreInverse(hash, name);
        names := names[name := ds[hash]];
    }
    return names, true;
  }

  method NewDigestSet(names: map<string, string>) returns (ds: DigestSet, ok: bool)
    ensures ok <==> forall n :: n in names ==> HashByName(n).Some?
    ensures ok ==> SameDigests(ds, names)
  {
    ds := map[];
    var rest := names.Keys;
    while rest != {}
      invariant rest <= names.Keys
      invariant forall n :: n in names && n !in rest ==> HashByName(n).Some? && HashByName(n).value in ds
      invariant forall v :: v in ds ==>
        HashName(v).Some? && HashName(v).value in names && names[HashName(v).value] == ds[v]
      decreases rest
    {
      var name :| name in rest;
      rest := rest - {name};
      match HashByName(name)
      case None => return ds, false;
      case Some(hash) =>
        NamesAreInverse(hash, name);
        ds := ds[hash := names[name]];
    }
    return ds, true;
  }

  /** Whatever order either map is walked in, naming a set and reading the names back gives the set that was named. */
  lemma NameMapRoundTrip(ds: DigestSet, names: map<string, string>, back: DigestSet)
    requires SameDigests(ds, names) && SameDigests(back, names)
    ensures back == ds
  {
    forall v | v in ds ensures v in back && back[v] == ds[v] {
      NamesAreInverse(v, HashName(v).value);
    }
    forall v | v in back ensures v in ds {
      NamesAreInverse(v, HashName(v).value);
    }
  }
}
