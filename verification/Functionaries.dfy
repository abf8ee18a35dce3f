// Who may sign for a step: certificate constraints and functionaries (policy/constraints.go, policy/step.go).
module Functionaries {
  import opened Options
  import opened Envelopes

  const ALLOW_ALL: string := "*"

  datatype CertConstraint = CertConstraint(
    commonName: string,
    dnsNames: seq<string>,
    emails: seq<string>,
    organizations: seq<string>,
    uris: seq<string>,
    roots: seq<string>,
    extensions: string)

  datatype Functionary = Functionary(certConstraint: CertConstraint, publicKeyId: string)

  datatype TrustBundle = TrustBundle(root: Certificate, intermediates: seq<Certificate>)

  /** Certificate path building and the Fulcio extension globs, fixed for one run. */
  datatype Pki = Pki(belongsToRoot: (Verifier, Certificate) -> bool, extensionsMatch: (string, Certificate) -> bool)

  datatype ConstraintError = CommonName | DnsNames | Emails | Organizations | Uris | Roots | Extensions

  // ---- set matching ---------------------------------------------------------------------------

  /** A single empty string stands for an attribute that is not there. */
  function WithoutBlank(values: seq<string>): seq<string> {
    if values == [""] then [] else values
  }

  /** The allow-all constraint, or else the values are the constraints as a set, each value once. */
  ghost predicate Meets(constraints: seq<string>, values: seq<string>) {
    || constraints == [ALLOW_ALL]
    || (&& Distinct(WithoutBlank(values))
        && Elements(WithoutBlank(values)) == Elements(WithoutBlank(constraints)))
  }

  method CheckCertConstraint(constraints: seq<string>, values: seq<string>) returns (ok: bool)
    ensures ok <==> Meets(constraints, values)
  {
    if |constraints| == 1 && constraints[0] == ALLOW_ALL {
      return true;
    }
    var cs, vs := constraints, values;
    if |constraints| == 1 && constraints[0] == "" {
      cs := [];
    }
    if |values| == 1 && values[0] == "" {
      vs := [];
    }
    if |cs| == 0 && |vs| > 0 {
      assert vs[0] in Elements(vs);
      return false;
    }
    ok := MatchesAsSet(cs, vs);
  }

  method Collect(values: seq<string>) returns (all: set<string>)
    ensures all == Elements(values)
  {
    all := {};
    for i := 0 to |values|
      invariant all == Elements(values[..i])
    {
      assert values[..i + 1] == values[..i] + [values[i]];
      all := all + {values[i]};
    }
    assert values[..|values|] == values;
  }

  /** Strikes every value off the constraints that are still unmet. */
  method MatchesAsSet(cs: seq<string>, vs: seq<string>) returns (ok: bool)
    ensures ok <==> Distinct(vs) && Elements(vs) == Elements(cs)
  {
    var unmet := Collect(cs);
    for i := 0 to |vs|
      invariant Distinct(vs[..i])
      invariant Elements(vs[..i]) <= Elements(cs)
      invariant unmet == Elements(cs) - Elements(vs[..i])
    {
      if vs[i] !in unmet {
        DuplicateOrForeign(vs, i, cs);
        return false;
      }
      StrikeOff(vs, i, Elements(cs));
      unmet := unmet - {vs[i]};
    }
    assert vs[..|vs|] == vs;
    return |unmet| == 0;
  }

  lemma StrikeOff(vs: seq<string>, i: nat, cs: set<string>)
    requires i < |vs| && Distinct(vs[..i]) && vs[i] in cs - Elements(vs[..i])
    ensures Distinct(vs[..i + 1])
    ensures Elements(vs[..i + 1]) == Elements(vs[..i]) + {vs[i]}
  {
    assert vs[..i + 1] == vs[..i] + [vs[i]];
    forall j | 0 <= j < i ensures vs[j] != vs[i] {
      assert vs[..i][j] in Elements(vs[..i]);
    }
  }

  lemma DuplicateOrForeign(vs: seq<string>, i: nat, cs: seq<string>)
    requires i < |vs| && vs[i] !in Elements(cs) - Elements(vs[..i])
    ensures !(Distinct(vs) && Elements(vs) == Elements(cs))
  {
    assert vs[i] in Elements(vs);
    if vs[i] in Elements(vs[..i]) {
      var j :| 0 <= j < i && vs[..i][j] == vs[i];
      assert vs[j] == vs[i];
    }
  }

  /** Beyond allow-all, the constraints count as a set: neither their order nor their repetition matters. */
  lemma ConstraintsAreASet(cs1: seq<string>, cs2: seq<string>, values: seq<string>)
    requires cs1 != [ALLOW_ALL] && cs2 != [ALLOW_ALL]
    requires Elements(WithoutBlank(cs1)) == Elements(WithoutBlank(cs2))
    ensures Meets(cs1, values) <==> Meets(cs2, values)
  {
  }

  /** The values do not: listing one twice in a certificate fails every constraint but allow-all. */
  lemma RepeatedValueFails(cs: seq<string>, values: seq<string>, i: nat, j: nat)
    requires cs != [ALLOW_ALL] && i < j < |values| && values[i] == values[j]
    ensures !Meets(cs, values)
  {
    assert |WithoutBlank(values)| > 1;
  }

  predicate IsBlank(values: seq<string>) {
    values == [] || values == [""]
  }

  /** The constraint allows everything; or both are blank; or neither is, and they list the same values, the second once. */
  ghost predicate Matches(constraints: seq<string>, values: seq<string>) {
    || constraints == ["*"]
    || (IsBlank(constraints) && IsBlank(values))
    || (&& !IsBlank(constraints) && !IsBlank(values)
        && (forall x :: x in values <==> x in constraints)
        && (forall i, j :: 0 <= i < j < |values| ==> values[i] != values[j]))
  }

  lemma MeetsIff(constraints: seq<string>, values: seq<string>)
    ensures Meets(constraints, values) <==> Matches(constraints, values)
  {
    var cs, vs := WithoutBlank(constraints), WithoutBlank(values);
    assert forall x :: x in Elements(cs) <==> x in cs;
    assert forall x :: x in Elements(vs) <==> x in vs;
    if vs != [] {
      assert vs[0] in vs;
    }
    if cs != [] {
      assert cs[0] in cs;
    }
  }

  lemma OneMeetsIff(constraint: string, value: string)
    ensures Meets([constraint], [value]) <==> constraint == "*" || constraint == value
  {
    MeetsIff([constraint], [value]);
    assert [constraint][0] == constraint && [value][0] == value;
    assert value in [value] && constraint in [constraint];
  }

  // ---- the whole constraint -------------------------------------------------------------------

  ghost predicate RootAllowed(pki: Pki, cc: CertConstraint, v: Verifier, bundles: map<string, TrustBundle>) {
    if cc.roots == [ALLOW_ALL]
    then exists id :: id in bundles && pki.belongsToRoot(v, bundles[id].root)
    else exists id :: id in cc.roots && id in bundles && pki.belongsToRoot(v, bundles[id].root)
  }

  ghost predicate Violates(pki: Pki, cc: CertConstraint, v: Verifier, bundles: map<string, TrustBundle>,
                           e: ConstraintError)
    requires v.X509Verifier?
  {
    match e
    case CommonName => !Meets([cc.commonName], [v.cert.commonName])
    case DnsNames => !Meets(cc.dnsNames, v.cert.dnsNames)
    case Emails => !Meets(cc.emails, v.cert.emails)
    case Organizations => !Meets(cc.organizations, v.cert.organizations)
    case Uris => !Meets(cc.uris, v.cert.uris)
    case Roots => !RootAllowed(pki, cc, v, bundles)
    case Extensions => !pki.extensionsMatch(cc.extensions, v.cert)
  }

  method CheckTrustBundles(pki: Pki, cc: CertConstraint, v: Verifier, bundles: map<string, TrustBundle>)
    returns (ok: bool)
    ensures ok <==> RootAllowed(pki, cc, v, bundles)
  {
    if |cc.roots| == 1 && cc.roots[0] == ALLOW_ALL {
      assert cc.roots == [ALLOW_ALL];
      var rest := bundles.Keys;
      while rest != {}
        invariant rest <= bundles.Keys
        invariant forall id :: id in bundles && id !in rest ==> !pki.belongsToRoot(v, bundles[id].root)
        decreases rest
      {
        var id :| id in rest;
        rest := rest - {id};
        if pki.belongsToRoot(v, bundles[id].root) {
          return true;
        }
      }
      return false;
    } else {
      for i := 0 to |cc.roots|
        invariant forall k :: 0 <= k < i && cc.roots[k] in bundles ==> !pki.belongsToRoot(v, bundles[cc.roots[k]].root)
      {
        if cc.roots[i] in bundles && pki.belongsToRoot(v, bundles[cc.roots[i]].root) {
          return true;
        }
      }
      return false;
    }
  }

  /** `Check` reports every constraint that is violated, and nothing else. */
  method Check(pki: Pki, cc: CertConstraint, v: Verifier, bundles: map<string, TrustBundle>)
    returns (errs: seq<ConstraintError>)
    requires v.X509Verifier?
    ensures forall e :: e in errs <==> Violates(pki, cc, v, bundles, e)
  {
    var ok := CheckCertConstraint([cc.commonName], [v.cert.commonName]);
    errs := Note([], ok, CommonName);
    ok := CheckCertConstraint(cc.dnsNames, v.cert.dnsNames);
    errs := Note(errs, ok, DnsNames);
    ok := CheckCertConstraint(cc.emails, v.cert.emails);
    errs := Note(errs, ok, Emails);
    ok := CheckCertConstraint(cc.organizations, v.cert.organizations);
    errs := Note(errs, ok, Organizations);
    ok := CheckCertConstraint(cc.uris, v.cert.uris);
    errs := Note(errs, ok, Uris);
    ok := CheckTrustBundles(pki, cc, v, bundles);
    errs := Note(errs, ok, Roots);
    errs := Note(errs, pki.extensionsMatch(cc.extensions, v.cert), Extensions);
  }

  method Note(errs: seq<ConstraintError>, ok: bool, e: ConstraintError) returns (result: seq<ConstraintError>)
    ensures forall x :: x in result <==> x in errs || (!ok && x == e)
  {
    result := if ok then errs else errs + [e];
  }

  // ---- functionaries --------------------------------------------------------------------------

  /**
   * A functionary accepts a verifier by key ID, or, for a certificate verifier and a constraint that names some root,
   * when the certificate meets the whole constraint.
   */
  ghost predicate FunctionaryAccepts(pki: Pki, bundles: map<string, TrustBundle>, f: Functionary, v: Verifier) {
    && v.keyId.Some?
    && (|| (f.publicKeyId != "" && f.publicKeyId == v.keyId.value)
        || (&& v.X509Verifier?
            && f.certConstraint.roots != []
            && forall e :: !Violates(pki, f.certConstraint, v, bundles, e)))
  }

  /** The certificate has every attribute the constraint asks for, and belongs to a root the constraint names. */
  ghost predicate CertificateFits(pki: Pki, bundles: map<string, TrustBundle>, cc: CertConstraint, v: Verifier)
    requires v.X509Verifier?
  {
    && (cc.commonName == "*" || cc.commonName == v.cert.commonName)
    && Matches(cc.dnsNames, v.cert.dnsNames)
    && Matches(cc.emails, v.cert.emails)
    && Matches(cc.organizations, v.cert.organizations)
    && Matches(cc.uris, v.cert.uris)
    && pki.extensionsMatch(cc.extensions, v.cert)
    && (exists id :: id in bundles && (cc.roots == ["*"] || id in cc.roots) && pki.belongsToRoot(v, bundles[id].root))
  }

  /**
   * What a functionary accepts: a verifier with its key ID, or one whose certificate has the names, addresses and
   * organizations the constraint asks for and belongs to one of the roots it names.
   */
  lemma FunctionaryAcceptsIff(pki: Pki, bundles: map<string, TrustBundle>, f: Functionary, v: Verifier)
    ensures FunctionaryAccepts(pki, bundles, f, v) <==>
      && v.keyId.Some?
      && (|| (f.publicKeyId != "" && v.keyId == Some(f.publicKeyId))
          || (&& v.X509Verifier? && f.certConstraint.roots != []
              && CertificateFits(pki, bundles, f.certConstraint, v)))
  {
    if v.X509Verifier? {
      NothingViolatedIff(pki, bundles, f.certConstraint, v);
    }
  }

  lemma NothingViolatedIff(pki: Pki, bundles: map<string, TrustBundle>, cc: CertConstraint, v: Verifier)
    requires v.X509Verifier?
    ensures (forall e :: !Violates(pki, cc, v, bundles, e)) <==> CertificateFits(pki, bundles, cc, v)
  {
    OneMeetsIff(cc.commonName, v.cert.commonName);
    MeetsIff(cc.dnsNames, v.cert.dnsNames);
    MeetsIff(cc.emails, v.cert.emails);
    MeetsIff(cc.organizations, v.cert.organizations);
    MeetsIff(cc.uris, v.cert.uris);
    assert RootAllowed(pki, cc, v, bundles) <==>
      exists id :: id in bundles && (cc.roots == ["*"] || id in cc.roots) && pki.belongsToRoot(v, bundles[id].root);
    assert (forall e :: !Violates(pki, cc, v, bundles, e)) <==>
      && !Violates(pki, cc, v, bundles, CommonName) && !Violates(pki, cc, v, bundles, DnsNames)
      && !Violates(pki, cc, v, bundles, Emails) && !Violates(pki, cc, v, bundles, Organizations)
      && !Violates(pki, cc, v, bundles, Uris) && !Violates(pki, cc, v, bundles, Roots)
      && !Violates(pki, cc, v, bundles, Extensions);
  }

  method Validate(pki: Pki, bundles: map<string, TrustBundle>, f: Functionary, v: Verifier) returns (ok: bool)
    ensures ok <==> FunctionaryAccepts(pki, bundles, f, v)
  {
    if v.keyId.None? {
      return false;
    }
    if f.publicKeyId != "" && f.publicKeyId == v.keyId.value {
      return true;
    }
    if !v.X509Verifier? {
      return false;
    }
    if |f.certConstraint.roots| == 0 {
      return false;
    }
    var errs := Check(pki, f.certConstraint, v, bundles);
    if |errs| > 0 {
      assert Violates(pki, f.certConstraint, v, bundles, errs[0]);
      return false;
    }
    return true;
  }
}
