// Verification of signed envelopes (dsse/verify.go, dsse/dsse.go).
module Envelopes {
  import opened Options
  import opened PreAuth

  datatype Certificate = Certificate(
    raw: Bytes,
    commonName: string,
    dnsNames: seq<string>,
    emails: seq<string>,
    organizations: seq<string>,
    uris: seq<string>)

  /** A verifier answers a key ID, or None when reading it fails. One made from a certificate carries the chain it trusts. */
  datatype Verifier =
    | KeyVerifier(key: Bytes, keyId: Option<string>)
    | X509Verifier(cert: Certificate, intermediates: seq<Certificate>, roots: seq<Certificate>, trustedTime: int,
                   keyId: Option<string>)

  type TimestampVerifier = nat

  datatype Signature = Signature(
    keyId: string, sig: Bytes, certificate: Bytes, intermediates: seq<Bytes>, timestamps: seq<Bytes>)

  datatype Envelope = Envelope(payload: Bytes, payloadType: Bytes, signatures: seq<Signature>)

  /** The libraries underneath, fixed for one run: PEM, keys, certificate paths, timestamp tokens and the clock. */
  datatype Crypto = Crypto(
    parse: Bytes -> Option<Certificate>,
    pem: Certificate -> Bytes,
    keyIdOf: Certificate -> Option<Option<string>>,  // None when the certificate's key is of no supported kind
    accepts: (Verifier, Bytes, Bytes) -> bool,
    stampTime: (TimestampVerifier, Bytes, Bytes) -> Option<int>,
    now: int)

  datatype VerificationOptions = VerificationOptions(
    roots: seq<Certificate>,
    intermediates: seq<Certificate>,
    verifiers: seq<Option<Verifier>>,
    threshold: int,
    timestampVerifiers: seq<TimestampVerifier>)

  datatype CheckError = BadKey | Unverified | NoValidTimestamps

  datatype CheckedVerifier = CheckedVerifier(
    verifier: Option<Verifier>, timestampVerifiers: seq<TimestampVerifier>, error: Option<CheckError>)

  datatype VerifyError =
    | InvalidThreshold(threshold: int)
    | NoSignatures
    | NoMatchingSigs(verifiers: seq<CheckedVerifier>)
    | ThresholdNotMet(threshold: int, actual: int)

  // ---- specification: which verifiers accept --------------------------------------------------

  /** A signature that carries a certificate which does not parse is passed over altogether. */
  predicate Usable(crypto: Crypto, sig: Signature) {
    sig.certificate == [] || crypto.parse(sig.certificate).Some?
  }

  function ParsedAll(crypto: Crypto, certs: seq<Bytes>): seq<Certificate> {
    if certs == [] then [] else
    var front := ParsedAll(crypto, certs[..|certs| - 1]);
    match crypto.parse(certs[|certs| - 1])
    case None => front
    case Some(cert) => front + [cert]
  }

  /** The verifier for a certificate at a trusted time, if its key can be used at all. */
  function VerifierAt(crypto: Crypto, opts: VerificationOptions, sig: Signature, time: int): Option<Verifier>
    requires crypto.parse(sig.certificate).Some?
  {
    var cert := crypto.parse(sig.certificate).value;
    match crypto.keyIdOf(cert)
    case None => None
    case Some(keyId) =>
      Some(X509Verifier(cert, ParsedAll(crypto, sig.intermediates) + opts.intermediates, opts.roots, time, keyId))
  }

  predicate CertAccepts(crypto: Crypto, opts: VerificationOptions, pae: Bytes, sig: Signature, time: int)
    requires crypto.parse(sig.certificate).Some?
  {
    var v := VerifierAt(crypto, opts, sig, time);
    v.Some? && crypto.accepts(v.value, pae, sig.sig)
  }

  /** The accepting certificate verifiers over the timestamps one timestamp verifier vouches for, in order. */
  function StampedBy(crypto: Crypto, opts: VerificationOptions, pae: Bytes, sig: Signature,
                     tsv: TimestampVerifier, stamps: seq<Bytes>): seq<Verifier>
    requires crypto.parse(sig.certificate).Some?
  {
    if stamps == [] then [] else
    var front := StampedBy(crypto, opts, pae, sig, tsv, stamps[..|stamps| - 1]);
    match crypto.stampTime(tsv, stamps[|stamps| - 1], sig.sig)
    case None => front
    case Some(time) =>
      if CertAccepts(crypto, opts, pae, sig, time) then front + [VerifierAt(crypto, opts, sig, time).value] else front
  }

  function Stamped(crypto: Crypto, opts: VerificationOptions, pae: Bytes, sig: Signature,
                   tsvs: seq<TimestampVerifier>): seq<Verifier>
    requires crypto.parse(sig.certificate).Some?
  {
    if tsvs == [] then [] else
    Stamped(crypto, opts, pae, sig, tsvs[..|tsvs| - 1])
      + StampedBy(crypto, opts, pae, sig, tsvs[|tsvs| - 1], sig.timestamps)
  }

  function LastOnly<T>(s: seq<T>): seq<T> {
    if s == [] then [] else [s[|s| - 1]]
  }

  /** What the certificate path contributes: at most one verifier. */
  function CertPath(crypto: Crypto, opts: VerificationOptions, pae: Bytes, sig: Signature): (vs: seq<Verifier>)
    requires Usable(crypto, sig)
    ensures |vs| <= 1
  {
    if sig.certificate == [] then []
    else if opts.timestampVerifiers == [] then
      if CertAccepts(crypto, opts, pae, sig, crypto.now)
      then [VerifierAt(crypto, opts, sig, crypto.now).value] else []
    else LastOnly(Stamped(crypto, opts, pae, sig, opts.timestampVerifiers))
  }

  /** The supplied verifiers that accept a signature, in order. */
  function Accepting(crypto: Crypto, verifiers: seq<Option<Verifier>>, pae: Bytes, sig: Signature): seq<Verifier> {
    if verifiers == [] then [] else
    var front, last := Accepting(crypto, verifiers[..|verifiers| - 1], pae, sig), verifiers[|verifiers| - 1];
    if last.Some? && crypto.accepts(last.value, pae, sig.sig) then front + [last.value] else front
  }

  function AcceptedFor(crypto: Crypto, opts: VerificationOptions, pae: Bytes, sig: Signature): seq<Verifier> {
    if Usable(crypto, sig)
    then CertPath(crypto, opts, pae, sig) + Accepting(crypto, opts.verifiers, pae, sig)
    else []
  }

  /** Every acceptance, signature by signature. */
  function Accepted(crypto: Crypto, opts: VerificationOptions, pae: Bytes, sigs: seq<Signature>): seq<Verifier> {
    if sigs == [] then []
    else Accepted(crypto, opts, pae, sigs[..|sigs| - 1]) + AcceptedFor(crypto, opts, pae, sigs[|sigs| - 1])
  }

  /** The verifiers of the entries without an error, in order. */
  function Passed(checked: seq<CheckedVerifier>): seq<Verifier> {
    if checked == [] then [] else
    var front, last := Passed(checked[..|checked| - 1]), checked[|checked| - 1];
    if last.error.None? && last.verifier.Some? then front + [last.verifier.value] else front
  }

  ghost predicate ErrorFreeHaveVerifier(checked: seq<CheckedVerifier>) {
    forall i :: 0 <= i < |checked| && checked[i].error.None? ==> checked[i].verifier.Some?
  }

  lemma {:induction false} PassedAppend(a: seq<CheckedVerifier>, b: seq<CheckedVerifier>)
    ensures Passed(a + b) == Passed(a) + Passed(b)
  {
    if b == [] {
      assert a + b == a;
    } else {
      assert (a + b)[..|a + b| - 1] == a + b[..|b| - 1];
      PassedAppend(a, b[..|b| - 1]);
    }
  }

  /** The acceptances come in the order of the signatures. */
  lemma AcceptedStep(crypto: Crypto, opts: VerificationOptions, pae: Bytes, sigs: seq<Signature>, i: nat)
    requires i < |sigs|
    ensures Accepted(crypto, opts, pae, sigs[..i + 1])
      == Accepted(crypto, opts, pae, sigs[..i]) + AcceptedFor(crypto, opts, pae, sigs[i])
  {
    assert sigs[..i + 1][..i] == sigs[..i];
  }

  lemma StampedStep(crypto: Crypto, opts: VerificationOptions, pae: Bytes, sig: Signature,
                    tsvs: seq<TimestampVerifier>, i: nat)
    requires crypto.parse(sig.certificate).Some? && i < |tsvs|
    ensures Stamped(crypto, opts, pae, sig, tsvs[..i + 1])
      == Stamped(crypto, opts, pae, sig, tsvs[..i]) + StampedBy(crypto, opts, pae, sig, tsvs[i], sig.timestamps)
  {
    assert tsvs[..i + 1][..i] == tsvs[..i];
  }

  lemma StampedByStep(crypto: Crypto, opts: VerificationOptions, pae: Bytes, sig: Signature,
                      tsv: TimestampVerifier, stamps: seq<Bytes>, j: nat)
    requires crypto.parse(sig.certificate).Some? && j < |stamps|
    ensures StampedBy(crypto, opts, pae, sig, tsv, stamps[..j + 1])
      == StampedBy(crypto, opts, pae, sig, tsv, stamps[..j])
       + match crypto.stampTime(tsv, stamps[j], sig.sig)
         case None => []
         case Some(time) =>
           if CertAccepts(crypto, opts, pae, sig, time) then [VerifierAt(crypto, opts, sig, time).value] else []
  {
    assert stamps[..j + 1][..j] == stamps[..j];
  }

  // ---- verification ---------------------------------------------------------------------------

  method VerifyX509Time(crypto: Crypto, opts: VerificationOptions, pae: Bytes, sig: Signature,
                        cert: Certificate, sigIntermediates: seq<Certificate>, time: int)
    returns (verifier: Option<Verifier>, error: Option<CheckError>)
    requires crypto.parse(sig.certificate) == Some(cert)
    requires sigIntermediates == ParsedAll(crypto, sig.intermediates) + opts.intermediates
    ensures verifier == VerifierAt(crypto, opts, sig, time)
    ensures error.None? <==> CertAccepts(crypto, opts, pae, sig, time)
  {
    match crypto.keyIdOf(cert)
    case None =>
      return None, Some(BadKey);
    case Some(keyId) =>
      var v := X509Verifier(cert, sigIntermediates, opts.roots, time, keyId);
      return Some(v), if crypto.accepts(v, pae, sig.sig) then None else Some(Unverified);
  }

  method ParseIntermediates(crypto: Crypto, certs: seq<Bytes>) returns (parsed: seq<Certificate>)
    ensures parsed == ParsedAll(crypto, certs)
  {
    parsed := [];
    for i := 0 to |certs|
      invariant parsed == ParsedAll(crypto, certs[..i])
    {
      assert certs[..i + 1][..i] == certs[..i];
      var intCert := crypto.parse(certs[i]);
      if intCert.None? {
        continue;
      }
      parsed := parsed + [intCert.value];
    }
    assert certs[..|certs|] == certs;
  }

  /** One error entry for every certificate verifier that failed under a timestamp. */
  method ReportFailed(failed: seq<Option<Verifier>>, tsvs: seq<TimestampVerifier>)
    returns (checked: seq<CheckedVerifier>)
    ensures Passed(checked) == [] && ErrorFreeHaveVerifier(checked)
  {
    checked := [];
    for i := 0 to |failed|
      invariant Passed(checked) == [] && ErrorFreeHaveVerifier(checked)
    {
      ghost var was := checked;
      checked := checked + [CheckedVerifier(failed[i], tsvs, Some(NoValidTimestamps))];
      assert checked[..|checked| - 1] == was;
    }
  }

  /** The timestamped branch's running record of which certificate verifiers passed and failed. */
  datatype StampTally = StampTally(
    passedVerifier: Option<Verifier>,
    passedTimestampVerifiers: seq<TimestampVerifier>,
    failed: seq<Option<Verifier>>,
    failedTimestampVerifiers: seq<TimestampVerifier>)

  /** The record counts the acceptances and remembers the last of them. */
  ghost predicate Tallies(t: StampTally, accepted: seq<Verifier>) {
    && |t.passedTimestampVerifiers| == |accepted|
    && (accepted != [] ==> t.passedVerifier == Some(accepted[|accepted| - 1]))
  }

  /** One timestamp verifier against every timestamp of the signature. */
  method TryTimestamps(crypto: Crypto, opts: VerificationOptions, pae: Bytes, sig: Signature, cert: Certificate,
                       sigIntermediates: seq<Certificate>, tsv: TimestampVerifier, start: StampTally,
                       ghost accepted: seq<Verifier>)
    returns (t: StampTally)
    requires crypto.parse(sig.certificate) == Some(cert)
    requires sigIntermediates == ParsedAll(crypto, sig.intermediates) + opts.intermediates
    requires Tallies(start, accepted)
    ensures Tallies(t, accepted + StampedBy(crypto, opts, pae, sig, tsv, sig.timestamps))
  {
    t := start;
    for j := 0 to |sig.timestamps|
      invariant Tallies(t, accepted + StampedBy(crypto, opts, pae, sig, tsv, sig.timestamps[..j]))
    {
      StampedByStep(crypto, opts, pae, sig, tsv, sig.timestamps, j);
      var timestamp := crypto.stampTime(tsv, sig.timestamps[j], sig.sig);
      if timestamp.None? {
        continue;
      }
      var verifier, error := VerifyX509Time(crypto, opts, pae, sig, cert, sigIntermediates, timestamp.value);
      if error.None? {
        t := t.(passedVerifier := verifier, passedTimestampVerifiers := t.passedTimestampVerifiers + [tsv]);
      } else {
        t := t.(failed := t.failed + [verifier], failedTimestampVerifiers := t.failedTimestampVerifiers + [tsv]);
      }
    }
    assert sig.timestamps[..|sig.timestamps|] == sig.timestamps;
  }

  /** The timestamped branch: one entry if some timestamp works out, and otherwise an entry for every failed attempt. */
  method CheckStamped(crypto: Crypto, opts: VerificationOptions, pae: Bytes, sig: Signature,
                      cert: Certificate, sigIntermediates: seq<Certificate>)
    returns (checked: seq<CheckedVerifier>, verified: nat)
    requires crypto.parse(sig.certificate) == Some(cert)
    requires sigIntermediates == ParsedAll(crypto, sig.intermediates) + opts.intermediates
    ensures Passed(checked) == LastOnly(Stamped(crypto, opts, pae, sig, opts.timestampVerifiers))
    ensures verified == |Passed(checked)|
    ensures ErrorFreeHaveVerifier(checked)
  {
    var t := StampTally(None, [], [], []);
    var tsvs := opts.timestampVerifiers;
    for i := 0 to |tsvs|
      invariant Tallies(t, Stamped(crypto, opts, pae, sig, tsvs[..i]))
    {
      StampedStep(crypto, opts, pae, sig, tsvs, i);
      t := TryTimestamps(crypto, opts, pae, sig, cert, sigIntermediates, tsvs[i], t,
                         Stamped(crypto, opts, pae, sig, tsvs[..i]));
    }
    assert tsvs[..|tsvs|] == tsvs;
    if |t.passedTimestampVerifiers| > 0 {
      checked, verified := [CheckedVerifier(t.passedVerifier, t.passedTimestampVerifiers, None)], 1;
      assert checked[..0] == [];
    } else {
      checked := ReportFailed(t.failed, t.failedTimestampVerifiers);
      verified := 0;
    }
  }

  /** The plain verifiers' turn at one signature. */
  method CheckKeys(crypto: Crypto, verifiers: seq<Option<Verifier>>, pae: Bytes, sig: Signature)
    returns (checked: seq<CheckedVerifier>, verified: nat)
    ensures Passed(checked) == Accepting(crypto, verifiers, pae, sig)
    ensures verified == |Passed(checked)|
    ensures ErrorFreeHaveVerifier(checked)
  {
    checked, verified := [], 0;
    for i := 0 to |verifiers|
      invariant Passed(checked) == Accepting(crypto, verifiers[..i], pae, sig)
      invariant verified == |Passed(checked)|
      invariant ErrorFreeHaveVerifier(checked)
    {
      assert verifiers[..i + 1][..i] == verifiers[..i];
      ghost var was := checked;
      if verifiers[i].Some? {
        if crypto.accepts(verifiers[i].value, pae, sig.sig) {
          verified := verified + 1;
          checked := checked + [CheckedVerifier(verifiers[i], [], None)];
        } else {
          checked := checked + [CheckedVerifier(verifiers[i], [], Some(Unverified))];
        }
        assert checked[..|checked| - 1] == was;
      }
    }
    assert verifiers[..|verifiers|] == verifiers;
  }

  /** The certificate branch for one signature. */
  method CheckCertificate(crypto: Crypto, opts: VerificationOptions, pae: Bytes, sig: Signature, cert: Certificate)
    returns (checked: seq<CheckedVerifier>, verified: nat)
    requires sig.certificate != [] && crypto.parse(sig.certificate) == Some(cert)
    ensures Passed(checked) == CertPath(crypto, opts, pae, sig)
    ensures verified == |Passed(checked)|
    ensures ErrorFreeHaveVerifier(checked)
  {
    var sigIntermediates := ParseIntermediates(crypto, sig.intermediates);
    sigIntermediates := sigIntermediates + opts.intermediates;
    if |opts.timestampVerifiers| == 0 {
      var verifier, err := VerifyX509Time(crypto, opts, pae, sig, cert, sigIntermediates, crypto.now);
      checked, verified := [CheckedVerifier(verifier, [], err)], if err.None? then 1 else 0;
      assert checked[..0] == [];
    } else {
      checked, verified := CheckStamped(crypto, opts, pae, sig, cert, sigIntermediates);
    }
  }

  /** Everything `Verify` does with one signature. */
  method CheckSignature(crypto: Crypto, opts: VerificationOptions, pae: Bytes, sig: Signature)
    returns (checked: seq<CheckedVerifier>, verified: nat)
    ensures Passed(checked) == AcceptedFor(crypto, opts, pae, sig)
    ensures verified == |Passed(checked)|
    ensures ErrorFreeHaveVerifier(checked)
  {
    checked, verified := [], 0;
    if |sig.certificate| > 0 {
      var cert := crypto.parse(sig.certificate);
      if cert.None? {
        return;
      }
      checked, verified := CheckCertificate(crypto, opts, pae, sig, cert.value);
    }
    var keyChecked, keyVerified := CheckKeys(crypto, opts.verifiers, pae, sig);
    PassedAppend(checked, keyChecked);
    checked, verified := checked + keyChecked, verified + keyVerified;
  }

  /**
   * `Envelope.Verify`. The entries without an error are exactly the acceptances, in order; the counter is their number,
   * and the outcome depends on that number alone.
   */
  method Verify(crypto: Crypto, e: Envelope, opts: VerificationOptions)
    returns (checked: seq<CheckedVerifier>, error: Option<VerifyError>)
    ensures opts.threshold <= 0 ==> checked == [] && error == Some(InvalidThreshold(opts.threshold))
    ensures opts.threshold > 0 && e.signatures == [] ==> checked == [] && error == Some(NoSignatures)
    ensures opts.threshold > 0 && e.signatures != [] ==>
      var accepted := Accepted(crypto, opts, PreauthEncode(e.payloadType, e.payload), e.signatures);
      if |accepted| == 0 then checked == [] && error.Some? && error.value.NoMatchingSigs? && Passed(error.value.verifiers) == []
      else
        && Passed(checked) == accepted
        && error == if |accepted| < opts.threshold then Some(ThresholdNotMet(opts.threshold, |accepted|)) else None
    ensures ErrorFreeHaveVerifier(checked)
  {
    if opts.threshold <= 0 {
      return [], Some(InvalidThreshold(opts.threshold));
    }
    var pae := PreauthEncode(e.payloadType, e.payload);
    if |e.signatures| == 0 {
      return [], Some(NoSignatures);
    }
    var sigs := e.signatures;
    checked := [];
    var verified := 0;
    for i := 0 to |sigs|
      invariant Passed(checked) == Accepted(crypto, opts, pae, sigs[..i])
      invariant verified == |Passed(checked)|
      invariant ErrorFreeHaveVerifier(checked)
    {
      AcceptedStep(crypto, opts, pae, sigs, i);
      var sigChecked, sigVerified := CheckSignature(crypto, opts, pae, sigs[i]);
      PassedAppend(checked, sigChecked);
      checked, verified := checked + sigChecked, verified + sigVerified;
    }
    assert sigs[..|sigs|] == sigs;
    if verified == 0 {
      return [], Some(NoMatchingSigs(checked));
    } else if verified < opts.threshold {
      return checked, Some(ThresholdNotMet(opts.threshold, verified));
    }
    return checked, None;
  }
}
