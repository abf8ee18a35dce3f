// Building signed envelopes (dsse/sign.go), and the promise that they verify.
module Signing {
  import opened Options
  import opened PreAuth
  import opened Weights
  import opened Envelopes
  import opened Thresholds

  /** What a signer that is also a TrustBundler says about its certificate. */
  datatype Bundle = Bundle(leaf: Option<Certificate>, intermediates: seq<Certificate>)

  datatype Signer = Signer(
    sign: Bytes -> Option<Bytes>, keyId: Option<string>, bundle: Option<Bundle>, verifier: Verifier)

  datatype Timestamper = Timestamper(stamp: Bytes -> Option<Bytes>)

  datatype SignError = NoSigners | BodyUnreadable | SigningFailed | NoKeyId | TimestampFailed

  // ---- specification --------------------------------------------------------------------------

  /** The signers that are not nil, in order. */
  function Present(signers: seq<Option<Signer>>): seq<Signer> {
    if signers == [] then [] else
    var front, last := Present(signers[..|signers| - 1]), signers[|signers| - 1];
    if last.Some? then front + [last.value] else front
  }

  predicate CanSign(s: Signer, timestampers: seq<Timestamper>, pae: Bytes) {
    && s.sign(pae).Some?
    && s.keyId.Some?
    && (forall i :: 0 <= i < |timestampers| ==> timestampers[i].stamp(s.sign(pae).value).Some?)
  }

  /** `sig` is what signer `s` puts on the envelope. */
  ghost predicate IsSignatureOf(crypto: Crypto, s: Signer, timestampers: seq<Timestamper>, pae: Bytes, sig: Signature) {
    && CanSign(s, timestampers, pae)
    && sig.sig == s.sign(pae).value
    && sig.keyId == s.keyId.value
    && |sig.timestamps| == |timestampers|
    && (forall i :: 0 <= i < |timestampers| ==> Some(sig.timestamps[i]) == timestampers[i].stamp(sig.sig))
    && sig.certificate == (if s.bundle.Some? && s.bundle.value.leaf.Some? then crypto.pem(s.bundle.value.leaf.value) else [])
    && (s.bundle.None? ==> sig.intermediates == [])
    && (s.bundle.Some? ==> |sig.intermediates| == |s.bundle.value.intermediates|)
    && (forall i :: 0 <= i < |sig.intermediates| && s.bundle.Some? ==>
          sig.intermediates[i] == crypto.pem(s.bundle.value.intermediates[i]))
  }

  ghost predicate AreSignaturesOf(crypto: Crypto, signers: seq<Signer>, timestampers: seq<Timestamper>, pae: Bytes,
                                  sigs: seq<Signature>) {
    && |sigs| == |signers|
    && (forall i :: 0 <= i < |sigs| ==> IsSignatureOf(crypto, signers[i], timestampers, pae, sigs[i]))
  }

  // ---- signing --------------------------------------------------------------------------------

  method EncodeIntermediates(crypto: Crypto, certs: seq<Certificate>) returns (encoded: seq<Bytes>)
    ensures |encoded| == |certs|
    ensures forall i :: 0 <= i < |certs| ==> encoded[i] == crypto.pem(certs[i])
  {
    encoded := [];
    for i := 0 to |certs|
      invariant |encoded| == i
      invariant forall k :: 0 <= k < i ==> encoded[k] == crypto.pem(certs[k])
    {
      encoded := encoded + [crypto.pem(certs[i])];
    }
  }

  method SignOne(crypto: Crypto, s: Signer, timestampers: seq<Timestamper>, pae: Bytes)
    returns (sig: Signature, error: Option<SignError>)
    ensures error.None? <==> CanSign(s, timestampers, pae)
    ensures s.sign(pae).None? ==> error == Some(SigningFailed)
    ensures s.sign(pae).Some? && s.keyId.None? ==> error == Some(NoKeyId)
    ensures s.sign(pae).Some? && s.keyId.Some? ==>
      error == if forall i :: 0 <= i < |timestampers| ==> timestampers[i].stamp(s.sign(pae).value).Some? then None
               else Some(TimestampFailed)
    ensures error.None? ==> IsSignatureOf(crypto, s, timestampers, pae, sig)
    ensures error.None? ==> Some(sig.sig) == s.sign(pae) && Some(sig.keyId) == s.keyId
  {
    sig := Signature("", [], [], [], []);
    var signature := s.sign(pae);
    if signature.None? {
      return sig, Some(SigningFailed);
    }
    if s.keyId.None? {
      return sig, Some(NoKeyId);
    }
    sig := sig.(keyId := s.keyId.value, sig := signature.value);
    var timestamps: seq<Bytes> := [];
    for i := 0 to |timestampers|
      invariant |timestamps| == i
      invariant forall k :: 0 <= k < i ==> Some(timestamps[k]) == timestampers[k].stamp(signature.value)
    {
      var timestamp := timestampers[i].stamp(signature.value);
      if timestamp.None? {
        return sig, Some(TimestampFailed);
      }
      timestamps := timestamps + [timestamp.value];
    }
    sig := sig.(timestamps := timestamps);
    if s.bundle.Some? {
      if s.bundle.value.leaf.Some? {
        sig := sig.(certificate := crypto.pem(s.bundle.value.leaf.value));
      }
      var intermediates := EncodeIntermediates(crypto, s.bundle.value.intermediates);
      sig := sig.(intermediates := intermediates);
    }
    return sig, None;
  }

  /** `Sign`. On an error the envelope holds the signatures made so far. */
  method Sign(crypto: Crypto, bodyType: Bytes, body: Option<Bytes>, signers: seq<Option<Signer>>,
              timestampers: seq<Timestamper>)
    returns (env: Envelope, error: Option<SignError>)
    ensures signers == [] ==> error == Some(NoSigners)
    ensures signers != [] && body.None? ==> error == Some(BodyUnreadable)
    ensures signers != [] && body.Some? ==>
      var pae := PreauthEncode(bodyType, body.value);
      && env.payloadType == bodyType && env.payload == body.value
      && (error.None? <==> forall s :: s in Present(signers) ==> CanSign(s, timestampers, pae))
      && |env.signatures| <= |Present(signers)|
      && AreSignaturesOf(crypto, Present(signers)[..|env.signatures|], timestampers, pae, env.signatures)
      && (error.None? ==> |env.signatures| == |Present(signers)|)
  {
    env := Envelope([], [], []);
    if |signers| == 0 {
      return env, Some(NoSigners);
    }
    if body.None? {
      return env, Some(BodyUnreadable);
    }
    var pae := PreauthEncode(bodyType, body.value);
    env := Envelope(body.value, bodyType, []);
    for i := 0 to |signers|
      invariant env.payloadType == bodyType && env.payload == body.value
      invariant AreSignaturesOf(crypto, Present(signers[..i]), timestampers, pae, env.signatures)
      invariant forall s :: s in Present(signers[..i]) ==> CanSign(s, timestampers, pae)
      invariant Present(signers[..i]) <= Present(signers)
    {
      PresentPrefix(signers, i);
      if signers[i].None? {
        continue;
      }
      var sig, err := SignOne(crypto, signers[i].value, timestampers, pae);
      if err.Some? {
        assert signers[i].value in Present(signers[..i + 1]);
        return env, err;
      }
      env := env.(signatures := env.signatures + [sig]);
    }
    assert signers[..|signers|] == signers;
    return env, None;
  }

  lemma {:induction false} PresentIsPrefix(signers: seq<Option<Signer>>, i: nat)
    requires i <= |signers|
    ensures Present(signers[..i]) <= Present(signers)
  {
    if i < |signers| {
      assert signers[..|signers| - 1][..i] == signers[..i];
      PresentIsPrefix(signers[..|signers| - 1], i);
    } else {
      assert signers[..i] == signers;
    }
  }

  lemma PresentPrefix(signers: seq<Option<Signer>>, i: nat)
    requires i < |signers|
    ensures Present(signers[..i + 1]) == Present(signers[..i]) + if signers[i].Some? then [signers[i].value] else []
    ensures Present(signers[..i + 1]) <= Present(signers)
  {
    assert signers[..i + 1][..i] == signers[..i];
    PresentIsPrefix(signers, i + 1);
  }

  // ---- sign, then verify ----------------------------------------------------------------------

  /** A signer is sound when its verifier takes its signatures, and its certificate, if it shows one, can be read back. */
  ghost predicate Sound(crypto: Crypto, s: Signer) {
    && (forall m :: s.sign(m).Some? ==> crypto.accepts(s.verifier, m, s.sign(m).value))
    && (s.bundle.Some? && s.bundle.value.leaf.Some? ==> crypto.parse(crypto.pem(s.bundle.value.leaf.value)).Some?)
  }

  /**
   * The signatures that sound signers made count at least once each against verifiers that include the signers' own, so
   * the envelope verifies at every threshold up to their number, whatever else is configured.
   */
  lemma SignThenVerify(crypto: Crypto, signers: seq<Signer>, timestampers: seq<Timestamper>, pae: Bytes,
                       sigs: seq<Signature>, opts: VerificationOptions)
    requires AreSignaturesOf(crypto, signers, timestampers, pae, sigs)
    requires forall s :: s in signers ==> Sound(crypto, s) && Some(s.verifier) in opts.verifiers
    requires 1 <= opts.threshold <= |signers|
    ensures Succeeds(crypto, opts, pae, sigs)
    ensures forall s :: s in signers ==> s.verifier in Accepted(crypto, opts, pae, sigs)
  {
    forall i | 0 <= i < |sigs|
      ensures CreditOf(crypto, opts, pae)(sigs[i]) >= 1
      ensures signers[i].verifier in Accepted(crypto, opts, pae, sigs)
    {
      var s, sig := signers[i], sigs[i];
      assert s in signers && IsSignatureOf(crypto, s, timestampers, pae, sig);
      assert Usable(crypto, sig);
      AcceptingMembers(crypto, opts.verifiers, pae, sig);
      assert s.verifier in Accepting(crypto, opts.verifiers, pae, sig);
      AcceptingVerifierCounts(crypto, opts, pae, sigs, sig, s.verifier);
    }
    AcceptedIsSum(crypto, opts, pae, sigs);
    WeighAtLeast(CreditOf(crypto, opts, pae), sigs);
  }

  /** The signers that are present keep their order. */
  lemma {:induction false} PresentInOrder(signers: seq<Option<Signer>>) returns (idx: seq<nat>)
    ensures Increasing(idx, |signers|) && |idx| == |Present(signers)|
    ensures forall k :: 0 <= k < |idx| ==> signers[idx[k]] == Some(Present(signers)[k])
    ensures forall i :: 0 <= i < |signers| && signers[i].Some? ==> i in idx
  {
    if signers == [] {
      idx := [];
    } else {
      var front, last := signers[..|signers| - 1], |signers| - 1;
      idx := PresentInOrder(front);
      assert forall i :: 0 <= i < |front| ==> front[i] == signers[i];
      if signers[last].Some? {
        idx := idx + [last];
      }
    }
  }

  // ---- through the certificate ----------------------------------------------------------------

  /** PEM encoding can be undone. */
  ghost predicate PemReadsBack(crypto: Crypto) {
    forall cert :: crypto.parse(crypto.pem(cert)) == Some(cert) && crypto.pem(cert) != []
  }

  lemma {:induction false} IntermediatesReadBack(crypto: Crypto, certs: seq<Certificate>, encoded: seq<Bytes>)
    requires PemReadsBack(crypto) && |encoded| == |certs|
    requires forall i :: 0 <= i < |certs| ==> encoded[i] == crypto.pem(certs[i])
    ensures ParsedAll(crypto, encoded) == certs
  {
    if certs != [] {
      IntermediatesReadBack(crypto, certs[..|certs| - 1], encoded[..|encoded| - 1]);
    }
  }

  /** The verifier that the signer's certificate gives rise to at a time. */
  ghost predicate IsOwnVerifier(crypto: Crypto, s: Signer, opts: VerificationOptions, v: Verifier, time: int) {
    && s.bundle.Some? && s.bundle.value.leaf.Some? && v.X509Verifier?
    && v.cert == s.bundle.value.leaf.value && crypto.keyIdOf(v.cert) == Some(v.keyId)
    && v.intermediates == s.bundle.value.intermediates + opts.intermediates && v.roots == opts.roots
    && v.trustedTime == time
  }

  /** What timestamper `i` stamps, timestamp verifier `tsv` takes for this time. */
  ghost predicate Stamps(crypto: Crypto, timestampers: seq<Timestamper>, i: nat, tsv: TimestampVerifier, time: int) {
    i < |timestampers| && forall m :: timestampers[i].stamp(m).Some? ==>
      crypto.stampTime(tsv, timestampers[i].stamp(m).value, m) == Some(time)
  }

  /** The certificate of the signer vouches for its signatures at a time that its timestamps stand for. */
  ghost predicate StampedSigner(crypto: Crypto, s: Signer, timestampers: seq<Timestamper>, opts: VerificationOptions) {
    exists i: nat, tsv, time, v ::
      && tsv in opts.timestampVerifiers && Stamps(crypto, timestampers, i, tsv, time)
      && IsOwnVerifier(crypto, s, opts, v, time)
      && (forall m :: s.sign(m).Some? ==> crypto.accepts(v, m, s.sign(m).value))
  }

  lemma StampedSignerCounts(crypto: Crypto, s: Signer, timestampers: seq<Timestamper>, pae: Bytes, sig: Signature,
                            opts: VerificationOptions)
    requires PemReadsBack(crypto) && StampedSigner(crypto, s, timestampers, opts)
    requires IsSignatureOf(crypto, s, timestampers, pae, sig)
    ensures CreditOf(crypto, opts, pae)(sig) >= 1
  {
    var i: nat, tsv, time, v :|
      && tsv in opts.timestampVerifiers && Stamps(crypto, timestampers, i, tsv, time)
      && IsOwnVerifier(crypto, s, opts, v, time)
      && (forall m :: s.sign(m).Some? ==> crypto.accepts(v, m, s.sign(m).value));
    IntermediatesReadBack(crypto, s.bundle.value.intermediates, sig.intermediates);
    assert Some(sig.timestamps[i]) == timestampers[i].stamp(sig.sig);
    assert sig.timestamps[i] in sig.timestamps;
    assert crypto.stampTime(tsv, sig.timestamps[i], sig.sig) == Some(time);
    assert IsMadeFrom(crypto, opts, sig, v);
    assert CertifiedBy(crypto, opts, pae, sig, v);
    CertPathIff(crypto, opts, pae, sig);
  }

  /**
   * Signatures made with timestamps verify through the signers' certificates, with no plain verifiers at all, at every
   * threshold up to their number, when the certificates vouch for them at the times that were stamped, whatever time it is.
   */
  lemma SignThenVerifyStamped(crypto: Crypto, signers: seq<Signer>, timestampers: seq<Timestamper>, pae: Bytes,
                              sigs: seq<Signature>, opts: VerificationOptions)
    requires PemReadsBack(crypto) && AreSignaturesOf(crypto, signers, timestampers, pae, sigs)
    requires forall s :: s in signers ==> StampedSigner(crypto, s, timestampers, opts)
    requires 1 <= opts.threshold <= |signers|
    ensures Succeeds(crypto, opts, pae, sigs)
  {
    forall i | 0 <= i < |sigs| ensures CreditOf(crypto, opts, pae)(sigs[i]) >= 1 {
      assert signers[i] in signers && IsSignatureOf(crypto, signers[i], timestampers, pae, sigs[i]);
      StampedSignerCounts(crypto, signers[i], timestampers, pae, sigs[i], opts);
    }
    AcceptedIsSum(crypto, opts, pae, sigs);
    WeighAtLeast(CreditOf(crypto, opts, pae), sigs);
  }

  /** The whole loop: sign a body, then verify the envelope that comes out. */
  method SignAndVerify(crypto: Crypto, bodyType: Bytes, body: Bytes, signers: seq<Option<Signer>>,
                       timestampers: seq<Timestamper>, opts: VerificationOptions)
    returns (signError: Option<SignError>, verifyError: Option<VerifyError>)
    requires forall s :: s in Present(signers) ==> Sound(crypto, s) && Some(s.verifier) in opts.verifiers
    requires 1 <= opts.threshold <= |Present(signers)|
    ensures signError.None? ==> verifyError.None?
  {
    var env;
    env, signError := Sign(crypto, bodyType, Some(body), signers, timestampers);
    if signError.Some? {
      return signError, None;
    }
    assert Present(signers)[..|env.signatures|] == Present(signers);
    SignThenVerify(crypto, Present(signers), timestampers, PreauthEncode(bodyType, body), env.signatures, opts);
    var checked;
    checked, verifyError := Verify(crypto, env, opts);
  }
}
