// What the outcome of envelope verification depends on.
module Thresholds {
  import opened Options
  import opened PreAuth
  import opened Weights
  import opened Envelopes

  /** `Verify` succeeds (returns a nil error). */
  predicate Succeeds(crypto: Crypto, opts: VerificationOptions, pae: Bytes, sigs: seq<Signature>) {
    opts.threshold > 0 && sigs != [] && |Accepted(crypto, opts, pae, sigs)| >= opts.threshold
  }

  function CreditOf(crypto: Crypto, opts: VerificationOptions, pae: Bytes): Signature -> nat {
    (sig: Signature) => |AcceptedFor(crypto, opts, pae, sig)|
  }

  function KeyCredit(crypto: Crypto, pae: Bytes, sig: Signature): Option<Verifier> -> nat {
    (v: Option<Verifier>) => if v.Some? && crypto.accepts(v.value, pae, sig.sig) then 1 else 0
  }

  lemma {:induction false} AcceptedIsSum(crypto: Crypto, opts: VerificationOptions, pae: Bytes, sigs: seq<Signature>)
    ensures |Accepted(crypto, opts, pae, sigs)| == Weigh(CreditOf(crypto, opts, pae), sigs)
  {
    if sigs != [] {
      AcceptedIsSum(crypto, opts, pae, sigs[..|sigs| - 1]);
    }
  }

  lemma {:induction false} AcceptingIsSum(crypto: Crypto, verifiers: seq<Option<Verifier>>, pae: Bytes, sig: Signature)
    ensures |Accepting(crypto, verifiers, pae, sig)| == Weigh(KeyCredit(crypto, pae, sig), verifiers)
  {
    if verifiers != [] {
      AcceptingIsSum(crypto, verifiers[..|verifiers| - 1], pae, sig);
    }
  }

  /** The count: over the usable signatures, the accepting verifiers plus at most one for the certificate path. */
  lemma CountIsSum(crypto: Crypto, opts: VerificationOptions, pae: Bytes, sigs: seq<Signature>)
    ensures |Accepted(crypto, opts, pae, sigs)| == Weigh(CreditOf(crypto, opts, pae), sigs)
    ensures forall sig | !Usable(crypto, sig) :: CreditOf(crypto, opts, pae)(sig) == 0
    ensures forall sig | Usable(crypto, sig) ::
              CreditOf(crypto, opts, pae)(sig)
              == |CertPath(crypto, opts, pae, sig)| + Weigh(KeyCredit(crypto, pae, sig), opts.verifiers)
  {
    AcceptedIsSum(crypto, opts, pae, sigs);
    forall sig | Usable(crypto, sig)
      ensures CreditOf(crypto, opts, pae)(sig)
        == |CertPath(crypto, opts, pae, sig)| + Weigh(KeyCredit(crypto, pae, sig), opts.verifiers)
    {
      AcceptingIsSum(crypto, opts.verifiers, pae, sig);
    }
  }

  /** Two verifications that differ in their plain verifiers only. */
  predicate SameBut(opts1: VerificationOptions, opts2: VerificationOptions) {
    opts2 == opts1.(verifiers := opts2.verifiers)
  }

  /** Two verifications that take the certificate path alike: they differ in their plain verifiers and threshold only. */
  predicate SamePath(opts1: VerificationOptions, opts2: VerificationOptions) {
    opts2 == opts1.(verifiers := opts2.verifiers, threshold := opts2.threshold)
  }

  lemma {:induction false} CertPathIgnoresVerifiers(crypto: Crypto, opts1: VerificationOptions,
                                                    opts2: VerificationOptions, pae: Bytes, sig: Signature)
    requires SamePath(opts1, opts2) && Usable(crypto, sig)
    ensures CertPath(crypto, opts1, pae, sig) == CertPath(crypto, opts2, pae, sig)
  {
    if sig.certificate != [] {
      StampedIgnoresVerifiers(crypto, opts1, opts2, pae, sig, opts1.timestampVerifiers);
    }
  }

  lemma {:induction false} StampedIgnoresVerifiers(
    crypto: Crypto, opts1: VerificationOptions, opts2: VerificationOptions, pae: Bytes, sig: Signature,
    tsvs: seq<TimestampVerifier>)
    requires SamePath(opts1, opts2) && crypto.parse(sig.certificate).Some?
    ensures Stamped(crypto, opts1, pae, sig, tsvs) == Stamped(crypto, opts2, pae, sig, tsvs)
  {
    if tsvs != [] {
      StampedIgnoresVerifiers(crypto, opts1, opts2, pae, sig, tsvs[..|tsvs| - 1]);
      StampedByIgnoresVerifiers(crypto, opts1, opts2, pae, sig, tsvs[|tsvs| - 1], sig.timestamps);
    }
  }

  lemma {:induction false} StampedByIgnoresVerifiers(
    crypto: Crypto, opts1: VerificationOptions, opts2: VerificationOptions, pae: Bytes, sig: Signature,
    tsv: TimestampVerifier, stamps: seq<Bytes>)
    requires SamePath(opts1, opts2) && crypto.parse(sig.certificate).Some?
    ensures StampedBy(crypto, opts1, pae, sig, tsv, stamps) == StampedBy(crypto, opts2, pae, sig, tsv, stamps)
  {
    if stamps != [] {
      StampedByIgnoresVerifiers(crypto, opts1, opts2, pae, sig, tsv, stamps[..|stamps| - 1]);
    }
  }

  /**
   * Adding signatures or plain verifiers, in any place and any order, never lowers the count, so it never turns a
   * success into a failure.
   */
  lemma CountIsMonotone(crypto: Crypto, opts1: VerificationOptions, opts2: VerificationOptions, pae: Bytes,
                        sigs1: seq<Signature>, sigs2: seq<Signature>)
    requires SameBut(opts1, opts2)
    requires multiset(opts1.verifiers) <= multiset(opts2.verifiers)
    requires multiset(sigs1) <= multiset(sigs2)
    ensures |Accepted(crypto, opts1, pae, sigs1)| <= |Accepted(crypto, opts2, pae, sigs2)|
    ensures Succeeds(crypto, opts1, pae, sigs1) ==> Succeeds(crypto, opts2, pae, sigs2)
  {
    var c1, c2 := CreditOf(crypto, opts1, pae), CreditOf(crypto, opts2, pae);
    forall sig ensures c1(sig) <= c2(sig) {
      if Usable(crypto, sig) {
        CertPathIgnoresVerifiers(crypto, opts1, opts2, pae, sig);
        AcceptingIsSum(crypto, opts1.verifiers, pae, sig);
        AcceptingIsSum(crypto, opts2.verifiers, pae, sig);
        WeighMultiset(KeyCredit(crypto, pae, sig), opts1.verifiers, opts2.verifiers);
      }
    }
    AcceptedIsSum(crypto, opts1, pae, sigs1);
    AcceptedIsSum(crypto, opts2, pae, sigs2);
    WeighPointwise(c1, c2, sigs1);
    WeighMultiset(c2, sigs1, sigs2);
    if sigs1 != [] {
      assert sigs1[0] in multiset(sigs1);
      assert sigs1[0] in multiset(sigs2);
    }
  }

  /** Reordering the signatures, or the plain verifiers, changes neither the count nor the outcome. */
  lemma CountIgnoresOrder(crypto: Crypto, opts1: VerificationOptions, opts2: VerificationOptions, pae: Bytes,
                          sigs1: seq<Signature>, sigs2: seq<Signature>)
    requires SameBut(opts1, opts2)
    requires multiset(opts1.verifiers) == multiset(opts2.verifiers)
    requires multiset(sigs1) == multiset(sigs2)
    ensures |Accepted(crypto, opts1, pae, sigs1)| == |Accepted(crypto, opts2, pae, sigs2)|
    ensures Succeeds(crypto, opts1, pae, sigs1) <==> Succeeds(crypto, opts2, pae, sigs2)
  {
    CountIsMonotone(crypto, opts1, opts2, pae, sigs1, sigs2);
    CountIsMonotone(crypto, opts2, opts1, pae, sigs2, sigs1);
  }

  // ---- timestamp verifiers --------------------------------------------------------------------

  lemma {:induction false} StampedIffSomeStamp(crypto: Crypto, opts: VerificationOptions, pae: Bytes, sig: Signature,
                                               tsvs: seq<TimestampVerifier>)
    requires crypto.parse(sig.certificate).Some?
    ensures Stamped(crypto, opts, pae, sig, tsvs) != [] <==>
      exists tsv :: tsv in tsvs && StampedBy(crypto, opts, pae, sig, tsv, sig.timestamps) != []
  {
    if tsvs != [] {
      var front, last := tsvs[..|tsvs| - 1], tsvs[|tsvs| - 1];
      StampedIffSomeStamp(crypto, opts, pae, sig, front);
      assert tsvs == front + [last];
      if tsv :| tsv in tsvs && StampedBy(crypto, opts, pae, sig, tsv, sig.timestamps) != [] {
        assert tsv in front || tsv == last;
      }
      if StampedBy(crypto, opts, pae, sig, last, sig.timestamps) != [] {
        assert last in tsvs;
      } else if Stamped(crypto, opts, pae, sig, tsvs) != [] {
        var tsv :| tsv in front && StampedBy(crypto, opts, pae, sig, tsv, sig.timestamps) != [];
        assert tsv in tsvs;
      }
    }
  }

  /** Once there is a timestamp verifier, more of them can only help the certificate path. */
  lemma MoreTimestampVerifiersHelp(crypto: Crypto, opts: VerificationOptions, more: seq<TimestampVerifier>, pae: Bytes,
                                   sig: Signature)
    requires Usable(crypto, sig) && opts.timestampVerifiers != []
    requires forall tsv :: tsv in opts.timestampVerifiers ==> tsv in more
    ensures |CertPath(crypto, opts, pae, sig)| <= |CertPath(crypto, opts.(timestampVerifiers := more), pae, sig)|
  {
    if sig.certificate != [] {
      var opts2 := opts.(timestampVerifiers := more);
      assert opts.timestampVerifiers[0] in more;
      StampedIffSomeStamp(crypto, opts, pae, sig, opts.timestampVerifiers);
      StampedIffSomeStamp(crypto, opts2, pae, sig, more);
      if Stamped(crypto, opts, pae, sig, opts.timestampVerifiers) != [] {
        var tsv :| tsv in opts.timestampVerifiers && StampedBy(crypto, opts, pae, sig, tsv, sig.timestamps) != [];
        StampedByIgnoresTsvs(crypto, opts, more, pae, sig, tsv, sig.timestamps);
        assert tsv in more;
      }
    }
  }

  lemma {:induction false} StampedByIgnoresTsvs(
    crypto: Crypto, opts: VerificationOptions, more: seq<TimestampVerifier>, pae: Bytes, sig: Signature,
    tsv: TimestampVerifier, stamps: seq<Bytes>)
    requires crypto.parse(sig.certificate).Some?
    ensures StampedBy(crypto, opts, pae, sig, tsv, stamps)
      == StampedBy(crypto, opts.(timestampVerifiers := more), pae, sig, tsv, stamps)
  {
    if stamps != [] {
      StampedByIgnoresTsvs(crypto, opts, more, pae, sig, tsv, stamps[..|stamps| - 1]);
    }
  }

  /** The verifier vouches for a time of the timestamp at which the certificate accepts the signature. */
  predicate StampAccepts(crypto: Crypto, opts: VerificationOptions, pae: Bytes, sig: Signature, tsv: TimestampVerifier,
                         stamp: Bytes)
    requires crypto.parse(sig.certificate).Some?
  {
    var time := crypto.stampTime(tsv, stamp, sig.sig);
    time.Some? && CertAccepts(crypto, opts, pae, sig, time.value)
  }

  lemma {:induction false} StampedByIff(crypto: Crypto, opts: VerificationOptions, pae: Bytes, sig: Signature,
                                        tsv: TimestampVerifier, stamps: seq<Bytes>)
    requires crypto.parse(sig.certificate).Some?
    ensures StampedBy(crypto, opts, pae, sig, tsv, stamps) != [] <==>
      exists stamp :: stamp in stamps && StampAccepts(crypto, opts, pae, sig, tsv, stamp)
  {
    if stamps != [] {
      var front, last := stamps[..|stamps| - 1], stamps[|stamps| - 1];
      StampedByIff(crypto, opts, pae, sig, tsv, front);
      assert stamps == front + [last];
      if stamp :| stamp in stamps && StampAccepts(crypto, opts, pae, sig, tsv, stamp) {
        assert stamp in front || stamp == last;
      }
      if stamp :| stamp in front && StampAccepts(crypto, opts, pae, sig, tsv, stamp) {
        assert stamp in stamps;
      }
      assert last in stamps;
    }
  }

  /** Some verifier of the list vouches for an accepted time of some timestamp on the signature. */
  ghost predicate SomeStampAccepts(crypto: Crypto, opts: VerificationOptions, pae: Bytes, sig: Signature,
                                   tsvs: seq<TimestampVerifier>)
    requires crypto.parse(sig.certificate).Some?
  {
    exists tsv, stamp :: tsv in tsvs && stamp in sig.timestamps && StampAccepts(crypto, opts, pae, sig, tsv, stamp)
  }

  /**
   * The first timestamp verifiers are different: they stop the certificate from being checked at the current time. Adding
   * them loses the acceptance of the certificate path if and only if the certificate accepts now and at no time that one
   * of them vouches for, and gains one if and only if it is the other way round.
   */
  lemma FirstTimestampVerifiersLoseIff(crypto: Crypto, opts: VerificationOptions, added: seq<TimestampVerifier>,
                                       pae: Bytes, sig: Signature)
    requires sig.certificate != [] && Usable(crypto, sig) && opts.timestampVerifiers == [] && added != []
    ensures
      var before := |CertPath(crypto, opts, pae, sig)|;
      var after := |CertPath(crypto, opts.(timestampVerifiers := added), pae, sig)|;
      var acceptsNow := CertAccepts(crypto, opts, pae, sig, crypto.now);
      var acceptsStamped := SomeStampAccepts(crypto, opts, pae, sig, added);
      && (after < before <==> acceptsNow && !acceptsStamped)
      && (before < after <==> !acceptsNow && acceptsStamped)
  {
    var opts2 := opts.(timestampVerifiers := added);
    StampedIffSomeStamp(crypto, opts2, pae, sig, added);
    forall tsv | tsv in added
      ensures StampedBy(crypto, opts2, pae, sig, tsv, sig.timestamps) != [] <==>
        exists stamp :: stamp in sig.timestamps && StampAccepts(crypto, opts, pae, sig, tsv, stamp)
    {
      StampedByIgnoresTsvs(crypto, opts, added, pae, sig, tsv, sig.timestamps);
      StampedByIff(crypto, opts, pae, sig, tsv, sig.timestamps);
    }
  }

  /** A signature without timestamps that is accepted now is an input that loses its acceptance. */
  lemma FirstTimestampVerifierCanHurt(crypto: Crypto, opts: VerificationOptions, tsv: TimestampVerifier, pae: Bytes,
                                      sig: Signature)
    requires sig.certificate != [] && Usable(crypto, sig)
    requires opts.timestampVerifiers == [] && sig.timestamps == []
    requires CertAccepts(crypto, opts, pae, sig, crypto.now)
    ensures |CertPath(crypto, opts, pae, sig)| == 1
    ensures |CertPath(crypto, opts.(timestampVerifiers := [tsv]), pae, sig)| == 0
  {
    FirstTimestampVerifiersLoseIff(crypto, opts, [tsv], pae, sig);
  }

  // ---- who accepted ---------------------------------------------------------------------------

  /**
   * The verifier is made from the certificate that the signature carries: it trusts the configured roots by way of the
   * signature's own intermediates, as far as they parse, and then the configured ones.
   */
  ghost predicate IsMadeFrom(crypto: Crypto, opts: VerificationOptions, sig: Signature, v: Verifier) {
    && sig.certificate != [] && v.X509Verifier? && crypto.parse(sig.certificate) == Some(v.cert)
    && crypto.keyIdOf(v.cert) == Some(v.keyId) && v.roots == opts.roots
    && v.intermediates == ParsedAll(crypto, sig.intermediates) + opts.intermediates
  }

  /** The certificate may be checked at this time: now without timestamp verifiers, and else when one vouches for it. */
  ghost predicate IsVouchedTime(crypto: Crypto, opts: VerificationOptions, sig: Signature, time: int) {
    if opts.timestampVerifiers == [] then time == crypto.now
    else exists tsv, stamp ::
      tsv in opts.timestampVerifiers && stamp in sig.timestamps && crypto.stampTime(tsv, stamp, sig.sig) == Some(time)
  }

  /** Made from the signature's certificate for a time at which that may be checked, and accepting the signature then. */
  ghost predicate CertifiedBy(crypto: Crypto, opts: VerificationOptions, pae: Bytes, sig: Signature, v: Verifier) {
    IsMadeFrom(crypto, opts, sig, v) && IsVouchedTime(crypto, opts, sig, v.trustedTime) && crypto.accepts(v, pae, sig.sig)
  }

  lemma {:induction false} ParsedInOrder(crypto: Crypto, certs: seq<Bytes>) returns (idx: seq<nat>)
    ensures Increasing(idx, |certs|) && |idx| == |ParsedAll(crypto, certs)|
    ensures forall k :: 0 <= k < |idx| ==> crypto.parse(certs[idx[k]]) == Some(ParsedAll(crypto, certs)[k])
    ensures forall i :: 0 <= i < |certs| && crypto.parse(certs[i]).Some? ==> i in idx
  {
    if certs == [] {
      idx := [];
    } else {
      var front, last := certs[..|certs| - 1], |certs| - 1;
      idx := ParsedInOrder(crypto, front);
      assert forall i :: 0 <= i < |front| ==> front[i] == certs[i];
      if crypto.parse(certs[last]).Some? {
        idx := idx + [last];
      }
    }
  }

  lemma VerifierAtIs(crypto: Crypto, opts: VerificationOptions, sig: Signature, time: int, v: Verifier)
    requires sig.certificate != [] && crypto.parse(sig.certificate).Some?
    ensures VerifierAt(crypto, opts, sig, time) == Some(v) <==>
      IsMadeFrom(crypto, opts, sig, v) && v.trustedTime == time
  {
  }

  /** A time at which the certificate's own verifier accepts the signature. */
  ghost predicate AcceptsAt(crypto: Crypto, opts: VerificationOptions, pae: Bytes, sig: Signature, time: int) {
    exists v :: IsMadeFrom(crypto, opts, sig, v) && v.trustedTime == time && crypto.accepts(v, pae, sig.sig)
  }

  lemma CertAcceptsIff(crypto: Crypto, opts: VerificationOptions, pae: Bytes, sig: Signature, time: int)
    requires sig.certificate != [] && crypto.parse(sig.certificate).Some?
    ensures CertAccepts(crypto, opts, pae, sig, time) <==> AcceptsAt(crypto, opts, pae, sig, time)
  {
    var made := VerifierAt(crypto, opts, sig, time);
    if made.Some? {
      VerifierAtIs(crypto, opts, sig, time, made.value);
    }
    if v :| IsMadeFrom(crypto, opts, sig, v) && v.trustedTime == time && crypto.accepts(v, pae, sig.sig) {
      VerifierAtIs(crypto, opts, sig, time, v);
    }
  }

  lemma {:induction false} StampedByMembers(crypto: Crypto, opts: VerificationOptions, pae: Bytes, sig: Signature,
                                            tsv: TimestampVerifier, stamps: seq<Bytes>)
    requires sig.certificate != [] && crypto.parse(sig.certificate).Some?
    ensures forall v :: v in StampedBy(crypto, opts, pae, sig, tsv, stamps) ==>
      && IsMadeFrom(crypto, opts, sig, v) && crypto.accepts(v, pae, sig.sig)
      && exists stamp :: stamp in stamps && crypto.stampTime(tsv, stamp, sig.sig) == Some(v.trustedTime)
  {
    if stamps != [] {
      var front, last := stamps[..|stamps| - 1], stamps[|stamps| - 1];
      StampedByMembers(crypto, opts, pae, sig, tsv, front);
      assert stamps == front + [last];
      assert forall stamp :: stamp in front ==> stamp in stamps;
      var time := crypto.stampTime(tsv, last, sig.sig);
      if time.Some? && CertAccepts(crypto, opts, pae, sig, time.value) {
        VerifierAtIs(crypto, opts, sig, time.value, VerifierAt(crypto, opts, sig, time.value).value);
        assert last in stamps;
      }
    }
  }

  lemma {:induction false} StampedMembers(crypto: Crypto, opts: VerificationOptions, pae: Bytes, sig: Signature,
                                          tsvs: seq<TimestampVerifier>)
    requires sig.certificate != [] && crypto.parse(sig.certificate).Some?
    requires tsvs <= opts.timestampVerifiers
    ensures forall v :: v in Stamped(crypto, opts, pae, sig, tsvs) ==> CertifiedBy(crypto, opts, pae, sig, v)
  {
    if tsvs != [] {
      var front, last := tsvs[..|tsvs| - 1], tsvs[|tsvs| - 1];
      StampedMembers(crypto, opts, pae, sig, front);
      StampedByMembers(crypto, opts, pae, sig, last, sig.timestamps);
      assert last == opts.timestampVerifiers[|tsvs| - 1] && last in opts.timestampVerifiers;
    }
  }

  /**
   * Whom the certificate path accepts, and when: a verifier made from the certificate for the current time if there are no
   * timestamp verifiers, and otherwise for a time that one of them vouches for. Whenever there is such a verifier that
   * accepts the signature, the path contributes one acceptance.
   */
  lemma CertPathIff(crypto: Crypto, opts: VerificationOptions, pae: Bytes, sig: Signature)
    requires Usable(crypto, sig)
    ensures forall v :: v in CertPath(crypto, opts, pae, sig) ==> CertifiedBy(crypto, opts, pae, sig, v)
    ensures |CertPath(crypto, opts, pae, sig)| == 1 <==> exists v :: CertifiedBy(crypto, opts, pae, sig, v)
  {
    if sig.certificate != [] {
      if opts.timestampVerifiers == [] {
        PathNow(crypto, opts, pae, sig);
      } else {
        PathStamped(crypto, opts, pae, sig);
      }
    }
  }

  lemma PathNow(crypto: Crypto, opts: VerificationOptions, pae: Bytes, sig: Signature)
    requires sig.certificate != [] && Usable(crypto, sig) && opts.timestampVerifiers == []
    ensures forall v :: v in CertPath(crypto, opts, pae, sig) ==> CertifiedBy(crypto, opts, pae, sig, v)
    ensures |CertPath(crypto, opts, pae, sig)| == 1 <==> exists v :: CertifiedBy(crypto, opts, pae, sig, v)
  {
    CertAcceptsIff(crypto, opts, pae, sig, crypto.now);
    if CertAccepts(crypto, opts, pae, sig, crypto.now) {
      var v := VerifierAt(crypto, opts, sig, crypto.now).value;
      VerifierAtIs(crypto, opts, sig, crypto.now, v);
      assert CertifiedBy(crypto, opts, pae, sig, v);
    }
  }

  lemma PathStamped(crypto: Crypto, opts: VerificationOptions, pae: Bytes, sig: Signature)
    requires sig.certificate != [] && Usable(crypto, sig) && opts.timestampVerifiers != []
    ensures forall v :: v in CertPath(crypto, opts, pae, sig) ==> CertifiedBy(crypto, opts, pae, sig, v)
    ensures |CertPath(crypto, opts, pae, sig)| == 1 <==> exists v :: CertifiedBy(crypto, opts, pae, sig, v)
  {
    var stamped := Stamped(crypto, opts, pae, sig, opts.timestampVerifiers);
    StampedMembers(crypto, opts, pae, sig, opts.timestampVerifiers);
    if stamped != [] {
      assert stamped[|stamped| - 1] in stamped;
    }
    if v :| CertifiedBy(crypto, opts, pae, sig, v) {
      var tsv, stamp :| tsv in opts.timestampVerifiers && stamp in sig.timestamps
        && crypto.stampTime(tsv, stamp, sig.sig) == Some(v.trustedTime);
      CertAcceptsIff(crypto, opts, pae, sig, v.trustedTime);
      assert StampAccepts(crypto, opts, pae, sig, tsv, stamp);
      StampedByIff(crypto, opts, pae, sig, tsv, sig.timestamps);
      StampedIffSomeStamp(crypto, opts, pae, sig, opts.timestampVerifiers);
    }
  }

  /** The time that timestamp `j` stands for under verifier `i` is one at which the certificate accepts. */
  ghost predicate WorksAt(crypto: Crypto, opts: VerificationOptions, pae: Bytes, sig: Signature, i: int, j: int) {
    && 0 <= i < |opts.timestampVerifiers| && 0 <= j < |sig.timestamps|
    && var time := crypto.stampTime(opts.timestampVerifiers[i], sig.timestamps[j], sig.sig);
       time.Some? && AcceptsAt(crypto, opts, pae, sig, time.value)
  }

  /** No pair of a timestamp verifier and a timestamp works after this one. */
  ghost predicate IsLastToWork(crypto: Crypto, opts: VerificationOptions, pae: Bytes, sig: Signature, i: int, j: int) {
    && WorksAt(crypto, opts, pae, sig, i, j)
    && (forall k, l :: i < k || (i == k && j < l) ==> !WorksAt(crypto, opts, pae, sig, k, l))
  }

  lemma {:induction false} StampedByLast(crypto: Crypto, opts: VerificationOptions, pae: Bytes, sig: Signature, i: nat,
                                         j: nat, n: nat)
    requires sig.certificate != [] && Usable(crypto, sig) && i < |opts.timestampVerifiers|
    requires j < n <= |sig.timestamps| && WorksAt(crypto, opts, pae, sig, i, j)
    requires forall l :: j < l < n ==> !WorksAt(crypto, opts, pae, sig, i, l)
    ensures
      var tsv := opts.timestampVerifiers[i];
      var vs := StampedBy(crypto, opts, pae, sig, tsv, sig.timestamps[..n]);
      vs != [] && vs[|vs| - 1].X509Verifier?
        && Some(vs[|vs| - 1].trustedTime) == crypto.stampTime(tsv, sig.timestamps[j], sig.sig)
  {
    var tsv, l := opts.timestampVerifiers[i], n - 1;
    StampedByStep(crypto, opts, pae, sig, tsv, sig.timestamps, l);
    var time := crypto.stampTime(tsv, sig.timestamps[l], sig.sig);
    if time.Some? {
      CertAcceptsIff(crypto, opts, pae, sig, time.value);
    }
    if j < l {
      assert !WorksAt(crypto, opts, pae, sig, i, l);
      StampedByLast(crypto, opts, pae, sig, i, j, l);
    }
  }

  lemma StampedByNone(crypto: Crypto, opts: VerificationOptions, pae: Bytes, sig: Signature, i: nat)
    requires sig.certificate != [] && Usable(crypto, sig) && i < |opts.timestampVerifiers|
    requires forall l :: 0 <= l < |sig.timestamps| ==> !WorksAt(crypto, opts, pae, sig, i, l)
    ensures StampedBy(crypto, opts, pae, sig, opts.timestampVerifiers[i], sig.timestamps) == []
  {
    var tsv := opts.timestampVerifiers[i];
    StampedByIff(crypto, opts, pae, sig, tsv, sig.timestamps);
    if stamp :| stamp in sig.timestamps && StampAccepts(crypto, opts, pae, sig, tsv, stamp) {
      var l :| 0 <= l < |sig.timestamps| && sig.timestamps[l] == stamp;
      CertAcceptsIff(crypto, opts, pae, sig, crypto.stampTime(tsv, stamp, sig.sig).value);
      assert WorksAt(crypto, opts, pae, sig, i, l);
    }
  }

  lemma {:induction false} StampedLast(crypto: Crypto, opts: VerificationOptions, pae: Bytes, sig: Signature, i: nat,
                                       j: nat, n: nat)
    requires sig.certificate != [] && Usable(crypto, sig)
    requires i < n <= |opts.timestampVerifiers| && IsLastToWork(crypto, opts, pae, sig, i, j)
    ensures
      var vs := Stamped(crypto, opts, pae, sig, opts.timestampVerifiers[..n]);
      vs != [] && vs[|vs| - 1].X509Verifier?
        && Some(vs[|vs| - 1].trustedTime)
          == crypto.stampTime(opts.timestampVerifiers[i], sig.timestamps[j], sig.sig)
  {
    StampedStep(crypto, opts, pae, sig, opts.timestampVerifiers, n - 1);
    assert sig.timestamps[..|sig.timestamps|] == sig.timestamps;
    if i == n - 1 {
      StampedByLast(crypto, opts, pae, sig, i, j, |sig.timestamps|);
    } else {
      StampedByNone(crypto, opts, pae, sig, n - 1);
      StampedLast(crypto, opts, pae, sig, i, j, n - 1);
    }
  }

  /** Of several times that work it is the last one found that the path's verifier is for. */
  lemma LastTimeDecides(crypto: Crypto, opts: VerificationOptions, pae: Bytes, sig: Signature, i: nat, j: nat, v: Verifier)
    requires sig.certificate != [] && Usable(crypto, sig) && opts.timestampVerifiers != []
    requires IsLastToWork(crypto, opts, pae, sig, i, j) && v in CertPath(crypto, opts, pae, sig)
    ensures v.X509Verifier?
    ensures Some(v.trustedTime) == crypto.stampTime(opts.timestampVerifiers[i], sig.timestamps[j], sig.sig)
  {
    StampedLast(crypto, opts, pae, sig, i, j, |opts.timestampVerifiers|);
    assert opts.timestampVerifiers[..|opts.timestampVerifiers|] == opts.timestampVerifiers;
  }

  /** `v` is one of the supplied verifiers, or made from the signature's certificate for a time at which that may be checked. */
  ghost predicate Authorised(crypto: Crypto, opts: VerificationOptions, sig: Signature, v: Verifier) {
    || Some(v) in opts.verifiers
    || (IsMadeFrom(crypto, opts, sig, v) && IsVouchedTime(crypto, opts, sig, v.trustedTime))
  }

  ghost predicate Vouches(crypto: Crypto, opts: VerificationOptions, pae: Bytes, sig: Signature, v: Verifier) {
    Usable(crypto, sig) && crypto.accepts(v, pae, sig.sig) && Authorised(crypto, opts, sig, v)
  }

  lemma {:induction false} AcceptingMembers(crypto: Crypto, verifiers: seq<Option<Verifier>>, pae: Bytes, sig: Signature)
    ensures forall v :: v in Accepting(crypto, verifiers, pae, sig) <==>
      Some(v) in verifiers && crypto.accepts(v, pae, sig.sig)
  {
    if verifiers != [] {
      var front, last := verifiers[..|verifiers| - 1], verifiers[|verifiers| - 1];
      AcceptingMembers(crypto, front, pae, sig);
      assert forall v :: v in verifiers <==> v in front || v == last;
    }
  }

  /** The verifiers of the error-free entries come in the order of the entries. */
  lemma {:induction false} PassedInOrder(checked: seq<CheckedVerifier>) returns (idx: seq<nat>)
    requires ErrorFreeHaveVerifier(checked)
    ensures Increasing(idx, |checked|) && |idx| == |Passed(checked)|
    ensures forall k :: 0 <= k < |idx| ==> checked[idx[k]].verifier == Some(Passed(checked)[k])
    ensures forall i :: 0 <= i < |checked| ==> (checked[i].error.None? <==> i in idx)
  {
    if checked == [] {
      idx := [];
    } else {
      var front, last := checked[..|checked| - 1], |checked| - 1;
      idx := PassedInOrder(front);
      assert forall i :: 0 <= i < |front| ==> front[i] == checked[i];
      if checked[last].error.None? {
        idx := idx + [last];
      }
    }
  }

  /** The plain acceptances come in the order of the verifiers. */
  lemma {:induction false} AcceptingInOrder(crypto: Crypto, verifiers: seq<Option<Verifier>>, pae: Bytes, sig: Signature)
    returns (idx: seq<nat>)
    ensures Increasing(idx, |verifiers|) && |idx| == |Accepting(crypto, verifiers, pae, sig)|
    ensures forall k :: 0 <= k < |idx| ==> verifiers[idx[k]] == Some(Accepting(crypto, verifiers, pae, sig)[k])
    ensures forall i :: 0 <= i < |verifiers| && verifiers[i].Some? && crypto.accepts(verifiers[i].value, pae, sig.sig) ==>
      i in idx
  {
    if verifiers == [] {
      idx := [];
    } else {
      var front, last := verifiers[..|verifiers| - 1], |verifiers| - 1;
      idx := AcceptingInOrder(crypto, front, pae, sig);
      assert forall i :: 0 <= i < |front| ==> front[i] == verifiers[i];
      if verifiers[last].Some? && crypto.accepts(verifiers[last].value, pae, sig.sig) {
        idx := idx + [last];
      }
    }
  }

  /** A verifier counts only if it accepts some usable signature of the envelope, over the encoding of type and payload. */
  lemma {:induction false} AcceptedVouch(crypto: Crypto, opts: VerificationOptions, pae: Bytes, sigs: seq<Signature>)
    ensures forall v :: v in Accepted(crypto, opts, pae, sigs) ==>
      exists sig :: sig in sigs && Vouches(crypto, opts, pae, sig, v)
  {
    if sigs != [] {
      var front, last := sigs[..|sigs| - 1], sigs[|sigs| - 1];
      AcceptedVouch(crypto, opts, pae, front);
      AcceptingMembers(crypto, opts.verifiers, pae, last);
      if Usable(crypto, last) {
        CertPathIff(crypto, opts, pae, last);
      }
      forall v | v in Accepted(crypto, opts, pae, sigs)
        ensures exists sig :: sig in sigs && Vouches(crypto, opts, pae, sig, v)
      {
        if v in Accepted(crypto, opts, pae, front) {
          var sig :| sig in front && Vouches(crypto, opts, pae, sig, v);
          assert sig in sigs;
        } else {
          assert v in AcceptedFor(crypto, opts, pae, last);
          assert last in sigs && Vouches(crypto, opts, pae, last, v);
        }
      }
    }
  }

  /** And every supplied verifier that accepts a usable signature does count. */
  lemma {:induction false} AcceptingVerifierCounts(crypto: Crypto, opts: VerificationOptions, pae: Bytes,
                                                   sigs: seq<Signature>, sig: Signature, v: Verifier)
    requires sig in sigs && Usable(crypto, sig) && Some(v) in opts.verifiers && crypto.accepts(v, pae, sig.sig)
    ensures v in Accepted(crypto, opts, pae, sigs)
  {
    var front, last := sigs[..|sigs| - 1], sigs[|sigs| - 1];
    if sig == last {
      AcceptingMembers(crypto, opts.verifiers, pae, last);
      assert v in AcceptedFor(crypto, opts, pae, last);
    } else {
      AcceptingVerifierCounts(crypto, opts, pae, front, sig, v);
    }
  }
}
