// How many different verifiers stand behind a met threshold.
module DistinctVerifiers {
  import opened Options
  import opened PreAuth
  import opened Envelopes
  import opened Thresholds

  /** The verifier is supplied and accepts the signature, or is the one the certificate path accepts it with. */
  ghost predicate Backs(crypto: Crypto, opts: VerificationOptions, pae: Bytes, sig: Signature, v: Verifier) {
    Usable(crypto, sig) &&
    ((Some(v) in opts.verifiers && crypto.accepts(v, pae, sig.sig)) || v in CertPath(crypto, opts, pae, sig))
  }

  /** No verifier that accepts the signature is supplied twice. */
  ghost predicate SuppliedOnce(crypto: Crypto, verifiers: seq<Option<Verifier>>, pae: Bytes, sig: Signature) {
    forall k, l :: 0 <= k < l < |verifiers| && verifiers[k] == verifiers[l] && verifiers[k].Some? ==>
      !crypto.accepts(verifiers[k].value, pae, sig.sig)
  }

  /** Nobody backs the signature twice: no supplied verifier, and not the certificate's as well as a supplied one. */
  ghost predicate BackedOnce(crypto: Crypto, opts: VerificationOptions, pae: Bytes, sig: Signature) {
    Usable(crypto, sig) ==>
      && SuppliedOnce(crypto, opts.verifiers, pae, sig)
      && (forall v :: v in CertPath(crypto, opts, pae, sig) ==> Some(v) !in opts.verifiers)
  }

  /** Nobody backs two of the signatures, and nobody backs one of them twice. */
  ghost predicate EachBacksOnce(crypto: Crypto, opts: VerificationOptions, pae: Bytes, sigs: seq<Signature>) {
    && (forall i, j, v :: 0 <= i < j < |sigs| && Backs(crypto, opts, pae, sigs[i], v) ==>
          !Backs(crypto, opts, pae, sigs[j], v))
    && (forall i :: 0 <= i < |sigs| ==> BackedOnce(crypto, opts, pae, sigs[i]))
  }

  // ---- sequences without repetition -----------------------------------------------------------

  lemma DistinctAppend<T>(a: seq<T>, b: seq<T>)
    ensures Distinct(a + b) <==> Distinct(a) && Distinct(b) && forall x :: x in a ==> x !in b
  {
    var s := a + b;
    if Distinct(s) {
      forall i, j | 0 <= i < j < |b| ensures b[i] != b[j] {
        assert s[|a| + i] != s[|a| + j];
      }
      forall i, j | 0 <= i < |a| && 0 <= j < |b| ensures a[i] != b[j] {
        assert s[i] != s[|a| + j];
      }
      forall i, j | 0 <= i < j < |a| ensures a[i] != a[j] {
        assert s[i] != s[j];
      }
    }
    if Distinct(a) && Distinct(b) && forall x :: x in a ==> x !in b {
      forall i, j | 0 <= i < j < |s| ensures s[i] != s[j] {
        if i < |a| <= j {
          assert s[i] in a && s[j] in b;
        }
      }
    }
  }

  /** As many different elements as elements: that is what distinct means. */
  lemma {:induction false} DistinctSize<T>(s: seq<T>)
    ensures |Elements(s)| <= |s|
    ensures |Elements(s)| == |s| <==> Distinct(s)
  {
    if s != [] {
      var front, last := s[..|s| - 1], s[|s| - 1];
      DistinctSize(front);
      assert s == front + [last];
      DistinctAppend(front, [last]);
      ElementsAppend(front, [last]);
      assert Elements([last]) == {last};
      if last in front {
        assert Elements(s) == Elements(front);
      } else {
        assert |Elements(s)| == |Elements(front)| + 1;
      }
    }
  }

  // ---- who is counted twice -------------------------------------------------------------------

  lemma {:induction false} AcceptingDistinctIff(crypto: Crypto, verifiers: seq<Option<Verifier>>, pae: Bytes,
                                                sig: Signature)
    ensures Distinct(Accepting(crypto, verifiers, pae, sig)) <==> SuppliedOnce(crypto, verifiers, pae, sig)
  {
    if verifiers != [] {
      var front, last := verifiers[..|verifiers| - 1], verifiers[|verifiers| - 1];
      AcceptingDistinctIff(crypto, front, pae, sig);
      AcceptingMembers(crypto, front, pae, sig);
      SuppliedOnceMore(crypto, front, last, pae, sig);
      assert verifiers == front + [last];
      if last.Some? {
        DistinctAppend(Accepting(crypto, front, pae, sig), [last.value]);
      }
    }
  }

  lemma SuppliedOnceMore(crypto: Crypto, front: seq<Option<Verifier>>, last: Option<Verifier>, pae: Bytes,
                         sig: Signature)
    ensures SuppliedOnce(crypto, front + [last], pae, sig) <==>
      && SuppliedOnce(crypto, front, pae, sig)
      && (last.Some? && crypto.accepts(last.value, pae, sig.sig) ==> last !in front)
  {
    var all := front + [last];
    if SuppliedOnce(crypto, all, pae, sig) {
      forall k, l | 0 <= k < l < |front| && front[k] == front[l] && front[k].Some?
        ensures !crypto.accepts(front[k].value, pae, sig.sig)
      {
        assert all[k] == front[k] && all[l] == front[l];
      }
      if last in front {
        var k :| 0 <= k < |front| && front[k] == last;
        assert all[k] == all[|front|];
      }
    }
  }

  lemma CertPathBacks(crypto: Crypto, opts: VerificationOptions, pae: Bytes, sig: Signature)
    requires Usable(crypto, sig)
    ensures forall v :: v in CertPath(crypto, opts, pae, sig) ==> crypto.accepts(v, pae, sig.sig)
  {
    CertPathIff(crypto, opts, pae, sig);
  }

  lemma AcceptedForMembers(crypto: Crypto, opts: VerificationOptions, pae: Bytes, sig: Signature)
    ensures forall v :: v in AcceptedFor(crypto, opts, pae, sig) <==> Backs(crypto, opts, pae, sig, v)
  {
    AcceptingMembers(crypto, opts.verifiers, pae, sig);
  }

  lemma AcceptedForDistinctIff(crypto: Crypto, opts: VerificationOptions, pae: Bytes, sig: Signature)
    ensures Distinct(AcceptedFor(crypto, opts, pae, sig)) <==> BackedOnce(crypto, opts, pae, sig)
  {
    if Usable(crypto, sig) {
      DistinctAppend(CertPath(crypto, opts, pae, sig), Accepting(crypto, opts.verifiers, pae, sig));
      AcceptingDistinctIff(crypto, opts.verifiers, pae, sig);
      AcceptingMembers(crypto, opts.verifiers, pae, sig);
      CertPathBacks(crypto, opts, pae, sig);
    }
  }

  lemma {:induction false} AcceptedMembers(crypto: Crypto, opts: VerificationOptions, pae: Bytes, sigs: seq<Signature>)
    ensures forall v :: v in Accepted(crypto, opts, pae, sigs) <==>
      exists i :: 0 <= i < |sigs| && Backs(crypto, opts, pae, sigs[i], v)
  {
    if sigs != [] {
      var front, last := sigs[..|sigs| - 1], |sigs| - 1;
      AcceptedMembers(crypto, opts, pae, front);
      AcceptedForMembers(crypto, opts, pae, sigs[last]);
      forall v ensures v in Accepted(crypto, opts, pae, sigs) <==>
        exists i :: 0 <= i < |sigs| && Backs(crypto, opts, pae, sigs[i], v)
      {
        if i :| 0 <= i < |front| && Backs(crypto, opts, pae, front[i], v) {
          assert Backs(crypto, opts, pae, sigs[i], v);
        }
        if i :| 0 <= i < |sigs| && Backs(crypto, opts, pae, sigs[i], v) {
          assert i == last || Backs(crypto, opts, pae, front[i], v);
        }
      }
    }
  }

  lemma EachBacksOnceMore(crypto: Crypto, opts: VerificationOptions, pae: Bytes, all: seq<Signature>,
                          front: seq<Signature>, last: Signature)
    requires all == front + [last]
    ensures EachBacksOnce(crypto, opts, pae, all) <==>
      && EachBacksOnce(crypto, opts, pae, front) && BackedOnce(crypto, opts, pae, last)
      && Apart(crypto, opts, pae, front, last)
  {
    if EachBacksOnce(crypto, opts, pae, all) {
      assert all[|front|] == last;
      forall i | 0 <= i < |front| ensures BackedOnce(crypto, opts, pae, front[i]) {
        assert all[i] == front[i];
      }
      forall i, j, v | 0 <= i < j < |front| && Backs(crypto, opts, pae, front[i], v)
        ensures !Backs(crypto, opts, pae, front[j], v)
      {
        assert all[i] == front[i] && all[j] == front[j];
      }
      forall i, v | 0 <= i < |front| && Backs(crypto, opts, pae, front[i], v) ensures !Backs(crypto, opts, pae, last, v) {
        assert all[i] == front[i];
      }
    }
  }

  ghost predicate DistinctMeansOnce(crypto: Crypto, opts: VerificationOptions, pae: Bytes, sigs: seq<Signature>) {
    Distinct(Accepted(crypto, opts, pae, sigs)) <==> EachBacksOnce(crypto, opts, pae, sigs)
  }

  lemma AcceptedDistinctIff(crypto: Crypto, opts: VerificationOptions, pae: Bytes, sigs: seq<Signature>)
    ensures DistinctMeansOnce(crypto, opts, pae, sigs)
  {
    NobodyTwice(crypto, opts, pae, sigs);
    for n := 0 to |sigs|
      invariant DistinctMeansOnce(crypto, opts, pae, sigs[..n])
    {
      NextMeansOnce(crypto, opts, pae, sigs, n);
    }
    WholePrefix(sigs);
  }

  lemma WholePrefix<T>(s: seq<T>)
    ensures s[..|s|] == s
  {
  }

  lemma NextMeansOnce(crypto: Crypto, opts: VerificationOptions, pae: Bytes, sigs: seq<Signature>, n: nat)
    requires n < |sigs| && DistinctMeansOnce(crypto, opts, pae, sigs[..n])
    ensures DistinctMeansOnce(crypto, opts, pae, sigs[..n + 1])
  {
    AcceptedDistinctMore(crypto, opts, pae, sigs[..n + 1], sigs[..n], sigs[n]);
    EachBacksOnceMore(crypto, opts, pae, sigs[..n + 1], sigs[..n], sigs[n]);
  }

  lemma NobodyTwice(crypto: Crypto, opts: VerificationOptions, pae: Bytes, sigs: seq<Signature>)
    ensures DistinctMeansOnce(crypto, opts, pae, sigs[..0])
  {
  }

  lemma AcceptedDistinctMore(crypto: Crypto, opts: VerificationOptions, pae: Bytes, sigs: seq<Signature>,
                             front: seq<Signature>, last: Signature)
    requires sigs == front + [last]
    ensures Distinct(Accepted(crypto, opts, pae, sigs)) <==>
      && Distinct(Accepted(crypto, opts, pae, front)) && BackedOnce(crypto, opts, pae, last)
      && Apart(crypto, opts, pae, front, last)
  {
    assert sigs[..|front|] == front;
    var a, b := Accepted(crypto, opts, pae, front), AcceptedFor(crypto, opts, pae, last);
    assert Accepted(crypto, opts, pae, sigs) == a + b;
    ApartIff(crypto, opts, pae, front, last);
    AcceptedForDistinctIff(crypto, opts, pae, last);
    DistinctAppend(a, b);
  }

  /** Nobody backs the last signature and an earlier one. */
  ghost predicate Apart(crypto: Crypto, opts: VerificationOptions, pae: Bytes, front: seq<Signature>, last: Signature) {
    forall i, v :: 0 <= i < |front| && Backs(crypto, opts, pae, front[i], v) ==> !Backs(crypto, opts, pae, last, v)
  }

  lemma ApartIff(crypto: Crypto, opts: VerificationOptions, pae: Bytes, front: seq<Signature>, last: Signature)
    ensures Apart(crypto, opts, pae, front, last) <==>
      forall v :: v in Accepted(crypto, opts, pae, front) ==> v !in AcceptedFor(crypto, opts, pae, last)
  {
    AcceptedMembers(crypto, opts, pae, front);
    AcceptedForMembers(crypto, opts, pae, last);
  }

  // ---- what a met threshold means -------------------------------------------------------------

  /** The verifiers that back some signature. */
  ghost function Backers(crypto: Crypto, opts: VerificationOptions, pae: Bytes, sigs: seq<Signature>): set<Verifier> {
    Elements(Accepted(crypto, opts, pae, sigs))
  }

  /** Whatever the threshold, meeting it takes that many different verifiers. */
  ghost predicate ThresholdsCountVerifiers(crypto: Crypto, opts: VerificationOptions, pae: Bytes, sigs: seq<Signature>) {
    forall t: int :: Succeeds(crypto, opts.(threshold := t), pae, sigs) ==> |Backers(crypto, opts, pae, sigs)| >= t
  }

  lemma {:induction false} AcceptedIgnoresThreshold(crypto: Crypto, opts: VerificationOptions, t: int, pae: Bytes,
                                                    sigs: seq<Signature>)
    ensures Accepted(crypto, opts.(threshold := t), pae, sigs) == Accepted(crypto, opts, pae, sigs)
  {
    if sigs != [] {
      AcceptedIgnoresThreshold(crypto, opts, t, pae, sigs[..|sigs| - 1]);
      if Usable(crypto, sigs[|sigs| - 1]) {
        CertPathIgnoresVerifiers(crypto, opts, opts.(threshold := t), pae, sigs[|sigs| - 1]);
      }
    }
  }

  /** The verifiers behind a verification are those that back one of its signatures. */
  lemma BackersAre(crypto: Crypto, opts: VerificationOptions, pae: Bytes, sigs: seq<Signature>)
    ensures forall v :: v in Backers(crypto, opts, pae, sigs) <==>
      exists i :: 0 <= i < |sigs| && Backs(crypto, opts, pae, sigs[i], v)
  {
    AcceptedMembers(crypto, opts, pae, sigs);
  }

  /**
   * The threshold counts acceptances. It counts verifiers as well if and only if no verifier backs two of the signatures,
   * none that accepts one is supplied twice, and no supplied one is the certificate's own.
   */
  lemma ThresholdsCountVerifiersIff(crypto: Crypto, opts: VerificationOptions, pae: Bytes, sigs: seq<Signature>)
    ensures ThresholdsCountVerifiers(crypto, opts, pae, sigs) <==> EachBacksOnce(crypto, opts, pae, sigs)
  {
    var accepted := Accepted(crypto, opts, pae, sigs);
    DistinctSize(accepted);
    AcceptedDistinctIff(crypto, opts, pae, sigs);
    if ThresholdsCountVerifiers(crypto, opts, pae, sigs) && accepted != [] {
      AcceptedIgnoresThreshold(crypto, opts, |accepted|, pae, sigs);
      assert Succeeds(crypto, opts.(threshold := |accepted|), pae, sigs);
    }
    forall t: int | Distinct(accepted) && Succeeds(crypto, opts.(threshold := t), pae, sigs)
      ensures |Backers(crypto, opts, pae, sigs)| >= t
    {
      AcceptedIgnoresThreshold(crypto, opts, t, pae, sigs);
    }
  }

  /** One key meets a threshold of two with the same signature twice, and with one signature when it is supplied twice. */
  lemma OneKeyMeetsTwo(crypto: Crypto, v: Verifier, pae: Bytes, sig: Signature)
    requires sig.certificate == [] && crypto.accepts(v, pae, sig.sig)
    ensures
      var opts := VerificationOptions([], [], [Some(v)], 2, []);
      Succeeds(crypto, opts, pae, [sig, sig]) && Backers(crypto, opts, pae, [sig, sig]) == {v}
    ensures
      var opts := VerificationOptions([], [], [Some(v), Some(v)], 2, []);
      Succeeds(crypto, opts, pae, [sig]) && Backers(crypto, opts, pae, [sig]) == {v}
  {
    var one: seq<Option<Verifier>> := [Some(v)];
    AcceptsOnceMore(crypto, [], v, pae, sig);
    AcceptsOnceMore(crypto, one, v, pae, sig);
    assert [] + one == one && one + [Some(v)] == [Some(v), Some(v)];
    var once, twice := VerificationOptions([], [], one, 2, []), VerificationOptions([], [], [Some(v), Some(v)], 2, []);
    assert [sig, sig][..1] == [sig] && [sig][..0] == [];
    assert Accepted(crypto, once, pae, [sig]) == Accepted(crypto, once, pae, []) + AcceptedFor(crypto, once, pae, sig);
    assert Accepted(crypto, once, pae, [sig, sig]) == [v, v];
    assert Accepted(crypto, twice, pae, [sig]) == Accepted(crypto, twice, pae, []) + AcceptedFor(crypto, twice, pae, sig);
    assert Accepted(crypto, twice, pae, [sig]) == [v, v];
  }

  lemma AcceptsOnceMore(crypto: Crypto, front: seq<Option<Verifier>>, v: Verifier, pae: Bytes, sig: Signature)
    requires crypto.accepts(v, pae, sig.sig)
    ensures Accepting(crypto, front + [Some(v)], pae, sig) == Accepting(crypto, front, pae, sig) + [v]
  {
    assert (front + [Some(v)])[..|front|] == front;
  }
}
