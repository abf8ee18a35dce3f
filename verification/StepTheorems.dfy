// What it means to get past a step's two filters, and that neither filter loses anything.
module StepTheorems {
  import opened Options
  import opened Collections
  import opened Envelopes
  import opened Sources
  import opened Functionaries
  import opened Steps

  // ---- the functionary check ------------------------------------------------------------------

  lemma {:induction false} LastMatchIs(rules: Rules, fs: seq<Functionary>, vs: seq<Verifier>)
    ensures LastMatch(rules, fs, vs).None? <==> forall i :: 0 <= i < |vs| ==> !MatchesSome(rules, fs, vs[i])
    ensures LastMatch(rules, fs, vs).Some? ==>
      exists i :: 0 <= i < |vs| && LastMatch(rules, fs, vs) == Some(vs[i]) && MatchesSome(rules, fs, vs[i])
        && (forall j :: i < j < |vs| ==> !MatchesSome(rules, fs, vs[j]))
  {
    if vs != [] {
      var front, last := vs[..|vs| - 1], |vs| - 1;
      LastMatchIs(rules, fs, front);
      if MatchesSome(rules, fs, vs[last]) {
        assert LastMatch(rules, fs, vs) == Some(vs[last]);
      } else if LastMatch(rules, fs, front).Some? {
        var i :| 0 <= i < |front| && LastMatch(rules, fs, front) == Some(front[i]) && MatchesSome(rules, fs, front[i])
          && (forall j :: i < j < |front| ==> !MatchesSome(rules, fs, front[j]));
        assert vs[i] == front[i];
        assert forall j :: i < j < |vs| ==> j == last || vs[j] == front[j];
      }
    }
  }

  /** Some functionary of the step accepts one of the statement's verifiers. */
  ghost predicate SignedForStep(rules: Rules, step: Step, s: CollectionResult) {
    exists i :: 0 <= i < |s.verifiers| && MatchesSome(rules, step.functionaries, s.verifiers[i])
  }

  /**
   * The check admits a statement exactly when a functionary accepts one of its verifiers, or it had both verifiers and
   * valid functionaries to begin with.
   */
  lemma AdmittedIff(rules: Rules, step: Step, s: CollectionResult)
    ensures Admitted(rules, step, s) <==>
      SignedForStep(rules, step, s) || (s.verifiers != [] && s.validFunctionaries != [])
  {
    LastMatchIs(rules, step.functionaries, s.verifiers);
  }

  /** So statements that come in with functionaries already filled in get through without any match. */
  lemma PriorFunctionariesBypassTheCheck(rules: Rules, step: Step, s: CollectionResult)
    requires step.functionaries == [] && s.verifiers != [] && s.validFunctionaries != []
    ensures Admitted(rules, step, s) && !SignedForStep(rules, step, s)
  {
    AdmittedIff(rules, step, s);
  }

  /** Of all the verifiers that match, a fresh statement keeps the last one only. */
  lemma OnlyLastMatchSurvives(rules: Rules, step: Step, s: CollectionResult, i: nat)
    requires s.validFunctionaries == [] && i < |s.verifiers|
    requires MatchesSome(rules, step.functionaries, s.verifiers[i])
    requires forall j :: i < j < |s.verifiers| ==> !MatchesSome(rules, step.functionaries, s.verifiers[j])
    ensures Settled(rules, step, s).validFunctionaries == [s.verifiers[i]]
  {
    LastMatchIs(rules, step.functionaries, s.verifiers);
    var k :| 0 <= k < |s.verifiers|
      && LastMatch(rules, step.functionaries, s.verifiers) == Some(s.verifiers[k])
      && MatchesSome(rules, step.functionaries, s.verifiers[k])
      && (forall j :: k < j < |s.verifiers| ==> !MatchesSome(rules, step.functionaries, s.verifiers[j]));
    assert k == i;
  }

  lemma {:induction false} FunctionaryPassedMembers(rules: Rules, step: Step, ss: seq<CollectionResult>)
    ensures forall c :: c in FunctionaryPassed(rules, step, ss) <==>
      exists s :: s in ss && Admitted(rules, step, s) && c == Settled(rules, step, s)
  {
    if ss != [] {
      var front, last := ss[..|ss| - 1], ss[|ss| - 1];
      FunctionaryPassedMembers(rules, step, front);
      assert ss == front + [last];
      forall c ensures c in FunctionaryPassed(rules, step, ss) <==>
        exists s :: s in ss && Admitted(rules, step, s) && c == Settled(rules, step, s)
      {
        if c in FunctionaryPassed(rules, step, front) {
          var s :| s in front && Admitted(rules, step, s) && c == Settled(rules, step, s);
          assert s in ss;
        } else if c in FunctionaryPassed(rules, step, ss) {
          assert last in ss && Admitted(rules, step, last) && c == Settled(rules, step, last);
        }
        if s :| s in ss && Admitted(rules, step, s) && c == Settled(rules, step, s) {
          assert s in front || s == last;
        }
      }
    }
  }

  /** The statements that pass keep their order. */
  lemma {:induction false} FunctionaryPassedInOrder(rules: Rules, step: Step, ss: seq<CollectionResult>)
    returns (idx: seq<nat>)
    ensures Increasing(idx, |ss|) && |idx| == |FunctionaryPassed(rules, step, ss)|
    ensures forall k :: 0 <= k < |idx| ==> FunctionaryPassed(rules, step, ss)[k] == Settled(rules, step, ss[idx[k]])
    ensures forall i :: 0 <= i < |ss| && Admitted(rules, step, ss[i]) ==> i in idx
  {
    if ss == [] {
      idx := [];
    } else {
      var front, last := ss[..|ss| - 1], |ss| - 1;
      idx := FunctionaryPassedInOrder(rules, step, front);
      assert forall i :: 0 <= i < |front| ==> front[i] == ss[i];
      if Admitted(rules, step, ss[last]) {
        idx := idx + [last];
      }
    }
  }

  lemma {:induction false} LastRejectingIs(rules: Rules, fs: seq<Functionary>, v: Verifier)
    ensures LastRejecting(rules, fs, v).None? <==> forall j :: 0 <= j < |fs| ==> Accepts(rules, fs[j], v)
    ensures forall j :: IsLastRejecting(rules, fs, v, j) ==>
      LastRejecting(rules, fs, v) == Some(FunctionaryRejected(fs[j].publicKeyId))
  {
    if fs != [] {
      var front, last := fs[..|fs| - 1], |fs| - 1;
      LastRejectingIs(rules, front, v);
      forall j | IsLastRejecting(rules, fs, v, j) && j < last ensures IsLastRejecting(rules, front, v, j) {
        assert Accepts(rules, fs[last], v);
        assert forall k :: j < k < |front| ==> front[k] == fs[k];
      }
      assert forall j :: 0 <= j < |fs| ==> j == last || fs[j] == front[j];
    }
  }

  /** Functionary `j` is the last one that does not accept the verifier. */
  ghost predicate IsLastRejecting(rules: Rules, fs: seq<Functionary>, v: Verifier, j: int) {
    0 <= j < |fs| && !Accepts(rules, fs[j], v) && forall k :: j < k < |fs| ==> Accepts(rules, fs[k], v)
  }

  /** Of all pairs of a verifier and a functionary that does not accept it, this is the last. */
  ghost predicate IsLastPair(rules: Rules, fs: seq<Functionary>, vs: seq<Verifier>, i: int, j: int) {
    && 0 <= i < |vs| && IsLastRejecting(rules, fs, vs[i], j)
    && (forall k :: i < k < |vs| ==> AcceptedByAll(rules, fs, vs[k]))
  }

  ghost predicate AcceptedByAll(rules: Rules, fs: seq<Functionary>, v: Verifier) {
    forall j :: 0 <= j < |fs| ==> Accepts(rules, fs[j], v)
  }

  /** The one warning that is kept names the last functionary that did not accept the last verifier to have one. */
  lemma {:induction false} LastWarningIs(rules: Rules, fs: seq<Functionary>, vs: seq<Verifier>)
    ensures LastWarning(rules, fs, vs).None? <==> forall i :: 0 <= i < |vs| ==> AcceptedByAll(rules, fs, vs[i])
    ensures forall i, j :: IsLastPair(rules, fs, vs, i, j) ==>
      LastWarning(rules, fs, vs) == Some(FunctionaryRejected(fs[j].publicKeyId))
  {
    if vs != [] {
      var front, last := vs[..|vs| - 1], |vs| - 1;
      LastWarningIs(rules, fs, front);
      LastRejectingIs(rules, fs, vs[last]);
      forall i, j | IsLastPair(rules, fs, vs, i, j) && i < last ensures IsLastPair(rules, fs, front, i, j) {
        assert AcceptedByAll(rules, fs, vs[last]);
        assert forall k :: i < k < |front| ==> front[k] == vs[k];
      }
      assert forall i :: 0 <= i < |vs| ==> i == last || vs[i] == front[i];
    }
  }

  /** What the check says against a statement. */
  ghost predicate IsTurnedDown(rules: Rules, step: Step, s: CollectionResult, x: RejectedCollection) {
    || (s.env.statement.predicateType != COLLECTION_TYPE && x == RejectedCollection(Some(s), WrongPredicateType))
    || (s.verifiers == [] && x == RejectedCollection(Some(s), NoVerifiers))
    || (&& s.verifiers != [] && s.validFunctionaries == [] && !SignedForStep(rules, step, s)
        && x == RejectedCollection(Some(Settled(rules, step, s)), NoFunctionaryMatched))
  }

  lemma {:induction false} FunctionaryRejectedMembers(rules: Rules, step: Step, ss: seq<CollectionResult>)
    ensures forall x :: x in FunctionaryRejections(rules, step, ss) <==>
      exists s :: s in ss && IsTurnedDown(rules, step, s, x)
  {
    if ss != [] {
      var front, last := ss[..|ss| - 1], ss[|ss| - 1];
      FunctionaryRejectedMembers(rules, step, front);
      AdmittedIff(rules, step, last);
      assert ss == front + [last];
      assert forall x :: x in RejectionsOf(rules, step, last) <==> IsTurnedDown(rules, step, last, x);
      forall x ensures x in FunctionaryRejections(rules, step, ss) <==> exists s :: s in ss && IsTurnedDown(rules, step, s, x) {
        if s :| s in ss && IsTurnedDown(rules, step, s, x) {
          assert s in front || s == last;
        }
        if x in FunctionaryRejections(rules, step, front) {
          var s :| s in front && IsTurnedDown(rules, step, s, x);
          assert s in ss;
        } else if x in FunctionaryRejections(rules, step, ss) {
          assert last in ss && IsTurnedDown(rules, step, last, x);
        }
      }
    }
  }

  /** The statements of a wrong predicate type. */
  function WrongTyped(ss: seq<CollectionResult>): seq<CollectionResult> {
    if ss == [] then [] else
    var front, last := WrongTyped(ss[..|ss| - 1]), ss[|ss| - 1];
    if last.env.statement.predicateType != COLLECTION_TYPE then front + [last] else front
  }

  /** The envelopes behind a list of results: what the check leaves alone. */
  function Envs(rs: seq<CollectionResult>): multiset<CollectionEnvelope> {
    if rs == [] then multiset{} else Envs(rs[..|rs| - 1]) + multiset{rs[|rs| - 1].env}
  }

  lemma {:induction false} EnvsAppend(a: seq<CollectionResult>, b: seq<CollectionResult>)
    ensures Envs(a + b) == Envs(a) + Envs(b)
  {
    if b == [] {
      assert a + b == a;
    } else {
      assert (a + b)[..|a + b| - 1] == a + b[..|b| - 1];
      EnvsAppend(a, b[..|b| - 1]);
    }
  }

  lemma EnvsOne(front: seq<CollectionResult>, c: CollectionResult)
    ensures Envs(front + [c]) == Envs(front) + multiset{c.env}
  {
    assert (front + [c])[..|front|] == front;
  }

  lemma {:induction false} RejectedAppend(a: seq<RejectedCollection>, b: seq<RejectedCollection>)
    ensures RejectedCollections(a + b) == RejectedCollections(a) + RejectedCollections(b)
  {
    if b == [] {
      assert a + b == a;
    } else {
      assert (a + b)[..|a + b| - 1] == a + b[..|b| - 1];
      RejectedAppend(a, b[..|b| - 1]);
    }
  }

  /** What one statement is passed and rejected as: itself, and once more if it is of a wrong type. */
  lemma OneStatement(rules: Rules, step: Step, s: CollectionResult)
    ensures Envs(RejectedCollections(RejectionsOf(rules, step, s))) + Once(Admitted(rules, step, s), s)
      == multiset{s.env} + Once(s.env.statement.predicateType != COLLECTION_TYPE, s)
  {
    var wrong := if s.env.statement.predicateType != COLLECTION_TYPE
      then [RejectedCollection(Some(s), WrongPredicateType)] else [];
    var rest := if s.verifiers == [] then [RejectedCollection(Some(s), NoVerifiers)]
      else if !Admitted(rules, step, s) then [RejectedCollection(Some(Settled(rules, step, s)), NoFunctionaryMatched)]
      else [];
    RejectedOne(s, WrongPredicateType);
    RejectedOne(s, NoVerifiers);
    RejectedOne(Settled(rules, step, s), NoFunctionaryMatched);
    assert RejectedCollections([]) == [];
    RejectedAppend(wrong, rest);
    EnvsAppend(RejectedCollections(wrong), RejectedCollections(rest));
    assert RejectionsOf(rules, step, s) == wrong + rest;
  }

  lemma RejectedPush(front: seq<RejectedCollection>, r: RejectedCollection)
    ensures RejectedCollections(front + [r]) == RejectedCollections(front) + ToSeq(r.collection)
  {
    assert (front + [r])[..|front|] == front;
  }

  lemma RejectedOne(c: CollectionResult, reason: Reason)
    ensures RejectedCollections([RejectedCollection(Some(c), reason)]) == [c] && Envs([c]) == multiset{c.env}
  {
    RejectedPush([], RejectedCollection(Some(c), reason));
    assert [] + [RejectedCollection(Some(c), reason)] == [RejectedCollection(Some(c), reason)];
    EnvsOne([], c);
    assert [] + [c] == [c];
  }

  /**
   * Passed and rejected together are the statements, each exactly once, and those of a wrong predicate type once more
   * among the rejected.
   */
  lemma {:induction false} FunctionaryCheckConserves(rules: Rules, step: Step, ss: seq<CollectionResult>)
    ensures Envs(FunctionaryPassed(rules, step, ss)) + Envs(RejectedCollections(FunctionaryRejections(rules, step, ss)))
      == Envs(ss) + Envs(WrongTyped(ss))
  {
    if ss != [] {
      var front, last := ss[..|ss| - 1], ss[|ss| - 1];
      FunctionaryCheckConserves(rules, step, front);
      OneStatement(rules, step, last);
      PassedOneMore(rules, step, ss);
      RejectedOneMore(rules, step, ss);
      WrongTypedOneMore(ss);
      Rearranged(Envs(FunctionaryPassed(rules, step, front)),
                 Envs(RejectedCollections(FunctionaryRejections(rules, step, front))), Envs(front),
                 Envs(WrongTyped(front)), Once(Admitted(rules, step, last), last),
                 Envs(RejectedCollections(RejectionsOf(rules, step, last))), multiset{last.env},
                 Once(last.env.statement.predicateType != COLLECTION_TYPE, last));
    }
  }

  /** The statement's envelope if it counts. */
  function Once(counts: bool, s: CollectionResult): multiset<CollectionEnvelope> {
    if counts then multiset{s.env} else multiset{}
  }

  lemma PassedOneMore(rules: Rules, step: Step, ss: seq<CollectionResult>)
    requires ss != []
    ensures
      var front, last := ss[..|ss| - 1], ss[|ss| - 1];
      Envs(FunctionaryPassed(rules, step, ss))
        == Envs(FunctionaryPassed(rules, step, front)) + Once(Admitted(rules, step, last), last)
  {
    EnvsOne(FunctionaryPassed(rules, step, ss[..|ss| - 1]), Settled(rules, step, ss[|ss| - 1]));
  }

  lemma RejectedOneMore(rules: Rules, step: Step, ss: seq<CollectionResult>)
    requires ss != []
    ensures
      var front, last := ss[..|ss| - 1], ss[|ss| - 1];
      Envs(RejectedCollections(FunctionaryRejections(rules, step, ss)))
        == Envs(RejectedCollections(FunctionaryRejections(rules, step, front)))
         + Envs(RejectedCollections(RejectionsOf(rules, step, last)))
  {
    var before, more := FunctionaryRejections(rules, step, ss[..|ss| - 1]), RejectionsOf(rules, step, ss[|ss| - 1]);
    RejectedAppend(before, more);
    EnvsAppend(RejectedCollections(before), RejectedCollections(more));
  }

  lemma WrongTypedOneMore(ss: seq<CollectionResult>)
    requires ss != []
    ensures
      var front, last := ss[..|ss| - 1], ss[|ss| - 1];
      Envs(WrongTyped(ss))
        == Envs(WrongTyped(front)) + Once(last.env.statement.predicateType != COLLECTION_TYPE, last)
  {
    EnvsOne(WrongTyped(ss[..|ss| - 1]), ss[|ss| - 1]);
  }

  lemma Rearranged<T>(a: multiset<T>, b: multiset<T>, c: multiset<T>, d: multiset<T>, a2: multiset<T>, b2: multiset<T>,
                      c2: multiset<T>, d2: multiset<T>)
    requires a + b == c + d && b2 + a2 == c2 + d2
    ensures (a + a2) + (b + b2) == (c + c2) + (d + d2)
  {
    assert (a + a2) + (b + b2) == (a + b) + (b2 + a2);
    assert (c + c2) + (d + d2) == (c + d) + (c2 + d2);
  }

  // ---- the attestation check ------------------------------------------------------------------

  /** Attestation `i` is the last one recorded under the type. */
  ghost predicate LastRecorded(atts: seq<CollectionAttestation>, typ: string, i: nat) {
    && i < |atts| && atts[i].recordedType == typ
    && (forall j :: i < j < |atts| ==> atts[j].recordedType != typ)
  }

  lemma {:induction false} FoundIsLastRecorded(atts: seq<CollectionAttestation>, typ: string)
    ensures Found(atts, typ).None? <==> forall i :: 0 <= i < |atts| ==> atts[i].recordedType != typ
    ensures Found(atts, typ).Some? <==> exists i: nat :: LastRecorded(atts, typ, i)
    ensures forall i: nat :: LastRecorded(atts, typ, i) ==> Found(atts, typ) == Some(atts[i].attestor)
  {
    if atts != [] {
      var front, last := atts[..|atts| - 1], |atts| - 1;
      FoundIsLastRecorded(front, typ);
      forall i: nat ensures LastRecorded(atts, typ, i) <==>
        if atts[last].recordedType == typ then i == last else LastRecorded(front, typ, i)
      {
        if LastRecorded(atts, typ, i) && i < last {
          assert forall j :: i < j < |front| ==> front[j] == atts[j];
        } else if LastRecorded(front, typ, i) {
          assert forall j :: i < j < |atts| ==> j == last || atts[j] == front[j];
        }
      }
      if atts[last].recordedType == typ {
        assert LastRecorded(atts, typ, last);
      } else {
        assert forall i :: 0 <= i < |atts| ==> i == last || atts[i] == front[i];
      }
    }
  }

  /** The expected attestation is there, and the rego policies that come with it accept the one recorded last. */
  ghost predicate IsMet(rego: (Option<Attestor>, seq<RegoPolicy>) -> bool, atts: seq<CollectionAttestation>,
                        e: ExpectedAttestation)
  {
    exists i: nat :: LastRecorded(atts, e.typ, i) && (e.regoPolicies == [] || rego(Some(atts[i].attestor), e.regoPolicies))
  }

  /** Nothing is wrong with the envelope, and every expected attestation is met. */
  ghost predicate Complete(rules: Rules, step: Step, r: CollectionResult) {
    && r.errors == []
    && (forall i :: 0 <= i < |step.attestations| ==>
          IsMet(rules.rego, r.env.collection.attestations, step.attestations[i]))
  }

  /** The reasons the check can have against a collection: an error of its envelope, or an expected attestation not met. */
  ghost predicate Faulted(rules: Rules, step: Step, r: CollectionResult, f: Failure) {
    match f
    case EnvelopeError(e) => e in r.errors
    case Missing(typ) =>
      exists e :: e in step.attestations && e.typ == typ && IsAbsent(r.env.collection.attestations, typ)
    case Denied(typ) =>
      exists e :: e in step.attestations && e.typ == typ && IsDenied(rules.rego, r.env.collection.attestations, e)
  }

  ghost predicate IsAbsent(atts: seq<CollectionAttestation>, typ: string) {
    forall i :: 0 <= i < |atts| ==> atts[i].recordedType != typ
  }

  /** The policies are evaluated even when the attestation is not there. */
  ghost predicate IsDenied(rego: (Option<Attestor>, seq<RegoPolicy>) -> bool, atts: seq<CollectionAttestation>,
                           e: ExpectedAttestation)
  {
    e.regoPolicies != [] &&
    (|| (IsAbsent(atts, e.typ) && !rego(None, e.regoPolicies))
     || (exists i: nat :: LastRecorded(atts, e.typ, i) && !rego(Some(atts[i].attestor), e.regoPolicies)))
  }

  lemma FailuresForAre(rules: Rules, c: Collection, e: ExpectedAttestation)
    ensures forall f :: f in FailuresFor(rules, c, e) <==>
      || (f == Missing(e.typ) && IsAbsent(c.attestations, e.typ))
      || (f == Denied(e.typ) && IsDenied(rules.rego, c.attestations, e))
    ensures FailuresFor(rules, c, e) == [] <==> IsMet(rules.rego, c.attestations, e)
  {
    FoundIsLastRecorded(c.attestations, e.typ);
    if i: nat :| LastRecorded(c.attestations, e.typ, i) {
      assert Found(c.attestations, e.typ) == Some(c.attestations[i].attestor);
    }
  }

  lemma {:induction false} AttestationFailuresAre(rules: Rules, c: Collection, expected: seq<ExpectedAttestation>)
    ensures forall f :: f in AttestationFailures(rules, c, expected) <==>
      exists k :: 0 <= k < |expected| && f in FailuresFor(rules, c, expected[k])
    ensures AttestationFailures(rules, c, expected) == [] <==>
      forall k :: 0 <= k < |expected| ==> IsMet(rules.rego, c.attestations, expected[k])
  {
    if expected != [] {
      var front, last := expected[..|expected| - 1], |expected| - 1;
      AttestationFailuresAre(rules, c, front);
      FailuresForAre(rules, c, expected[last]);
      assert forall k :: 0 <= k < |expected| ==> k == last || expected[k] == front[k];
      forall f ensures f in AttestationFailures(rules, c, expected) <==>
        exists k :: 0 <= k < |expected| && f in FailuresFor(rules, c, expected[k])
      {
        if k :| 0 <= k < |front| && f in FailuresFor(rules, c, front[k]) {
          assert f in FailuresFor(rules, c, expected[k]);
        }
        if k :| 0 <= k < |expected| && f in FailuresFor(rules, c, expected[k]) {
          assert k == last || f in FailuresFor(rules, c, front[k]);
        }
      }
    }
  }

  lemma {:induction false} EnvelopeFailuresAre(errors: seq<SourceError>)
    ensures forall f :: f in EnvelopeFailures(errors) <==> f.EnvelopeError? && f.error in errors
  {
    if errors != [] {
      var front, last := errors[..|errors| - 1], errors[|errors| - 1];
      EnvelopeFailuresAre(front);
      assert forall e :: e in errors <==> e in front || e == last;
    }
  }

  /** The failures noted are those that are. */
  lemma FailuresAre(rules: Rules, step: Step, r: CollectionResult)
    ensures forall f :: f in FailuresOf(rules, step, r) <==> Faulted(rules, step, r, f)
  {
    assert forall k :: 0 <= k < |step.attestations| ==> step.attestations[k] in step.attestations;
    EnvelopeFailuresAre(r.errors);
    AttestationFailuresAre(rules, r.env.collection, step.attestations);
    forall k | 0 <= k < |step.attestations|
      ensures forall f :: f in FailuresFor(rules, r.env.collection, step.attestations[k]) <==>
        || (f == Missing(step.attestations[k].typ) && IsAbsent(r.env.collection.attestations, step.attestations[k].typ))
        || (f == Denied(step.attestations[k].typ)
            && IsDenied(rules.rego, r.env.collection.attestations, step.attestations[k]))
    {
      FailuresForAre(rules, r.env.collection, step.attestations[k]);
    }
  }

  lemma NoFailuresIff(rules: Rules, step: Step, r: CollectionResult)
    ensures FailuresOf(rules, step, r) == [] <==> Complete(rules, step, r)
  {
    AttestationFailuresAre(rules, r.env.collection, step.attestations);
  }

  lemma {:induction false} ValidationPassedMembers(rules: Rules, step: Step, rs: seq<CollectionResult>)
    ensures forall c :: c in ValidationPassed(rules, step, rs) <==> c in rs && c.env.collection.name in {step.name, ""} && Complete(rules, step, c)
  {
    if rs != [] {
      var front, last := rs[..|rs| - 1], rs[|rs| - 1];
      ValidationPassedMembers(rules, step, front);
      NoFailuresIff(rules, step, last);
      assert rs == front + [last];
    }
  }

  /** And so do the collections. */
  lemma {:induction false} ValidationPassedInOrder(rules: Rules, step: Step, rs: seq<CollectionResult>)
    returns (idx: seq<nat>)
    ensures Increasing(idx, |rs|) && |idx| == |ValidationPassed(rules, step, rs)|
    ensures forall k :: 0 <= k < |idx| ==> ValidationPassed(rules, step, rs)[k] == rs[idx[k]]
    ensures forall i :: 0 <= i < |rs| && rs[i].env.collection.name in {step.name, ""} && Complete(rules, step, rs[i]) ==>
      i in idx
  {
    if rs == [] {
      idx := [];
    } else {
      var front, last := rs[..|rs| - 1], |rs| - 1;
      idx := ValidationPassedInOrder(rules, step, front);
      assert forall i :: 0 <= i < |front| ==> front[i] == rs[i];
      NoFailuresIff(rules, step, rs[last]);
      if ForStep(step, rs[last]) && FailuresOf(rules, step, rs[last]) == [] {
        idx := idx + [last];
      }
    }
  }

  /** The collection is named for the step, or for no step at all, and is rejected with what is wrong with it. */
  ghost predicate IsRejected(rules: Rules, step: Step, r: CollectionResult, x: RejectedCollection) {
    && r.env.collection.name in {step.name, ""} && !Complete(rules, step, r)
    && x == RejectedCollection(Some(r), ValidationFailed(FailuresOf(rules, step, r)))
  }

  /** What is rejected: everything for the step that is not complete. */
  lemma {:induction false} ValidationRejectedMembers(rules: Rules, step: Step, rs: seq<CollectionResult>)
    ensures forall x :: x in ValidationRejections(rules, step, rs) <==> exists r :: r in rs && IsRejected(rules, step, r, x)
  {
    if rs != [] {
      var front, last := rs[..|rs| - 1], rs[|rs| - 1];
      ValidationRejectedMembers(rules, step, front);
      NoFailuresIff(rules, step, last);
      assert rs == front + [last];
      forall x ensures x in ValidationRejections(rules, step, rs) <==> exists r :: r in rs && IsRejected(rules, step, r, x) {
        if r :| r in rs && IsRejected(rules, step, r, x) {
          assert r in front || r == last;
        }
        if x in ValidationRejections(rules, step, front) {
          var r :| r in front && IsRejected(rules, step, r, x);
          assert r in rs;
        } else if x in ValidationRejections(rules, step, rs) {
          assert last in rs && IsRejected(rules, step, last, x);
        }
      }
    }
  }

  /** A denial for any expected attestation keeps a collection out, and is among the reasons given. */
  lemma DenialRejects(rules: Rules, step: Step, rs: seq<CollectionResult>, r: CollectionResult, k: nat)
    requires r in rs && r.env.collection.name in {step.name, ""} && k < |step.attestations|
    requires IsDenied(rules.rego, r.env.collection.attestations, step.attestations[k])
    ensures r !in ValidationPassed(rules, step, rs)
    ensures exists fs ::
      RejectedCollection(Some(r), ValidationFailed(fs)) in ValidationRejections(rules, step, rs)
        && Denied(step.attestations[k].typ) in fs
  {
    FailuresAre(rules, step, r);
    assert step.attestations[k] in step.attestations;
    assert Faulted(rules, step, r, Denied(step.attestations[k].typ));
    var fs := FailuresOf(rules, step, r);
    NoFailuresIff(rules, step, r);
    ValidationPassedMembers(rules, step, rs);
    ValidationRejectedMembers(rules, step, rs);
    assert IsRejected(rules, step, r, RejectedCollection(Some(r), ValidationFailed(fs)));
    assert RejectedCollection(Some(r), ValidationFailed(fs)) in ValidationRejections(rules, step, rs);
  }

  /** The collections of three lists taken together. */
  function Together(passed: seq<CollectionResult>, rejected: seq<RejectedCollection>, skipped: seq<CollectionResult>)
    : multiset<CollectionResult>
  {
    multiset(passed) + multiset(RejectedCollections(rejected)) + multiset(skipped)
  }

  /** Every collection is passed, rejected or skipped, and exactly one of the three. */
  lemma {:induction false} ValidationConserves(rules: Rules, step: Step, rs: seq<CollectionResult>)
    ensures Together(ValidationPassed(rules, step, rs), ValidationRejections(rules, step, rs), Skipped(step, rs))
      == multiset(rs)
    ensures |ValidationPassed(rules, step, rs)| + |ValidationRejections(rules, step, rs)| + |Skipped(step, rs)| == |rs|
  {
    if rs != [] {
      var front, last := rs[..|rs| - 1], rs[|rs| - 1];
      ValidationConserves(rules, step, front);
      assert multiset(rs) == multiset(front) + multiset{last} by {
        assert rs == front + [last];
      }
      var p, r, s := ValidationPassed(rules, step, front), ValidationRejections(rules, step, front), Skipped(step, front);
      OneMore(p, r, s, last, ValidationFailed(FailuresOf(rules, step, last)));
    }
  }

  lemma OneMore(p: seq<CollectionResult>, r: seq<RejectedCollection>, s: seq<CollectionResult>, c: CollectionResult,
                reason: Reason)
    ensures Together(p + [c], r, s) == Together(p, r, s) + multiset{c}
    ensures Together(p, r + [RejectedCollection(Some(c), reason)], s) == Together(p, r, s) + multiset{c}
    ensures Together(p, r, s + [c]) == Together(p, r, s) + multiset{c}
  {
    var more := r + [RejectedCollection(Some(c), reason)];
    assert more[..|more| - 1] == r;
  }

  function RejectedCollections(rs: seq<RejectedCollection>): seq<CollectionResult> {
    if rs == [] then [] else RejectedCollections(rs[..|rs| - 1]) + ToSeq(rs[|rs| - 1].collection)
  }
}
