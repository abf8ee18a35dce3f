// The bounded search over back references, with a verified source on top of an in-memory one.
module BackRefSearch {
  import opened Options
  import opened Collections
  import opened Envelopes
  import opened Sources
  import opened Steps
  import opened PolicyEngine
  import opened Soundness

  /** What is loaded, and how it is verified. */
  datatype Store = Store(crypto: Crypto, verifyOpts: VerificationOptions, loads: seq<CollectionEnvelope>)

  /** `reply` is what a verified source returns for `found`. */
  ghost predicate LiftsAll(st: Store, found: seq<CollectionEnvelope>, reply: seq<CollectionResult>) {
    && |reply| == |found|
    && (forall i :: 0 <= i < |found| ==> Lifts(st.crypto, st.verifyOpts, found[i], reply[i]))
  }

  function FoundBy(st: Store, p: Policy, v: Visit): seq<CollectionEnvelope>
    requires v.stepName in p.steps
  {
    Scan(st.loads, v.stepName, v.digests, TypesOf(p.steps[v.stepName]))
  }

  ghost predicate Answered(st: Store, p: Policy, log: seq<Visit>, i: nat)
    requires i < |log| && Known(p, log)
  {
    LiftsAll(st, FoundBy(st, p, log[i]), log[i].reply)
  }

  /** Every reply is what a verified source over the in-memory source returns for the visit's query. */
  ghost predicate FromStore(st: Store, p: Policy, log: seq<Visit>)
    requires Known(p, log)
  {
    forall i :: 0 <= i < |log| ==> Answered(st, p, log, i)
  }

  // ---- what a visit finds ---------------------------------------------------------------------

  /** The search result for an envelope, as it looks when it verifies. */
  function LiftOf(st: Store, ce: CollectionEnvelope): CollectionResult {
    var vs := VerifiersFor(st.crypto, st.verifyOpts, ce);
    CollectionResult(vs, [], ce, if vs == [] then [NoVerifiersPassed] else [], [])
  }

  /** What an envelope looks like once it has passed. */
  ghost function Listed(st: Store, rules: Rules, step: Step, ce: CollectionEnvelope): CollectionResult {
    Settled(rules, step, LiftOf(st, ce))
  }

  /** The envelope is a valid collection for step `s`: once a digest leads to it, it passes. */
  ghost predicate Qualifies(st: Store, p: Policy, rules: Rules, s: string, ce: CollectionEnvelope)
    requires s in p.steps
  {
    && ce.collection.name == s
    && (forall t :: t in TypesOf(p.steps[s]) ==> t in AttestorTypes(ce))
    && CameFrom(rules, p.steps[s], LiftOf(st, ce), Listed(st, rules, p.steps[s], ce))
  }

  ghost predicate Touches(ce: CollectionEnvelope, digests: set<string>) {
    exists d :: d in digests && d in SubjectDigests(ce)
  }

  /** Valid for the step, and led to by one of the digests. */
  ghost predicate Hit(st: Store, p: Policy, rules: Rules, s: string, ce: CollectionEnvelope, digests: set<string>)
    requires s in p.steps
  {
    ce in st.loads && Qualifies(st, p, rules, s, ce) && Touches(ce, digests)
  }

  /** `c` is how some hit of the digests is listed. */
  ghost predicate ListedHit(st: Store, p: Policy, rules: Rules, s: string, c: CollectionResult, digests: set<string>)
    requires s in p.steps
  {
    exists ce :: Hit(st, p, rules, s, ce, digests) && c == Listed(st, rules, p.steps[s], ce)
  }

  lemma AdmittedLift(st: Store, rules: Rules, step: Step, ce: CollectionEnvelope, r: CollectionResult)
    requires Lifts(st.crypto, st.verifyOpts, ce, r) && r.verifiers != []
    ensures r == LiftOf(st, ce)
  {
  }

  lemma FoundMembers(st: Store, p: Policy, v: Visit)
    requires v.stepName in p.steps
    ensures forall ce :: ce in FoundBy(st, p, v) <==>
      && ce in st.loads && ce.collection.name == v.stepName && Touches(ce, Elements(v.digests))
      && (forall t :: t in TypesOf(p.steps[v.stepName]) ==> t in AttestorTypes(ce))
  {
    ScanMembers(st.loads, v.stepName, v.digests, TypesOf(p.steps[v.stepName]));
    assert forall d :: d in v.digests <==> d in Elements(v.digests);
  }

  lemma PassedIsHit(st: Store, p: Policy, rules: Rules, v: Visit, c: CollectionResult)
    requires v.stepName in p.steps && LiftsAll(st, FoundBy(st, p, v), v.reply)
    requires c in OutcomeOf(rules, p.steps[v.stepName], v.reply).passed
    ensures ListedHit(st, p, rules, v.stepName, c, Elements(v.digests))
  {
    var step, found := p.steps[v.stepName], FoundBy(st, p, v);
    OutcomePassedMembers(rules, step, v.reply);
    FoundMembers(st, p, v);
    var statement :| statement in v.reply && CameFrom(rules, step, statement, c);
    var k :| 0 <= k < |v.reply| && v.reply[k] == statement;
    assert Lifts(st.crypto, st.verifyOpts, found[k], statement) && found[k] in found;
    CameFromIsHit(st, p, rules, v.stepName, found[k], Elements(v.digests), statement, c);
  }

  lemma CameFromIsHit(st: Store, p: Policy, rules: Rules, s: string, ce: CollectionEnvelope, digests: set<string>,
                      r: CollectionResult, c: CollectionResult)
    requires s in p.steps && Lifts(st.crypto, st.verifyOpts, ce, r) && CameFrom(rules, p.steps[s], r, c)
    requires ce in st.loads && ce.collection.name == s && Touches(ce, digests)
    requires forall t :: t in TypesOf(p.steps[s]) ==> t in AttestorTypes(ce)
    ensures ListedHit(st, p, rules, s, c, digests)
  {
    AdmittedLift(st, rules, p.steps[s], ce, r);
    assert Hit(st, p, rules, s, ce, digests);
  }

  lemma HitIsPassed(st: Store, p: Policy, rules: Rules, v: Visit, ce: CollectionEnvelope)
    requires v.stepName in p.steps && LiftsAll(st, FoundBy(st, p, v), v.reply)
    requires Hit(st, p, rules, v.stepName, ce, Elements(v.digests))
    ensures Listed(st, rules, p.steps[v.stepName], ce) in OutcomeOf(rules, p.steps[v.stepName], v.reply).passed
  {
    var step, found := p.steps[v.stepName], FoundBy(st, p, v);
    FoundMembers(st, p, v);
    assert ce in found;
    var k :| 0 <= k < |found| && found[k] == ce;
    assert Lifts(st.crypto, st.verifyOpts, ce, v.reply[k]);
    AdmittedLift(st, rules, step, ce, v.reply[k]);
    assert v.reply[k] in v.reply && CameFrom(rules, step, v.reply[k], Listed(st, rules, step, ce));
    OutcomePassedMembers(rules, step, v.reply);
  }

  /** A visit passes the hits of its digests and nothing else. */
  lemma VisitPassesHits(st: Store, p: Policy, rules: Rules, v: Visit)
    requires v.stepName in p.steps && LiftsAll(st, FoundBy(st, p, v), v.reply)
    ensures forall c :: c in OutcomeOf(rules, p.steps[v.stepName], v.reply).passed <==>
      ListedHit(st, p, rules, v.stepName, c, Elements(v.digests))
  {
    forall c | c in OutcomeOf(rules, p.steps[v.stepName], v.reply).passed
      ensures ListedHit(st, p, rules, v.stepName, c, Elements(v.digests))
    {
      PassedIsHit(st, p, rules, v, c);
    }
    forall ce | Hit(st, p, rules, v.stepName, ce, Elements(v.digests))
      ensures Listed(st, rules, p.steps[v.stepName], ce) in OutcomeOf(rules, p.steps[v.stepName], v.reply).passed
    {
      HitIsPassed(st, p, rules, v, ce);
    }
  }

  lemma {:induction false} BackReferencedMembers(passed: seq<CollectionResult>)
    ensures forall d :: d in BackReferenced(passed) <==> exists c :: c in passed && d in BackRefDigests(c.env.collection)
  {
    if passed != [] {
      var front, last := passed[..|passed| - 1], passed[|passed| - 1];
      BackReferencedMembers(front);
      assert passed == front + [last];
      forall d ensures d in BackReferenced(passed) <==> exists c :: c in passed && d in BackRefDigests(c.env.collection) {
        if d in BackReferenced(front) {
          var c :| c in front && d in BackRefDigests(c.env.collection);
          assert c in passed;
        } else if d in BackReferenced(passed) {
          assert last in passed && d in BackRefDigests(last.env.collection);
        }
        if c :| c in passed && d in BackRefDigests(c.env.collection) {
          assert c in front || c == last;
        }
      }
    }
  }

  // ---- hops -----------------------------------------------------------------------------------

  /** The digests that hits of `digests` refer back to. */
  ghost function Reached(st: Store, p: Policy, rules: Rules, digests: set<string>): set<string> {
    set s, i, d | s in p.steps && 0 <= i < |st.loads| && Hit(st, p, rules, s, st.loads[i], digests)
                  && d in BackRefDigests(st.loads[i].collection) :: d
  }

  lemma ReachedIff(st: Store, p: Policy, rules: Rules, digests: set<string>, d: string)
    ensures d in Reached(st, p, rules, digests) <==>
      exists s, ce :: s in p.steps && Hit(st, p, rules, s, ce, digests) && d in BackRefDigests(ce.collection)
  {
    if s, ce :| s in p.steps && Hit(st, p, rules, s, ce, digests) && d in BackRefDigests(ce.collection) {
      var i :| 0 <= i < |st.loads| && st.loads[i] == ce;
      assert Hit(st, p, rules, s, st.loads[i], digests);
    }
  }

  /** The digests within `d` back-reference hops of the seeds. */
  ghost function Layer(st: Store, p: Policy, rules: Rules, seeds: seq<string>, d: nat): set<string> {
    if d == 0 then Elements(seeds)
    else Layer(st, p, rules, seeds, d - 1) + Reached(st, p, rules, Layer(st, p, rules, seeds, d - 1))
  }

  /** Contains the seeds, and every digest a hit of its own refers back to. */
  ghost predicate Closed(st: Store, p: Policy, rules: Rules, seeds: seq<string>, digests: set<string>) {
    Elements(seeds) <= digests && Reached(st, p, rules, digests) <= digests
  }

  lemma ReachedMonotone(st: Store, p: Policy, rules: Rules, a: set<string>, b: set<string>)
    requires a <= b
    ensures Reached(st, p, rules, a) <= Reached(st, p, rules, b)
  {
    forall d | d in Reached(st, p, rules, a) ensures d in Reached(st, p, rules, b) {
      ReachedIff(st, p, rules, a, d);
      var s, ce :| s in p.steps && Hit(st, p, rules, s, ce, a) && d in BackRefDigests(ce.collection);
      assert Hit(st, p, rules, s, ce, b);
      ReachedIff(st, p, rules, b, d);
    }
  }

  lemma {:induction false} LayerInClosed(st: Store, p: Policy, rules: Rules, seeds: seq<string>, d: nat,
                                         digests: set<string>)
    requires Closed(st, p, rules, seeds, digests)
    ensures Layer(st, p, rules, seeds, d) <= digests
  {
    if d > 0 {
      LayerInClosed(st, p, rules, seeds, d - 1, digests);
      ReachedMonotone(st, p, rules, Layer(st, p, rules, seeds, d - 1), digests);
    }
  }

  // ---- between the layers and the least fixpoint ----------------------------------------------

  ghost function DigestsAt(seeds: seq<string>, log: seq<Visit>, i: nat): set<string>
    requires i <= |log|
  {
    Elements(DigestsAfter(seeds, log[..i]))
  }

  /** Digests are only ever added, after those that are there. */
  lemma {:induction false} DigestsOnlyAppended(seeds: seq<string>, log: seq<Visit>, i: nat)
    requires i <= |log|
    ensures seeds <= DigestsAfter(seeds, log[..i]) <= DigestsAfter(seeds, log)
  {
    if i < |log| {
      assert log[..|log| - 1][..i] == log[..i];
      DigestsOnlyAppended(seeds, log[..|log| - 1], i);
    } else {
      assert log[..i] == log;
      if log != [] {
        DigestsOnlyAppended(seeds, log[..|log| - 1], |log| - 1);
      }
    }
  }

  lemma DigestsStep(seeds: seq<string>, log: seq<Visit>, i: nat)
    requires i < |log|
    ensures DigestsAt(seeds, log, i + 1) == DigestsAt(seeds, log, i) + Elements(log[i].appended)
  {
    assert log[..i + 1][..i] == log[..i];
    ElementsAppend(DigestsAfter(seeds, log[..i]), log[i].appended);
  }

  lemma {:induction false} DigestsGrow(seeds: seq<string>, log: seq<Visit>, i: nat, j: nat)
    requires i <= j <= |log|
    ensures DigestsAt(seeds, log, i) <= DigestsAt(seeds, log, j)
  {
    if i < j {
      DigestsGrow(seeds, log, i, j - 1);
      DigestsStep(seeds, log, j - 1);
    }
  }

  /** What visit `i` appends is what the hits of its digests refer back to. */
  lemma AppendedAreReached(st: Store, p: Policy, rules: Rules, search: Search, seeds: seq<string>, log: seq<Visit>,
                           i: nat)
    requires IsRun(p, rules, search, seeds, log) && FromStore(st, p, log) && i < |log|
    ensures Elements(log[i].digests) == DigestsAt(seeds, log, i)
    ensures forall d :: d in log[i].appended <==>
      exists ce :: Hit(st, p, rules, log[i].stepName, ce, DigestsAt(seeds, log, i)) && d in BackRefDigests(ce.collection)
  {
    var s := log[i].stepName;
    assert VisitOk(p, rules, search, seeds, log, i) && Answered(st, p, log, i);
    VisitPassesHits(st, p, rules, log[i]);
    var passed := OutcomeOf(rules, p.steps[s], log[i].reply).passed;
    BackReferencedMembers(passed);
    forall d ensures d in log[i].appended <==>
      exists ce :: Hit(st, p, rules, s, ce, DigestsAt(seeds, log, i)) && d in BackRefDigests(ce.collection)
    {
      assert d in log[i].appended <==> d in Elements(log[i].appended);
      if d in log[i].appended {
        var c :| c in passed && d in BackRefDigests(c.env.collection);
        var ce :| Hit(st, p, rules, s, ce, Elements(log[i].digests)) && c == Listed(st, rules, p.steps[s], ce);
        assert c.env == ce;
      }
      if ce :| Hit(st, p, rules, s, ce, DigestsAt(seeds, log, i)) && d in BackRefDigests(ce.collection) {
        var c := Listed(st, rules, p.steps[s], ce);
        assert c in passed && c.env == ce;
      }
    }
  }

  /** Upper bound: nothing outside a closed set is ever collected. */
  lemma {:induction false} DigestsInClosed(st: Store, p: Policy, rules: Rules, search: Search, seeds: seq<string>,
                                           log: seq<Visit>, i: nat, digests: set<string>)
    requires IsRun(p, rules, search, seeds, log) && FromStore(st, p, log) && i <= |log|
    requires Closed(st, p, rules, seeds, digests)
    ensures DigestsAt(seeds, log, i) <= digests
  {
    if i == 0 {
      assert log[..0] == [];
    } else {
      var k := i - 1;
      DigestsInClosed(st, p, rules, search, seeds, log, k, digests);
      DigestsStep(seeds, log, k);
      AppendedAreReached(st, p, rules, search, seeds, log, k);
      forall d | d in Elements(log[k].appended) ensures d in digests {
        var ce :| Hit(st, p, rules, log[k].stepName, ce, DigestsAt(seeds, log, k)) && d in BackRefDigests(ce.collection);
        assert Hit(st, p, rules, log[k].stepName, ce, digests);
        ReachedIff(st, p, rules, digests, d);
      }
    }
  }

  ghost predicate VisitedBefore(log: seq<Visit>, m: nat, round: nat, stepName: string)
    requires m <= |log|
  {
    exists i :: 0 <= i < m && log[i].round == round && log[i].stepName == stepName
  }

  /** The first `m` visits contain `d` complete rounds. */
  ghost predicate RoundsDone(p: Policy, log: seq<Visit>, d: nat, m: nat)
    requires m <= |log|
  {
    forall r, s :: 0 <= r < d && s in p.steps ==> VisitedBefore(log, m, r, s)
  }

  /** One of the first `m` visits is to the step and knows everything within `d` hops. */
  ghost predicate KnowsLayer(st: Store, p: Policy, rules: Rules, seeds: seq<string>, log: seq<Visit>, m: nat, d: nat,
                             s: string)
    requires m <= |log|
  {
    exists i :: 0 <= i < m && log[i].stepName == s && Layer(st, p, rules, seeds, d) <= DigestsAt(seeds, log, i)
  }

  /** Lower bound: once `d` rounds are complete, everything within `d` hops has been collected. */
  lemma {:induction false} LayerCollected(st: Store, p: Policy, rules: Rules, search: Search, seeds: seq<string>,
                                          log: seq<Visit>, d: nat, m: nat)
    requires IsRun(p, rules, search, seeds, log) && FromStore(st, p, log) && m <= |log|
    requires RoundsDone(p, log, d, m)
    ensures Layer(st, p, rules, seeds, d) <= DigestsAt(seeds, log, m)
    decreases d, 0
  {
    if d == 0 {
      DigestsGrow(seeds, log, 0, m);
      assert log[..0] == [];
    } else {
      LayerCollected(st, p, rules, search, seeds, log, d - 1, m);
      forall s | s in p.steps ensures KnowsLayer(st, p, rules, seeds, log, m, d - 1, s) {
        LayerKnown(st, p, rules, search, seeds, log, d - 1, m, s);
      }
      NextLayerCollected(st, p, rules, search, seeds, log, d - 1, m);
    }
  }

  /** The visit to a step in round `d` knows everything within `d` hops. */
  lemma {:induction false} LayerKnown(st: Store, p: Policy, rules: Rules, search: Search, seeds: seq<string>,
                                      log: seq<Visit>, d: nat, m: nat, s: string)
    requires IsRun(p, rules, search, seeds, log) && FromStore(st, p, log) && m <= |log|
    requires s in p.steps && RoundsDone(p, log, d + 1, m)
    ensures KnowsLayer(st, p, rules, seeds, log, m, d, s)
    decreases d, 1
  {
    var i := VisitInRound(p, log, d, m, s);
    LayerCollected(st, p, rules, search, seeds, log, d, i);
  }

  /** Once every step was visited knowing everything within `d` hops, everything one hop further is there. */
  lemma NextLayerCollected(st: Store, p: Policy, rules: Rules, search: Search, seeds: seq<string>, log: seq<Visit>,
                           d: nat, m: nat)
    requires IsRun(p, rules, search, seeds, log) && FromStore(st, p, log) && m <= |log|
    requires Layer(st, p, rules, seeds, d) <= DigestsAt(seeds, log, m)
    requires forall s :: s in p.steps ==> KnowsLayer(st, p, rules, seeds, log, m, d, s)
    ensures Layer(st, p, rules, seeds, d + 1) <= DigestsAt(seeds, log, m)
  {
    var near := Layer(st, p, rules, seeds, d);
    forall x | x in Reached(st, p, rules, near) ensures x in DigestsAt(seeds, log, m) {
      ReachedIff(st, p, rules, near, x);
      var s, ce :| s in p.steps && Hit(st, p, rules, s, ce, near) && x in BackRefDigests(ce.collection);
      HopCollected(st, p, rules, search, seeds, log, m, d, s, ce, x);
    }
  }

  /** The visit to a step in round `d` comes after all earlier rounds. */
  lemma VisitInRound(p: Policy, log: seq<Visit>, d: nat, m: nat, s: string) returns (i: nat)
    requires InRounds(log) && m <= |log| && s in p.steps && RoundsDone(p, log, d + 1, m)
    ensures i < m && log[i].round == d && log[i].stepName == s && RoundsDone(p, log, d, i)
  {
    assert VisitedBefore(log, m, d, s);
    i :| 0 <= i < m && log[i].round == d && log[i].stepName == s;
    EarlierRoundsCome(p, log, d, m, i);
  }

  /** A visit that knows the digests leading to `ce` leaves the digests `ce` refers back to. */
  lemma HopCollected(st: Store, p: Policy, rules: Rules, search: Search, seeds: seq<string>, log: seq<Visit>, m: nat,
                     d: nat, s: string, ce: CollectionEnvelope, x: string)
    requires IsRun(p, rules, search, seeds, log) && FromStore(st, p, log) && m <= |log|
    requires KnowsLayer(st, p, rules, seeds, log, m, d, s)
    requires s in p.steps && Hit(st, p, rules, s, ce, Layer(st, p, rules, seeds, d)) && x in BackRefDigests(ce.collection)
    ensures x in DigestsAt(seeds, log, m)
  {
    var near := Layer(st, p, rules, seeds, d);
    var i :| 0 <= i < m && log[i].stepName == s && near <= DigestsAt(seeds, log, i);
    assert Hit(st, p, rules, s, ce, DigestsAt(seeds, log, i));
    HitLeavesBackRefs(st, p, rules, search, seeds, log, i, ce, x);
    DigestsGrow(seeds, log, i + 1, m);
  }

  lemma HitLeavesBackRefs(st: Store, p: Policy, rules: Rules, search: Search, seeds: seq<string>, log: seq<Visit>,
                          i: nat, ce: CollectionEnvelope, x: string)
    requires IsRun(p, rules, search, seeds, log) && FromStore(st, p, log) && i < |log|
    requires Hit(st, p, rules, log[i].stepName, ce, DigestsAt(seeds, log, i)) && x in BackRefDigests(ce.collection)
    ensures x in DigestsAt(seeds, log, i + 1)
  {
    AppendedAreReached(st, p, rules, search, seeds, log, i);
    DigestsStep(seeds, log, i);
  }

  lemma EarlierRoundsCome(p: Policy, log: seq<Visit>, d: nat, m: nat, i: nat)
    requires InRounds(log) && i < m <= |log| && log[i].round == d
    requires RoundsDone(p, log, d, m)
    ensures RoundsDone(p, log, d, i)
  {
    forall r, s | 0 <= r < d && s in p.steps ensures VisitedBefore(log, i, r, s) {
      assert VisitedBefore(log, m, r, s);
      var k :| 0 <= k < m && log[k].round == r && log[k].stepName == s;
      assert k < i;
    }
  }

  lemma CoversIsRoundsDone(p: Policy, depth: nat, log: seq<Visit>)
    requires Covers(p, depth, log)
    ensures RoundsDone(p, log, depth, |log|)
  {
    forall r, s | 0 <= r < depth && s in p.steps ensures VisitedBefore(log, |log|, r, s) {
      assert Visited(log, r, s);
    }
  }

  /**
   * After `depth` rounds, for every step order in every round, the digests contain everything within `depth` hops of the
   * seeds and nothing outside any closed set, so nothing outside the least one.
   */
  lemma DigestsBetweenLayersAndFixpoint(st: Store, p: Policy, rules: Rules, search: Search, seeds: seq<string>,
                                        depth: nat, log: seq<Visit>)
    requires IsRun(p, rules, search, seeds, log) && Covers(p, depth, log) && FromStore(st, p, log)
    ensures Layer(st, p, rules, seeds, depth) <= Elements(DigestsAfter(seeds, log))
    ensures forall digests | Closed(st, p, rules, seeds, digests) :: Elements(DigestsAfter(seeds, log)) <= digests
  {
    assert log[..|log|] == log;
    CoversIsRoundsDone(p, depth, log);
    LayerCollected(st, p, rules, search, seeds, log, depth, |log|);
    forall digests | Closed(st, p, rules, seeds, digests) ensures Elements(DigestsAfter(seeds, log)) <= digests {
      DigestsInClosed(st, p, rules, search, seeds, log, |log|, digests);
    }
  }

  // ---- when the search is exhaustive ----------------------------------------------------------

  /** One more hop after `d` leads to no further valid collection. */
  ghost predicate Settles(st: Store, p: Policy, rules: Rules, seeds: seq<string>, d: nat) {
    forall s, ce :: s in p.steps && Hit(st, p, rules, s, ce, Layer(st, p, rules, seeds, d + 1)) ==>
      Hit(st, p, rules, s, ce, Layer(st, p, rules, seeds, d))
  }

  lemma SettledIsClosed(st: Store, p: Policy, rules: Rules, seeds: seq<string>, d: nat)
    requires Settles(st, p, rules, seeds, d)
    ensures Closed(st, p, rules, seeds, Layer(st, p, rules, seeds, d + 1))
  {
    var here, next := Layer(st, p, rules, seeds, d), Layer(st, p, rules, seeds, d + 1);
    SeedsInLayer(st, p, rules, seeds, d + 1);
    forall x | x in Reached(st, p, rules, next) ensures x in next {
      ReachedIff(st, p, rules, next, x);
      var s, ce :| s in p.steps && Hit(st, p, rules, s, ce, next) && x in BackRefDigests(ce.collection);
      assert Hit(st, p, rules, s, ce, here);
      ReachedIff(st, p, rules, here, x);
    }
  }

  lemma {:induction false} SeedsInLayer(st: Store, p: Policy, rules: Rules, seeds: seq<string>, d: nat)
    ensures Elements(seeds) <= Layer(st, p, rules, seeds, d)
  {
    if d > 0 {
      SeedsInLayer(st, p, rules, seeds, d - 1);
    }
  }

  lemma {:induction false} LayersGrow(st: Store, p: Policy, rules: Rules, seeds: seq<string>, d: nat, e: nat)
    requires d <= e
    ensures Layer(st, p, rules, seeds, d) <= Layer(st, p, rules, seeds, e)
    decreases e
  {
    if d < e {
      LayersGrow(st, p, rules, seeds, d, e - 1);
    }
  }

  /** Hops that have settled stay settled, so a search may go deeper than it has to. */
  lemma SettledStaysSettled(st: Store, p: Policy, rules: Rules, seeds: seq<string>, d: nat, e: nat)
    requires Settles(st, p, rules, seeds, d) && d <= e
    ensures Settles(st, p, rules, seeds, e)
    ensures Layer(st, p, rules, seeds, e + 1) == Layer(st, p, rules, seeds, d + 1)
  {
    LastLayer(st, p, rules, seeds, d, e);
    LayersGrow(st, p, rules, seeds, d, e);
    HitsStay(st, p, rules, Layer(st, p, rules, seeds, d), Layer(st, p, rules, seeds, d + 1),
             Layer(st, p, rules, seeds, e));
  }

  /** What is led to after more hops was led to when they settled. */
  lemma NothingNewLater(st: Store, p: Policy, rules: Rules, seeds: seq<string>, d: nat, e: nat)
    requires Settles(st, p, rules, seeds, d) && d <= e
    ensures forall s, ce :: s in p.steps && Hit(st, p, rules, s, ce, Layer(st, p, rules, seeds, e)) ==>
      Hit(st, p, rules, s, ce, Layer(st, p, rules, seeds, d))
  {
    LastLayer(st, p, rules, seeds, d, e);
    LayersGrow(st, p, rules, seeds, e, e + 1);
    FewerHits(st, p, rules, Layer(st, p, rules, seeds, d), Layer(st, p, rules, seeds, d + 1),
              Layer(st, p, rules, seeds, e));
  }

  lemma FewerHits(st: Store, p: Policy, rules: Rules, here: set<string>, next: set<string>, later: set<string>)
    requires forall s, ce :: s in p.steps && Hit(st, p, rules, s, ce, next) ==> Hit(st, p, rules, s, ce, here)
    requires later <= next
    ensures forall s, ce :: s in p.steps && Hit(st, p, rules, s, ce, later) ==> Hit(st, p, rules, s, ce, here)
  {
  }

  lemma LastLayer(st: Store, p: Policy, rules: Rules, seeds: seq<string>, d: nat, e: nat)
    requires Settles(st, p, rules, seeds, d) && d <= e
    ensures Layer(st, p, rules, seeds, e + 1) == Layer(st, p, rules, seeds, d + 1)
  {
    SettledIsClosed(st, p, rules, seeds, d);
    LayerInClosed(st, p, rules, seeds, e + 1, Layer(st, p, rules, seeds, d + 1));
    LayersGrow(st, p, rules, seeds, d + 1, e + 1);
  }

  lemma HitsStay(st: Store, p: Policy, rules: Rules, here: set<string>, next: set<string>, later: set<string>)
    requires forall s, ce :: s in p.steps && Hit(st, p, rules, s, ce, next) ==> Hit(st, p, rules, s, ce, here)
    requires here <= later
    ensures forall s, ce :: s in p.steps && Hit(st, p, rules, s, ce, next) ==> Hit(st, p, rules, s, ce, later)
  {
  }

  lemma ListedIsHit(st: Store, p: Policy, rules: Rules, search: Search, seeds: seq<string>, log: seq<Visit>,
                    s: string, c: CollectionResult, digests: set<string>)
    requires IsRun(p, rules, search, seeds, log) && FromStore(st, p, log)
    requires Closed(st, p, rules, seeds, digests)
    requires s in p.steps && c in PassedIn(p, rules, log, s)
    ensures ListedHit(st, p, rules, s, c, digests)
  {
    PassedInMember(p, rules, log, s, c);
    var i :| 0 <= i < |log| && PassedBy(p, rules, log[i], s, c);
    assert Answered(st, p, log, i);
    PassedIsHit(st, p, rules, log[i], c);
    AppendedAreReached(st, p, rules, search, seeds, log, i);
    DigestsInClosed(st, p, rules, search, seeds, log, i, digests);
    var ce :| Hit(st, p, rules, s, ce, Elements(log[i].digests)) && c == Listed(st, rules, p.steps[s], ce);
    assert Hit(st, p, rules, s, ce, digests);
  }

  lemma HitIsListed(st: Store, p: Policy, rules: Rules, search: Search, seeds: seq<string>, log: seq<Visit>, d: nat,
                    s: string, ce: CollectionEnvelope)
    requires IsRun(p, rules, search, seeds, log) && FromStore(st, p, log)
    requires KnowsLayer(st, p, rules, seeds, log, |log|, d, s)
    requires s in p.steps && Hit(st, p, rules, s, ce, Layer(st, p, rules, seeds, d))
    ensures Listed(st, rules, p.steps[s], ce) in PassedIn(p, rules, log, s)
  {
    var near := Layer(st, p, rules, seeds, d);
    var i :| 0 <= i < |log| && log[i].stepName == s && near <= DigestsAt(seeds, log, i);
    assert Hit(st, p, rules, s, ce, DigestsAt(seeds, log, i));
    HitAtVisitIsListed(st, p, rules, search, seeds, log, i, s, ce);
  }

  lemma HitAtVisitIsListed(st: Store, p: Policy, rules: Rules, search: Search, seeds: seq<string>, log: seq<Visit>,
                           i: nat, s: string, ce: CollectionEnvelope)
    requires IsRun(p, rules, search, seeds, log) && FromStore(st, p, log)
    requires i < |log| && log[i].stepName == s && s in p.steps && Hit(st, p, rules, s, ce, DigestsAt(seeds, log, i))
    ensures Listed(st, rules, p.steps[s], ce) in PassedIn(p, rules, log, s)
  {
    AppendedAreReached(st, p, rules, search, seeds, log, i);
    assert Answered(st, p, log, i);
    HitIsPassed(st, p, rules, log[i], ce);
    assert PassedBy(p, rules, log[i], s, Listed(st, rules, p.steps[s], ce));
    PassedInMember(p, rules, log, s, Listed(st, rules, p.steps[s], ce));
  }

  /** The collections passed for a step are the hits of the digests. */
  ghost predicate ListsHits(st: Store, p: Policy, rules: Rules, s: string, passed: seq<CollectionResult>,
                            digests: set<string>)
    requires s in p.steps
  {
    forall c :: c in passed <==> ListedHit(st, p, rules, s, c, digests)
  }

  /**
   * If the hops settle before the rounds run out, then for every step order the digests collected are the least closed
   * set, and the collections listed for a step are its hits: none is missing and none depends on the order.
   */
  lemma SettledSearchIsExhaustive(st: Store, p: Policy, rules: Rules, search: Search, seeds: seq<string>, d: nat,
                                  log: seq<Visit>)
    requires WellFormed(p) && Settles(st, p, rules, seeds, d)
    requires IsRun(p, rules, search, seeds, log) && Covers(p, d + 1, log) && FromStore(st, p, log)
    ensures Elements(DigestsAfter(seeds, log)) == Layer(st, p, rules, seeds, d + 1)
    ensures Closed(st, p, rules, seeds, Elements(DigestsAfter(seeds, log)))
    ensures ResultsOf(p, rules, log).Keys == p.steps.Keys
    ensures forall s :: s in p.steps ==>
      ListsHits(st, p, rules, s, ResultsOf(p, rules, log)[s].passed, Layer(st, p, rules, seeds, d))
  {
    SettledIsClosed(st, p, rules, seeds, d);
    DigestsBetweenLayersAndFixpoint(st, p, rules, search, seeds, d + 1, log);
    CoveredSteps(p, rules, d + 1, log);
    forall s | s in p.steps
      ensures ListsHits(st, p, rules, s, ResultsOf(p, rules, log)[s].passed, Layer(st, p, rules, seeds, d))
    {
      SettledStep(st, p, rules, search, seeds, d, log, s);
    }
  }

  lemma SettledStep(st: Store, p: Policy, rules: Rules, search: Search, seeds: seq<string>, d: nat, log: seq<Visit>,
                    s: string)
    requires WellFormed(p) && Settles(st, p, rules, seeds, d) && s in p.steps
    requires IsRun(p, rules, search, seeds, log) && Covers(p, d + 1, log) && FromStore(st, p, log)
    ensures s in ResultsOf(p, rules, log)
    ensures ListsHits(st, p, rules, s, ResultsOf(p, rules, log)[s].passed, Layer(st, p, rules, seeds, d))
  {
    CoveredSteps(p, rules, d + 1, log);
    MergeLosesNothing(p, rules, log, s);
    CoversIsRoundsDone(p, d + 1, log);
    LayerKnown(st, p, rules, search, seeds, log, d, |log|, s);
    SettledPassed(st, p, rules, search, seeds, d, log, s);
  }

  lemma SettledPassed(st: Store, p: Policy, rules: Rules, search: Search, seeds: seq<string>, d: nat,
                      log: seq<Visit>, s: string)
    requires Settles(st, p, rules, seeds, d) && s in p.steps
    requires IsRun(p, rules, search, seeds, log) && FromStore(st, p, log)
    requires KnowsLayer(st, p, rules, seeds, log, |log|, d, s)
    ensures ListsHits(st, p, rules, s, PassedIn(p, rules, log, s), Layer(st, p, rules, seeds, d))
  {
    forall c ensures c in PassedIn(p, rules, log, s) <==> ListedHit(st, p, rules, s, c, Layer(st, p, rules, seeds, d)) {
      SettledListing(st, p, rules, search, seeds, d, log, s, c);
    }
  }

  lemma SettledListing(st: Store, p: Policy, rules: Rules, search: Search, seeds: seq<string>, d: nat,
                       log: seq<Visit>, s: string, c: CollectionResult)
    requires Settles(st, p, rules, seeds, d) && s in p.steps
    requires IsRun(p, rules, search, seeds, log) && FromStore(st, p, log)
    requires KnowsLayer(st, p, rules, seeds, log, |log|, d, s)
    ensures c in PassedIn(p, rules, log, s) <==> ListedHit(st, p, rules, s, c, Layer(st, p, rules, seeds, d))
  {
    var here, next := Layer(st, p, rules, seeds, d), Layer(st, p, rules, seeds, d + 1);
    if c in PassedIn(p, rules, log, s) {
      SettledIsClosed(st, p, rules, seeds, d);
      ListedIsHit(st, p, rules, search, seeds, log, s, c, next);
      SettledListedHit(st, p, rules, seeds, d, s, c);
    }
    if ce :| Hit(st, p, rules, s, ce, here) && c == Listed(st, rules, p.steps[s], ce) {
      HitIsListed(st, p, rules, search, seeds, log, d, s, ce);
    }
  }

  lemma SettledListedHit(st: Store, p: Policy, rules: Rules, seeds: seq<string>, d: nat, s: string, c: CollectionResult)
    requires Settles(st, p, rules, seeds, d) && s in p.steps
    requires ListedHit(st, p, rules, s, c, Layer(st, p, rules, seeds, d + 1))
    ensures ListedHit(st, p, rules, s, c, Layer(st, p, rules, seeds, d))
  {
    var ce :| Hit(st, p, rules, s, ce, Layer(st, p, rules, seeds, d + 1)) && c == Listed(st, rules, p.steps[s], ce);
    assert Hit(st, p, rules, s, ce, Layer(st, p, rules, seeds, d));
  }

  /** So two searches of the same store list the same collections for every step, whatever orders they took. */
  lemma SettledSearchIgnoresOrder(st: Store, p: Policy, rules: Rules, search1: Search, search2: Search,
                                  seeds: seq<string>, d: nat, log1: seq<Visit>, log2: seq<Visit>)
    requires WellFormed(p) && Settles(st, p, rules, seeds, d)
    requires IsRun(p, rules, search1, seeds, log1) && Covers(p, d + 1, log1) && FromStore(st, p, log1)
    requires IsRun(p, rules, search2, seeds, log2) && Covers(p, d + 1, log2) && FromStore(st, p, log2)
    ensures ResultsOf(p, rules, log1).Keys == ResultsOf(p, rules, log2).Keys == p.steps.Keys
    ensures forall s :: s in p.steps ==>
      Elements(ResultsOf(p, rules, log1)[s].passed) == Elements(ResultsOf(p, rules, log2)[s].passed)
  {
    SettledSearchIsExhaustive(st, p, rules, search1, seeds, d, log1);
    SettledSearchIsExhaustive(st, p, rules, search2, seeds, d, log2);
    forall s | s in p.steps
      ensures Elements(ResultsOf(p, rules, log1)[s].passed) == Elements(ResultsOf(p, rules, log2)[s].passed)
    {
      SameHitsSameElements(st, p, rules, s, ResultsOf(p, rules, log1)[s].passed, ResultsOf(p, rules, log2)[s].passed,
                           Layer(st, p, rules, seeds, d));
    }
  }

  lemma SameHitsSameElements(st: Store, p: Policy, rules: Rules, s: string, passed1: seq<CollectionResult>,
                             passed2: seq<CollectionResult>, digests: set<string>)
    requires s in p.steps
    requires ListsHits(st, p, rules, s, passed1, digests) && ListsHits(st, p, rules, s, passed2, digests)
    ensures Elements(passed1) == Elements(passed2)
  {
  }
}
