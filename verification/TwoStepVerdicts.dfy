// When the verdict on a policy of two steps depends on the order in which Go ranges over them, at any search depth.
module TwoStepVerdicts {
  import opened Options
  import opened Collections
  import opened Sources
  import opened Steps
  import opened PolicyEngine
  import opened Soundness
  import opened BackRefSearch
  import opened VerdictOrder
  import opened OneRound

  /** The digests collected once step `a` has been visited `k` times, if no other step finds anything. */
  ghost function Alone(st: Store, p: Policy, rules: Rules, seeds: seq<string>, a: string, k: nat): set<string>
    requires a in p.steps
  {
    if k == 0 then Elements(seeds)
    else Alone(st, p, rules, seeds, a, k - 1) + ReachedBy(st, p, rules, a, Alone(st, p, rules, seeds, a, k - 1))
  }

  ghost predicate HasHit(st: Store, p: Policy, rules: Rules, s: string, digests: set<string>)
    requires s in p.steps
  {
    exists ce :: Hit(st, p, rules, s, ce, digests)
  }

  /** It takes exactly one visit to `a` more than `m` before something leads to a collection of `b`. */
  ghost predicate TakesOneMore(st: Store, p: Policy, rules: Rules, seeds: seq<string>, a: string, b: string, m: nat)
    requires a in p.steps && b in p.steps
  {
    !HasHit(st, p, rules, b, Alone(st, p, rules, seeds, a, m)) && HasHit(st, p, rules, b, Alone(st, p, rules, seeds, a, m + 1))
  }

  /** All whole verifications against the store come to the same verdict. */
  ghost predicate VerdictsAgree(st: Store, p: Policy, rules: Rules, opts: VerifyOptions) {
    forall t1, t2, pass1, pass2 ::
      Verdicts(p, rules, StoreSearch(st), opts, t1, pass1) && Verdicts(p, rules, StoreSearch(st), opts, t2, pass2) ==>
        pass1 == pass2
  }

  // ---- more digests, more hits ----------------------------------------------------------------

  lemma HasHitGrows(st: Store, p: Policy, rules: Rules, s: string, some: set<string>, more: set<string>)
    requires s in p.steps && some <= more && HasHit(st, p, rules, s, some)
    ensures HasHit(st, p, rules, s, more)
  {
    var ce :| Hit(st, p, rules, s, ce, some);
    assert Hit(st, p, rules, s, ce, more);
  }

  lemma ReachedByGrows(st: Store, p: Policy, rules: Rules, s: string, some: set<string>, more: set<string>)
    requires s in p.steps && some <= more
    ensures ReachedBy(st, p, rules, s, some) <= ReachedBy(st, p, rules, s, more)
  {
    forall d | d in ReachedBy(st, p, rules, s, some) ensures d in ReachedBy(st, p, rules, s, more) {
      ReachedByIff(st, p, rules, s, some, d);
      var ce :| Hit(st, p, rules, s, ce, some) && d in BackRefDigests(ce.collection);
      assert Hit(st, p, rules, s, ce, more);
      ReachedByIff(st, p, rules, s, more, d);
    }
  }

  lemma {:induction false} AloneGrows(st: Store, p: Policy, rules: Rules, seeds: seq<string>, a: string, k: nat, l: nat)
    requires a in p.steps && k <= l
    ensures Alone(st, p, rules, seeds, a, k) <= Alone(st, p, rules, seeds, a, l)
    decreases l
  {
    if k < l {
      AloneGrows(st, p, rules, seeds, a, k, l - 1);
    }
  }

  /** What a visit appends is what its step reaches from the digests at hand. */
  lemma AppendedIsReached(st: Store, p: Policy, rules: Rules, seeds: seq<string>, log: seq<Visit>, i: nat)
    requires IsRun(p, rules, StoreSearch(st), seeds, log) && FromStore(st, p, log) && i < |log|
    ensures DigestsAt(seeds, log, i + 1)
      == DigestsAt(seeds, log, i) + ReachedBy(st, p, rules, log[i].stepName, DigestsAt(seeds, log, i))
  {
    DigestsStep(seeds, log, i);
    AppendedAreReached(st, p, rules, StoreSearch(st), seeds, log, i);
    var here := DigestsAt(seeds, log, i);
    forall d ensures d in Elements(log[i].appended) <==> d in ReachedBy(st, p, rules, log[i].stepName, here) {
      ReachedByIff(st, p, rules, log[i].stepName, here, d);
    }
  }

  // ---- lower and upper bounds -----------------------------------------------------------------

  /** The first `m` visits contain one to the step in each of the first `k` rounds. */
  ghost predicate VisitedUpTo(log: seq<Visit>, m: nat, k: nat, s: string)
    requires m <= |log|
  {
    forall d: nat :: d < k ==> VisitedBefore(log, m, d, s)
  }

  lemma EarlierVisits(log: seq<Visit>, m: nat, k: nat, s: string) returns (j: nat)
    requires InRounds(log) && m <= |log| && VisitedUpTo(log, m, k + 1, s)
    ensures j < m && log[j].round == k && log[j].stepName == s && VisitedUpTo(log, j, k, s)
  {
    assert VisitedBefore(log, m, k, s);
    j :| j < m && log[j].round == k && log[j].stepName == s;
    forall d: nat | d < k ensures VisitedBefore(log, j, d, s) {
      assert VisitedBefore(log, m, d, s);
      var i :| 0 <= i < m && log[i].round == d && log[i].stepName == s;
      assert i < j;
    }
  }

  /** After a visit to `a` in each of `k` rounds at least what `k` visits to `a` alone collect is there. */
  lemma {:induction false} AloneCollected(st: Store, p: Policy, rules: Rules, seeds: seq<string>, log: seq<Visit>,
                                          m: nat, k: nat, a: string)
    requires IsRun(p, rules, StoreSearch(st), seeds, log) && FromStore(st, p, log) && m <= |log| && a in p.steps
    requires VisitedUpTo(log, m, k, a)
    ensures Alone(st, p, rules, seeds, a, k) <= DigestsAt(seeds, log, m)
    decreases k
  {
    if k == 0 {
      DigestsGrow(seeds, log, 0, m);
      assert log[..0] == [];
    } else {
      var j := EarlierVisits(log, m, k - 1, a);
      AloneCollected(st, p, rules, seeds, log, j, k - 1, a);
      AppendedIsReached(st, p, rules, seeds, log, j);
      ReachedByGrows(st, p, rules, a, Alone(st, p, rules, seeds, a, k - 1), DigestsAt(seeds, log, j));
      DigestsGrow(seeds, log, j + 1, m);
    }
  }

  /** None of the first `m` visits to the step finds anything. */
  ghost predicate FindsNothing(st: Store, p: Policy, rules: Rules, seeds: seq<string>, log: seq<Visit>, m: nat, s: string)
    requires m <= |log| && s in p.steps
  {
    forall i :: 0 <= i < m && log[i].stepName == s ==> !HasHit(st, p, rules, s, DigestsAt(seeds, log, i))
  }

  /** The first `m` visits contain one to the step in the first `k` rounds only. */
  ghost predicate VisitedOnlyIn(log: seq<Visit>, m: nat, k: nat, s: string)
    requires m <= |log|
  {
    forall i :: 0 <= i < m && log[i].stepName == s ==> log[i].round < k
  }

  /** As long as `b` finds nothing, what `k` visits to `a` alone collect is all there is. */
  lemma {:induction false} AloneBounds(st: Store, p: Policy, rules: Rules, seeds: seq<string>, log: seq<Visit>, m: nat,
                                       k: nat, a: string, b: string)
    requires IsRun(p, rules, StoreSearch(st), seeds, log) && FromStore(st, p, log) && m <= |log|
    requires p.steps.Keys == {a, b} && a != b
    requires FindsNothing(st, p, rules, seeds, log, m, b) && VisitedOnlyIn(log, m, k, a)
    ensures DigestsAt(seeds, log, m) <= Alone(st, p, rules, seeds, a, k)
    decreases m
  {
    if m == 0 {
      assert log[..0] == [];
      AloneGrows(st, p, rules, seeds, a, 0, k);
    } else {
      var i := m - 1;
      assert log[i].stepName in p.steps.Keys;
      AppendedIsReached(st, p, rules, seeds, log, i);
      if log[i].stepName == b {
        AloneBounds(st, p, rules, seeds, log, i, k, a, b);
        NothingReached(st, p, rules, b, DigestsAt(seeds, log, i));
      } else {
        AloneBounds(st, p, rules, seeds, log, i, log[i].round, a, b);
        AloneBoundsNext(st, p, rules, seeds, DigestsAt(seeds, log, i), log[i].round, k, a);
      }
    }
  }

  lemma AloneBoundsNext(st: Store, p: Policy, rules: Rules, seeds: seq<string>, digests: set<string>, r: nat, k: nat,
                        a: string)
    requires a in p.steps && digests <= Alone(st, p, rules, seeds, a, r) && r < k
    ensures digests + ReachedBy(st, p, rules, a, digests) <= Alone(st, p, rules, seeds, a, k)
  {
    ReachedByGrows(st, p, rules, a, digests, Alone(st, p, rules, seeds, a, r));
    AloneGrows(st, p, rules, seeds, a, r + 1, k);
  }

  lemma NothingReached(st: Store, p: Policy, rules: Rules, s: string, digests: set<string>)
    requires s in p.steps && !HasHit(st, p, rules, s, digests)
    ensures ReachedBy(st, p, rules, s, digests) == {}
  {
    forall d ensures d !in ReachedBy(st, p, rules, s, digests) {
      ReachedByIff(st, p, rules, s, digests, d);
    }
  }

  // ---- what is listed -------------------------------------------------------------------------

  lemma {:induction false} FirstFind(st: Store, p: Policy, rules: Rules, seeds: seq<string>, log: seq<Visit>, m: nat,
                                     s: string) returns (i: nat)
    requires m <= |log| && s in p.steps && !FindsNothing(st, p, rules, seeds, log, m, s)
    ensures i < m && log[i].stepName == s && HasHit(st, p, rules, s, DigestsAt(seeds, log, i))
    ensures FindsNothing(st, p, rules, seeds, log, i, s)
    decreases m
  {
    if FindsNothing(st, p, rules, seeds, log, m - 1, s) {
      i := m - 1;
    } else {
      i := FirstFind(st, p, rules, seeds, log, m - 1, s);
    }
  }

  /** Something is listed for a step if and only if some visit to it finds something. */
  lemma ListedIffFound(st: Store, p: Policy, rules: Rules, seeds: seq<string>, log: seq<Visit>, s: string)
    requires IsRun(p, rules, StoreSearch(st), seeds, log) && FromStore(st, p, log) && s in p.steps
    ensures PassedIn(p, rules, log, s) != [] <==> !FindsNothing(st, p, rules, seeds, log, |log|, s)
  {
    if PassedIn(p, rules, log, s) != [] {
      var c := PassedIn(p, rules, log, s)[0];
      PassedInMember(p, rules, log, s, c);
      var i :| 0 <= i < |log| && PassedBy(p, rules, log[i], s, c);
      PassedWasFound(st, p, rules, seeds, log, i, c);
    }
    if !FindsNothing(st, p, rules, seeds, log, |log|, s) {
      var i := FirstFind(st, p, rules, seeds, log, |log|, s);
      var ce :| Hit(st, p, rules, s, ce, DigestsAt(seeds, log, i));
      HitAtVisitIsListed(st, p, rules, StoreSearch(st), seeds, log, i, s, ce);
    }
  }

  lemma PassedWasFound(st: Store, p: Policy, rules: Rules, seeds: seq<string>, log: seq<Visit>, i: nat,
                       c: CollectionResult)
    requires IsRun(p, rules, StoreSearch(st), seeds, log) && FromStore(st, p, log) && i < |log|
    requires PassedBy(p, rules, log[i], log[i].stepName, c)
    ensures HasHit(st, p, rules, log[i].stepName, DigestsAt(seeds, log, i))
  {
    assert Answered(st, p, log, i);
    PassedIsHit(st, p, rules, log[i], c);
    AppendedAreReached(st, p, rules, StoreSearch(st), seeds, log, i);
  }

  /** Found in every order: what `m` visits to `a` alone lead to. */
  lemma SurelyListed(st: Store, p: Policy, rules: Rules, seeds: seq<string>, log: seq<Visit>, i: nat, m: nat, a: string,
                     s: string)
    requires IsRun(p, rules, StoreSearch(st), seeds, log) && FromStore(st, p, log) && a in p.steps && s in p.steps
    requires i < |log| && log[i].stepName == s && VisitedUpTo(log, i, m, a)
    requires HasHit(st, p, rules, s, Alone(st, p, rules, seeds, a, m))
    ensures PassedIn(p, rules, log, s) != []
  {
    AloneCollected(st, p, rules, seeds, log, i, m, a);
    HasHitGrows(st, p, rules, s, Alone(st, p, rules, seeds, a, m), DigestsAt(seeds, log, i));
    ListedIffFound(st, p, rules, seeds, log, s);
  }

  /** Found in no order: what `m + 1` visits to `a` alone do not lead to. */
  lemma ListedNeedsHit(st: Store, p: Policy, rules: Rules, seeds: seq<string>, log: seq<Visit>, m: nat, a: string,
                       b: string)
    requires IsRun(p, rules, StoreSearch(st), seeds, log) && FromStore(st, p, log) && Covers(p, m + 1, log)
    requires p.steps.Keys == {a, b} && a != b && PassedIn(p, rules, log, b) != []
    ensures HasHit(st, p, rules, b, Alone(st, p, rules, seeds, a, m + 1))
  {
    ListedIffFound(st, p, rules, seeds, log, b);
    var i := FirstFind(st, p, rules, seeds, log, |log|, b);
    AloneBounds(st, p, rules, seeds, log, i, m + 1, a, b);
    HasHitGrows(st, p, rules, b, DigestsAt(seeds, log, i), Alone(st, p, rules, seeds, a, m + 1));
  }

  /** The visit to a step in the last round comes after visits to every step in all the rounds before. */
  lemma LastVisit(p: Policy, log: seq<Visit>, m: nat, s: string) returns (i: nat)
    requires InRounds(log) && Covers(p, m + 1, log) && s in p.steps
    ensures i < |log| && log[i].stepName == s && log[i].round == m
    ensures forall t :: t in p.steps ==> VisitedUpTo(log, i, m, t)
  {
    assert Visited(log, m, s);
    i :| i < |log| && log[i].round == m && log[i].stepName == s;
    forall t, d: nat | t in p.steps && d < m ensures VisitedBefore(log, i, d, t) {
      assert Visited(log, d, t);
      var j :| 0 <= j < |log| && log[j].round == d && log[j].stepName == t;
      assert j < i;
    }
  }

  /** Unless it takes exactly one visit more, `b` is listed in all orders or in none. */
  lemma ListedIffHit(st: Store, p: Policy, rules: Rules, seeds: seq<string>, log: seq<Visit>, m: nat, a: string,
                     b: string)
    requires IsRun(p, rules, StoreSearch(st), seeds, log) && FromStore(st, p, log) && Covers(p, m + 1, log)
    requires p.steps.Keys == {a, b} && a != b && a in p.steps && b in p.steps
    requires !TakesOneMore(st, p, rules, seeds, a, b, m)
    ensures PassedIn(p, rules, log, b) != [] <==> HasHit(st, p, rules, b, Alone(st, p, rules, seeds, a, m))
  {
    if HasHit(st, p, rules, b, Alone(st, p, rules, seeds, a, m)) {
      var i := LastVisit(p, log, m, b);
      SurelyListed(st, p, rules, seeds, log, i, m, a, b);
    } else if PassedIn(p, rules, log, b) != [] {
      ListedNeedsHit(st, p, rules, seeds, log, m, a, b);
    }
  }

  lemma AloneStays(st: Store, p: Policy, rules: Rules, seeds: seq<string>, a: string, k: nat)
    requires a in p.steps && !HasHit(st, p, rules, a, Elements(seeds))
    ensures Alone(st, p, rules, seeds, a, k) == Elements(seeds)
  {
    for i := 0 to k
      invariant Alone(st, p, rules, seeds, a, i) == Elements(seeds)
    {
      NothingMore(st, p, rules, seeds, a, i);
    }
  }

  /** Once something leads to `b`, it takes no further visit. */
  lemma NotAgain(st: Store, p: Policy, rules: Rules, seeds: seq<string>, a: string, b: string, n: nat, k: nat)
    requires a in p.steps && b in p.steps && HasHit(st, p, rules, b, Alone(st, p, rules, seeds, a, n)) && n <= k
    ensures !TakesOneMore(st, p, rules, seeds, a, b, k)
  {
    AloneGrows(st, p, rules, seeds, a, n, k);
    HasHitGrows(st, p, rules, b, Alone(st, p, rules, seeds, a, n), Alone(st, p, rules, seeds, a, k));
  }

  lemma NotLater(st: Store, p: Policy, rules: Rules, seeds: seq<string>, a: string, b: string, m: nat, k: nat)
    requires a in p.steps && b in p.steps && TakesOneMore(st, p, rules, seeds, a, b, m) && m < k
    ensures !TakesOneMore(st, p, rules, seeds, a, b, k)
  {
    NotAgain(st, p, rules, seeds, a, b, m + 1, k);
  }

  /** It takes one visit more at one number of visits at most, and not in both directions. */
  lemma TakesOneMoreOnce(st: Store, p: Policy, rules: Rules, seeds: seq<string>, a: string, b: string, m: nat, k: nat)
    requires a in p.steps && b in p.steps && TakesOneMore(st, p, rules, seeds, a, b, m)
    ensures TakesOneMore(st, p, rules, seeds, a, b, k) ==> k == m
    ensures !TakesOneMore(st, p, rules, seeds, b, a, k)
  {
    if TakesOneMore(st, p, rules, seeds, a, b, k) && k < m {
      NotLater(st, p, rules, seeds, a, b, k, m);
    } else if m < k {
      NotLater(st, p, rules, seeds, a, b, m, k);
    }
    NotBothWays(st, p, rules, seeds, a, b, m, k);
  }

  lemma NotBothWays(st: Store, p: Policy, rules: Rules, seeds: seq<string>, a: string, b: string, m: nat, k: nat)
    requires a in p.steps && b in p.steps && TakesOneMore(st, p, rules, seeds, a, b, m)
    ensures !TakesOneMore(st, p, rules, seeds, b, a, k)
  {
    if HasHit(st, p, rules, b, Elements(seeds)) {
      AloneGrows(st, p, rules, seeds, a, 0, m);
      HasHitGrows(st, p, rules, b, Elements(seeds), Alone(st, p, rules, seeds, a, m));
    } else {
      AloneStays(st, p, rules, seeds, b, k);
      AloneStays(st, p, rules, seeds, b, k + 1);
    }
  }

  // ---- verdicts -------------------------------------------------------------------------------

  lemma BothListed(p: Policy, rules: Rules, log: seq<Visit>, a: string, b: string)
    requires Known(p, log) && p.steps.Keys == {a, b}
    ensures FindsAll(p, rules, log) <==> PassedIn(p, rules, log, a) != [] && PassedIn(p, rules, log, b) != []
  {
    assert a in p.steps.Keys && b in p.steps.Keys;
    assert forall s :: s in p.steps <==> s in p.steps.Keys;
  }

  lemma VerdictIsFindsAll(p: Policy, rules: Rules, search: Search, opts: VerifyOptions, t: Trace, pass: bool)
    requires WellFormed(p) && forall s :: s in p.steps ==> p.steps[s].artifactsFrom == []
    requires Verdicts(p, rules, search, opts, t, pass)
    ensures IsRun(p, rules, search, opts.subjectDigests, t.log) && Covers(p, opts.searchDepth, t.log)
    ensures pass <==> FindsAll(p, rules, t.log)
  {
    VerdictIff(p, rules, search, opts, t);
    HoldsIffListed(p, rules, opts.searchDepth, t.log);
  }

  /** Unless one step takes exactly one visit more of the other, the verdict is fixed. */
  lemma VerdictIs(st: Store, p: Policy, rules: Rules, opts: VerifyOptions, m: nat, a: string, b: string, t: Trace,
                  pass: bool)
    requires WellFormed(p) && TwoSteps(p, a, b) && a in p.steps && b in p.steps && opts.searchDepth == m + 1
    requires !TakesOneMore(st, p, rules, opts.subjectDigests, a, b, m)
    requires !TakesOneMore(st, p, rules, opts.subjectDigests, b, a, m)
    requires Verdicts(p, rules, StoreSearch(st), opts, t, pass)
    ensures pass <==>
      && HasHit(st, p, rules, a, Alone(st, p, rules, opts.subjectDigests, b, m))
      && HasHit(st, p, rules, b, Alone(st, p, rules, opts.subjectDigests, a, m))
  {
    VerdictIsFindsAll(p, rules, StoreSearch(st), opts, t, pass);
    StoreSearchAnswers(st, p, rules, opts.subjectDigests, t.log);
    BothListed(p, rules, t.log, a, b);
    ListedIffHit(st, p, rules, opts.subjectDigests, t.log, m, a, b);
    ListedIffHit(st, p, rules, opts.subjectDigests, t.log, m, b, a);
  }

  // ---- rounds in a fixed order ----------------------------------------------------------------

  /** In no round does the step come after another one. */
  ghost predicate ComesFirst(log: seq<Visit>, s: string) {
    forall i, j :: 0 <= i < j < |log| && log[i].round == log[j].round ==> log[j].stepName != s
  }

  lemma {:induction false} RoundsInOrder(st: Store, p: Policy, rules: Rules, seeds: seq<string>, a: string, b: string,
                                         n: nat) returns (log: seq<Visit>)
    requires p.steps.Keys == {a, b} && a != b && a in p.steps && b in p.steps
    ensures IsRun(p, rules, StoreSearch(st), seeds, log) && Covers(p, n, log) && ComesFirst(log, a)
  {
    if n == 0 {
      NothingVisited(p, rules, StoreSearch(st), seeds);
      log := [];
    } else {
      var before := RoundsInOrder(st, p, rules, seeds, a, b, n - 1);
      log := RoundAfter(st, p, rules, seeds, before, n - 1, [a, b]);
      NextRoundCovers(p, before, log, n - 1, a, b);
      NextRoundInOrder(before, log, n - 1, a, b);
    }
  }

  lemma NextRoundCovers(p: Policy, before: seq<Visit>, log: seq<Visit>, n: nat, a: string, b: string)
    requires p.steps.Keys == {a, b} && Covers(p, n, before) && Continues(log, before, n, [a, b])
    ensures Covers(p, n + 1, log)
  {
    forall i | 0 <= i < |before| ensures log[i] == before[i] {
      assert log[i] == log[..|before|][i];
    }
    forall d, s | 0 <= d < n + 1 && s in p.steps ensures Visited(log, d, s) {
      assert s in p.steps.Keys;
      if d < n {
        assert Visited(before, d, s);
        var i :| 0 <= i < |before| && before[i].round == d && before[i].stepName == s;
        assert log[i].stepName == s;
      } else {
        assert log[|before|].stepName == a && log[|before| + 1].stepName == b;
      }
    }
  }

  lemma NextRoundInOrder(before: seq<Visit>, log: seq<Visit>, n: nat, a: string, b: string)
    requires ComesFirst(before, a) && Continues(log, before, n, [a, b]) && a != b
    requires forall i :: 0 <= i < |before| ==> before[i].round < n
    ensures ComesFirst(log, a)
  {
    forall i | 0 <= i < |before| ensures log[i] == before[i] {
      assert log[i] == log[..|before|][i];
    }
    forall i, j | 0 <= i < j < |log| && log[i].round == log[j].round ensures log[j].stepName != a {
      if j < |before| {
        assert before[j].stepName != a;
      } else {
        assert i == |before| && j == |before| + 1;
      }
    }
  }

  /** With `a` first in each round, `b` finds what takes one visit more. */
  lemma FoundAfter(st: Store, p: Policy, rules: Rules, seeds: seq<string>, log: seq<Visit>, m: nat, a: string, b: string)
    requires IsRun(p, rules, StoreSearch(st), seeds, log) && FromStore(st, p, log) && Covers(p, m + 1, log)
    requires ComesFirst(log, a) && a in p.steps && b in p.steps && a != b
    requires TakesOneMore(st, p, rules, seeds, a, b, m)
    ensures PassedIn(p, rules, log, a) != [] && PassedIn(p, rules, log, b) != []
  {
    var i := LastVisit(p, log, m, a);
    var j := VisitAfter(p, log, i, m, a, b);
    SurelyListed(st, p, rules, seeds, log, j, m + 1, a, b);
    OneMoreReaches(st, p, rules, seeds, a, b, m);
    SurelyListed(st, p, rules, seeds, log, i, m, a, a);
  }

  /** The visit to `b` in the last round comes after one to `a` in every round, that one included. */
  lemma VisitAfter(p: Policy, log: seq<Visit>, i: nat, m: nat, a: string, b: string) returns (j: nat)
    requires InRounds(log) && Covers(p, m + 1, log) && a in p.steps && b in p.steps && a != b && ComesFirst(log, a)
    requires i < |log| && log[i].stepName == a && log[i].round == m
    ensures j < |log| && log[j].stepName == b && VisitedUpTo(log, j, m + 1, a)
  {
    j := LastVisit(p, log, m, b);
    assert i < j;
    assert VisitedBefore(log, j, m, a);
    assert VisitedUpTo(log, j, m, a);
    forall d: nat | d < m + 1 ensures VisitedBefore(log, j, d, a) {
      if d < m {
        assert VisitedBefore(log, j, d, a);
      }
    }
  }

  lemma NothingMore(st: Store, p: Policy, rules: Rules, seeds: seq<string>, a: string, m: nat)
    requires a in p.steps
    ensures HasHit(st, p, rules, a, Alone(st, p, rules, seeds, a, m)) ||
            Alone(st, p, rules, seeds, a, m + 1) == Alone(st, p, rules, seeds, a, m)
  {
    if !HasHit(st, p, rules, a, Alone(st, p, rules, seeds, a, m)) {
      NothingReached(st, p, rules, a, Alone(st, p, rules, seeds, a, m));
    }
  }

  lemma OneMoreReaches(st: Store, p: Policy, rules: Rules, seeds: seq<string>, a: string, b: string, m: nat)
    requires a in p.steps && b in p.steps && TakesOneMore(st, p, rules, seeds, a, b, m)
    ensures HasHit(st, p, rules, a, Alone(st, p, rules, seeds, a, m))
  {
    NothingMore(st, p, rules, seeds, a, m);
  }

  /** With `b` first in each round, it does not. */
  lemma NotFoundBefore(st: Store, p: Policy, rules: Rules, seeds: seq<string>, log: seq<Visit>, m: nat, a: string,
                       b: string)
    requires IsRun(p, rules, StoreSearch(st), seeds, log) && FromStore(st, p, log) && Covers(p, m + 1, log)
    requires ComesFirst(log, b) && p.steps.Keys == {a, b} && a in p.steps && b in p.steps && a != b
    requires !HasHit(st, p, rules, b, Alone(st, p, rules, seeds, a, m))
    ensures PassedIn(p, rules, log, b) == []
  {
    ListedIffFound(st, p, rules, seeds, log, b);
    if PassedIn(p, rules, log, b) != [] {
      var i := FirstFind(st, p, rules, seeds, log, |log|, b);
      EarlierRoundsOnly(log, i, m, a, b);
      AloneBounds(st, p, rules, seeds, log, i, m, a, b);
      HasHitGrows(st, p, rules, b, DigestsAt(seeds, log, i), Alone(st, p, rules, seeds, a, m));
    }
  }

  lemma EarlierRoundsOnly(log: seq<Visit>, i: nat, m: nat, a: string, b: string)
    requires InRounds(log) && ComesFirst(log, b) && i < |log| && log[i].stepName == b && log[i].round < m + 1
    ensures VisitedOnlyIn(log, i, m, a)
  {
    forall j | 0 <= j < i && log[j].stepName == a ensures log[j].round < m {
    }
  }

  lemma BothVerdicts(st: Store, p: Policy, rules: Rules, opts: VerifyOptions, m: nat, a: string, b: string)
    returns (t1: Trace, t2: Trace)
    requires WellFormed(p) && TwoSteps(p, a, b) && a in p.steps && b in p.steps && opts.searchDepth == m + 1
    requires TakesOneMore(st, p, rules, opts.subjectDigests, a, b, m)
    ensures Verdicts(p, rules, StoreSearch(st), opts, t1, true)
    ensures Verdicts(p, rules, StoreSearch(st), opts, t2, false)
  {
    t1 := FoundVerdict(st, p, rules, opts, m, a, b);
    t2 := MissedVerdict(st, p, rules, opts, m, a, b);
  }

  lemma FoundVerdict(st: Store, p: Policy, rules: Rules, opts: VerifyOptions, m: nat, a: string, b: string)
    returns (t: Trace)
    requires WellFormed(p) && TwoSteps(p, a, b) && a in p.steps && b in p.steps && opts.searchDepth == m + 1
    requires TakesOneMore(st, p, rules, opts.subjectDigests, a, b, m)
    ensures Verdicts(p, rules, StoreSearch(st), opts, t, true)
  {
    var log := RoundsInOrder(st, p, rules, opts.subjectDigests, a, b, m + 1);
    StoreSearchAnswers(st, p, rules, opts.subjectDigests, log);
    FoundAfter(st, p, rules, opts.subjectDigests, log, m, a, b);
    BothListed(p, rules, log, a, b);
    t := OrderedVerdict(st, p, rules, opts, a, b, log);
  }

  lemma MissedVerdict(st: Store, p: Policy, rules: Rules, opts: VerifyOptions, m: nat, a: string, b: string)
    returns (t: Trace)
    requires WellFormed(p) && TwoSteps(p, a, b) && a in p.steps && b in p.steps && opts.searchDepth == m + 1
    requires TakesOneMore(st, p, rules, opts.subjectDigests, a, b, m)
    ensures Verdicts(p, rules, StoreSearch(st), opts, t, false)
  {
    var log := RoundsInOrder(st, p, rules, opts.subjectDigests, b, a, m + 1);
    StoreSearchAnswers(st, p, rules, opts.subjectDigests, log);
    NotFoundBefore(st, p, rules, opts.subjectDigests, log, m, a, b);
    BothListed(p, rules, log, a, b);
    t := OrderedVerdict(st, p, rules, opts, a, b, log);
  }

  lemma OrderedVerdict(st: Store, p: Policy, rules: Rules, opts: VerifyOptions, a: string, b: string, log: seq<Visit>)
    returns (t: Trace)
    requires WellFormed(p) && TwoSteps(p, a, b) && opts.searchDepth >= 1
    requires IsRun(p, rules, StoreSearch(st), opts.subjectDigests, log) && Covers(p, opts.searchDepth, log)
    ensures Verdicts(p, rules, StoreSearch(st), opts, t, FindsAll(p, rules, log))
  {
    t := Trace(log, [a, b]);
    assert Enumerates([a, b], p.steps.Keys);
    RunVerdict(st, p, rules, opts, log, [a, b]);
  }

  /**
   * For a policy of two steps that take no artifacts from each other, and any search depth, the verdict is the same in all
   * orders if and only if neither step takes exactly as many visits of the other as there are rounds to be led to.
   */
  lemma TwoStepVerdictsAgreeIff(st: Store, p: Policy, rules: Rules, opts: VerifyOptions, m: nat, a: string, b: string)
    requires WellFormed(p) && TwoSteps(p, a, b) && a in p.steps && b in p.steps && opts.searchDepth == m + 1
    ensures VerdictsAgree(st, p, rules, opts) <==>
      && !TakesOneMore(st, p, rules, opts.subjectDigests, a, b, m)
      && !TakesOneMore(st, p, rules, opts.subjectDigests, b, a, m)
  {
    if TakesOneMore(st, p, rules, opts.subjectDigests, a, b, m) {
      var t1, t2 := BothVerdicts(st, p, rules, opts, m, a, b);
      assert !VerdictsAgree(st, p, rules, opts);
    } else if TakesOneMore(st, p, rules, opts.subjectDigests, b, a, m) {
      var t1, t2 := BothVerdicts(st, p, rules, opts, m, b, a);
      assert !VerdictsAgree(st, p, rules, opts);
    } else {
      forall t1, t2, pass1, pass2 |
        Verdicts(p, rules, StoreSearch(st), opts, t1, pass1) && Verdicts(p, rules, StoreSearch(st), opts, t2, pass2)
        ensures pass1 == pass2
      {
        VerdictIs(st, p, rules, opts, m, a, b, t1, pass1);
        VerdictIs(st, p, rules, opts, m, a, b, t2, pass2);
      }
    }
  }
}
