// When a search of one round lists the same collections whatever order Go ranges over the steps in.
module OneRound {
  import opened Options
  import opened Collections
  import opened Sources
  import opened Steps
  import opened PolicyEngine
  import opened Pruning
  import opened Soundness
  import opened BackRefSearch
  import opened VerdictOrder

  /** The digests that the hits of one step refer back to. */
  ghost function ReachedBy(st: Store, p: Policy, rules: Rules, s: string, digests: set<string>): set<string>
    requires s in p.steps
  {
    set i, d | 0 <= i < |st.loads| && Hit(st, p, rules, s, st.loads[i], digests)
               && d in BackRefDigests(st.loads[i].collection) :: d
  }

  lemma ReachedByIff(st: Store, p: Policy, rules: Rules, s: string, digests: set<string>, d: string)
    requires s in p.steps
    ensures d in ReachedBy(st, p, rules, s, digests) <==>
      exists ce :: Hit(st, p, rules, s, ce, digests) && d in BackRefDigests(ce.collection)
  {
    if ce :| Hit(st, p, rules, s, ce, digests) && d in BackRefDigests(ce.collection) {
      var i :| 0 <= i < |st.loads| && st.loads[i] == ce;
      assert Hit(st, p, rules, s, st.loads[i], digests);
    }
  }

  /** What step `t` finds from the seeds leads step `s` to nothing that the seeds do not lead to. */
  ghost predicate NoHelp(st: Store, p: Policy, rules: Rules, seeds: seq<string>, t: string, s: string)
    requires t in p.steps && s in p.steps
  {
    forall ce :: Hit(st, p, rules, s, ce, Elements(seeds) + ReachedBy(st, p, rules, t, Elements(seeds))) ==>
      Hit(st, p, rules, s, ce, Elements(seeds))
  }

  ghost predicate NoStepHelps(st: Store, p: Policy, rules: Rules, seeds: seq<string>) {
    forall t, s :: t in p.steps && s in p.steps && t != s ==> NoHelp(st, p, rules, seeds, t, s)
  }

  /** The search of one round, in some order. */
  ghost predicate IsRound(st: Store, p: Policy, rules: Rules, seeds: seq<string>, log: seq<Visit>) {
    IsRun(p, rules, StoreSearch(st), seeds, log) && Covers(p, 1, log)
  }

  ghost predicate ListAlike(p: Policy, rules: Rules, log1: seq<Visit>, log2: seq<Visit>)
    requires Known(p, log1) && Known(p, log2)
  {
    forall s :: s in p.steps ==> Elements(PassedIn(p, rules, log1, s)) == Elements(PassedIn(p, rules, log2, s))
  }

  ghost predicate RoundsListAlike(st: Store, p: Policy, rules: Rules, seeds: seq<string>) {
    forall log1, log2 :: IsRound(st, p, rules, seeds, log1) && IsRound(st, p, rules, seeds, log2) ==>
      ListAlike(p, rules, log1, log2)
  }

  // ---- no help, no difference -----------------------------------------------------------------

  /** Visit `i` finds from its digests what it would find from the seeds. */
  ghost predicate FindsFromSeeds(st: Store, p: Policy, rules: Rules, seeds: seq<string>, log: seq<Visit>, i: nat)
    requires i < |log| && Known(p, log)
  {
    forall ce :: Hit(st, p, rules, log[i].stepName, ce, DigestsAt(seeds, log, i)) ==>
      Hit(st, p, rules, log[i].stepName, ce, Elements(seeds))
  }

  /** A digest at hand before visit `i` is a seed, or an earlier visit got there from the seeds. */
  ghost predicate IsNear(st: Store, p: Policy, rules: Rules, seeds: seq<string>, log: seq<Visit>, i: nat, d: string)
    requires i <= |log| && Known(p, log)
  {
    d in Elements(seeds) ||
    exists j :: 0 <= j < i && d in ReachedBy(st, p, rules, log[j].stepName, Elements(seeds))
  }

  lemma AppendedIsNear(st: Store, p: Policy, rules: Rules, seeds: seq<string>, log: seq<Visit>, i: nat, d: string)
    requires IsRun(p, rules, StoreSearch(st), seeds, log) && FromStore(st, p, log) && i < |log|
    requires FindsFromSeeds(st, p, rules, seeds, log, i) && d in log[i].appended
    ensures IsNear(st, p, rules, seeds, log, i + 1, d)
  {
    AppendedAreReached(st, p, rules, StoreSearch(st), seeds, log, i);
    var ce :| Hit(st, p, rules, log[i].stepName, ce, DigestsAt(seeds, log, i)) && d in BackRefDigests(ce.collection);
    ReachedByIff(st, p, rules, log[i].stepName, Elements(seeds), d);
  }

  lemma {:induction false} DigestsAreNear(st: Store, p: Policy, rules: Rules, seeds: seq<string>, log: seq<Visit>,
                                          i: nat)
    requires IsRun(p, rules, StoreSearch(st), seeds, log) && FromStore(st, p, log) && i <= |log|
    requires forall j :: 0 <= j < i ==> FindsFromSeeds(st, p, rules, seeds, log, j)
    ensures forall d :: d in DigestsAt(seeds, log, i) ==> IsNear(st, p, rules, seeds, log, i, d)
  {
    if i == 0 {
      assert log[..0] == [];
    } else {
      var k := i - 1;
      DigestsAreNear(st, p, rules, seeds, log, k);
      DigestsStep(seeds, log, k);
      forall d | d in DigestsAt(seeds, log, i) ensures IsNear(st, p, rules, seeds, log, i, d) {
        if d in log[k].appended {
          AppendedIsNear(st, p, rules, seeds, log, k, d);
        } else {
          assert IsNear(st, p, rules, seeds, log, k, d);
        }
      }
    }
  }

  lemma NearHitIsHit(st: Store, p: Policy, rules: Rules, seeds: seq<string>, log: seq<Visit>, i: nat,
                     ce: CollectionEnvelope)
    requires Known(p, log) && NoStepHelps(st, p, rules, seeds) && i < |log|
    requires forall j :: 0 <= j < i ==> log[j].stepName != log[i].stepName
    requires forall d :: d in DigestsAt(seeds, log, i) ==> IsNear(st, p, rules, seeds, log, i, d)
    requires Hit(st, p, rules, log[i].stepName, ce, DigestsAt(seeds, log, i))
    ensures Hit(st, p, rules, log[i].stepName, ce, Elements(seeds))
  {
    var s := log[i].stepName;
    var d :| d in DigestsAt(seeds, log, i) && d in SubjectDigests(ce);
    assert IsNear(st, p, rules, seeds, log, i, d);
    if d !in Elements(seeds) {
      var j :| 0 <= j < i && d in ReachedBy(st, p, rules, log[j].stepName, Elements(seeds));
      assert NoHelp(st, p, rules, seeds, log[j].stepName, s);
      assert Hit(st, p, rules, s, ce, Elements(seeds) + ReachedBy(st, p, rules, log[j].stepName, Elements(seeds)));
    }
  }

  lemma {:induction false} VisitsFindFromSeeds(st: Store, p: Policy, rules: Rules, seeds: seq<string>,
                                               log: seq<Visit>, n: nat)
    requires IsRound(st, p, rules, seeds, log) && FromStore(st, p, log) && NoStepHelps(st, p, rules, seeds)
    requires n <= |log|
    ensures forall i :: 0 <= i < n ==> FindsFromSeeds(st, p, rules, seeds, log, i)
  {
    if n > 0 {
      var i := n - 1;
      VisitsFindFromSeeds(st, p, rules, seeds, log, i);
      DigestsAreNear(st, p, rules, seeds, log, i);
      OncePerRound(p, log, i);
      forall ce | Hit(st, p, rules, log[i].stepName, ce, DigestsAt(seeds, log, i))
        ensures Hit(st, p, rules, log[i].stepName, ce, Elements(seeds))
      {
        NearHitIsHit(st, p, rules, seeds, log, i, ce);
      }
    }
  }

  lemma OncePerRound(p: Policy, log: seq<Visit>, i: nat)
    requires InRounds(log) && Covers(p, 1, log) && i < |log|
    ensures forall j :: 0 <= j < i ==> log[j].stepName != log[i].stepName
  {
  }

  /** When no step helps another, a round lists the hits of the seeds, in whatever order. */
  lemma RoundListsSeedHits(st: Store, p: Policy, rules: Rules, seeds: seq<string>, log: seq<Visit>, s: string,
                           c: CollectionResult)
    requires IsRound(st, p, rules, seeds, log) && NoStepHelps(st, p, rules, seeds) && s in p.steps
    ensures c in PassedIn(p, rules, log, s) <==> ListedHit(st, p, rules, s, c, Elements(seeds))
  {
    StoreSearchAnswers(st, p, rules, seeds, log);
    VisitsFindFromSeeds(st, p, rules, seeds, log, |log|);
    if c in PassedIn(p, rules, log, s) {
      PassedInMember(p, rules, log, s, c);
      var i :| 0 <= i < |log| && PassedBy(p, rules, log[i], s, c);
      ListedFromSeeds(st, p, rules, seeds, log, i, c);
    }
    if ce :| Hit(st, p, rules, s, ce, Elements(seeds)) && c == Listed(st, rules, p.steps[s], ce) {
      var i := SomeVisit(p, log, s);
      SeedHitIsListed(st, p, rules, seeds, log, i, s, ce);
    }
  }

  lemma ListedFromSeeds(st: Store, p: Policy, rules: Rules, seeds: seq<string>, log: seq<Visit>, i: nat,
                        c: CollectionResult)
    requires IsRun(p, rules, StoreSearch(st), seeds, log) && FromStore(st, p, log) && i < |log|
    requires FindsFromSeeds(st, p, rules, seeds, log, i) && PassedBy(p, rules, log[i], log[i].stepName, c)
    ensures ListedHit(st, p, rules, log[i].stepName, c, Elements(seeds))
  {
    assert Answered(st, p, log, i);
    PassedIsHit(st, p, rules, log[i], c);
    AppendedAreReached(st, p, rules, StoreSearch(st), seeds, log, i);
  }

  lemma SomeVisit(p: Policy, log: seq<Visit>, s: string) returns (i: nat)
    requires Covers(p, 1, log) && s in p.steps
    ensures i < |log| && log[i].stepName == s
  {
    assert Visited(log, 0, s);
    i :| i < |log| && log[i].round == 0 && log[i].stepName == s;
  }

  lemma SeedHitIsListed(st: Store, p: Policy, rules: Rules, seeds: seq<string>, log: seq<Visit>, i: nat, s: string,
                        ce: CollectionEnvelope)
    requires IsRun(p, rules, StoreSearch(st), seeds, log) && FromStore(st, p, log)
    requires i < |log| && log[i].stepName == s && s in p.steps && Hit(st, p, rules, s, ce, Elements(seeds))
    ensures Listed(st, rules, p.steps[s], ce) in PassedIn(p, rules, log, s)
  {
    DigestsGrow(seeds, log, 0, i);
    assert log[..0] == [];
    assert Hit(st, p, rules, s, ce, DigestsAt(seeds, log, i));
    HitAtVisitIsListed(st, p, rules, StoreSearch(st), seeds, log, i, s, ce);
  }

  // ---- help makes a difference ----------------------------------------------------------------

  /** Some round starts with these two steps. */
  lemma RoundStarting(st: Store, p: Policy, rules: Rules, seeds: seq<string>, a: string, b: string)
    returns (log: seq<Visit>)
    requires a in p.steps && b in p.steps && a != b
    ensures IsRound(st, p, rules, seeds, log) && |log| >= 2 && log[0].stepName == a && log[1].stepName == b
  {
    var rest := OrderStartingWith(p, [a, b], {a, b});
    var order := [a, b] + rest;
    log := RoundInOrder(st, p, rules, seeds, order);
    FollowsCovers(p, log, order);
  }

  lemma FirstReaches(st: Store, p: Policy, rules: Rules, seeds: seq<string>, log: seq<Visit>, t: string)
    requires IsRun(p, rules, StoreSearch(st), seeds, log) && FromStore(st, p, log)
    requires |log| >= 1 && log[0].stepName == t && t in p.steps
    ensures Elements(seeds) + ReachedBy(st, p, rules, t, Elements(seeds)) <= DigestsAt(seeds, log, 1)
  {
    AppendedAreReached(st, p, rules, StoreSearch(st), seeds, log, 0);
    assert log[..0] == [];
    DigestsStep(seeds, log, 0);
    forall d | d in ReachedBy(st, p, rules, t, Elements(seeds)) ensures d in DigestsAt(seeds, log, 1) {
      ReachedByIff(st, p, rules, t, Elements(seeds), d);
      assert d in log[0].appended;
    }
  }

  /** Visited second, a step is led on by what the first one found. */
  lemma SecondIsHelped(st: Store, p: Policy, rules: Rules, seeds: seq<string>, log: seq<Visit>, t: string, s: string,
                       ce: CollectionEnvelope)
    requires IsRound(st, p, rules, seeds, log) && |log| >= 2 && log[0].stepName == t && log[1].stepName == s
    requires t in p.steps && s in p.steps
    requires Hit(st, p, rules, s, ce, Elements(seeds) + ReachedBy(st, p, rules, t, Elements(seeds)))
    ensures Listed(st, rules, p.steps[s], ce) in PassedIn(p, rules, log, s)
  {
    StoreSearchAnswers(st, p, rules, seeds, log);
    FirstReaches(st, p, rules, seeds, log, t);
    assert Hit(st, p, rules, s, ce, DigestsAt(seeds, log, 1));
    HitAtVisitIsListed(st, p, rules, StoreSearch(st), seeds, log, 1, s, ce);
  }

  /** Visited first, a step lists the hits of the seeds only. */
  lemma FirstIsNotHelped(st: Store, p: Policy, rules: Rules, seeds: seq<string>, log: seq<Visit>, s: string,
                         c: CollectionResult)
    requires IsRound(st, p, rules, seeds, log) && |log| >= 1 && log[0].stepName == s && s in p.steps
    requires c in PassedIn(p, rules, log, s)
    ensures ListedHit(st, p, rules, s, c, Elements(seeds))
  {
    StoreSearchAnswers(st, p, rules, seeds, log);
    PassedInMember(p, rules, log, s, c);
    var i :| 0 <= i < |log| && PassedBy(p, rules, log[i], s, c);
    OncePerRound(p, log, i);
    assert log[..0] == [];
    assert FindsFromSeeds(st, p, rules, seeds, log, 0);
    ListedFromSeeds(st, p, rules, seeds, log, 0, c);
  }

  lemma HelpShows(st: Store, p: Policy, rules: Rules, seeds: seq<string>, t: string, s: string, ce: CollectionEnvelope)
    requires RoundsListAlike(st, p, rules, seeds) && t in p.steps && s in p.steps && t != s
    requires Hit(st, p, rules, s, ce, Elements(seeds) + ReachedBy(st, p, rules, t, Elements(seeds)))
    ensures Hit(st, p, rules, s, ce, Elements(seeds))
  {
    var log1 := RoundStarting(st, p, rules, seeds, t, s);
    var log2 := RoundStarting(st, p, rules, seeds, s, t);
    var c := Listed(st, rules, p.steps[s], ce);
    SecondIsHelped(st, p, rules, seeds, log1, t, s, ce);
    assert ListAlike(p, rules, log1, log2);
    assert c in Elements(PassedIn(p, rules, log1, s));
    FirstIsNotHelped(st, p, rules, seeds, log2, s, c);
    var hit :| Hit(st, p, rules, s, hit, Elements(seeds)) && c == Listed(st, rules, p.steps[s], hit);
    assert hit == ce;
  }

  /**
   * All searches of one round list the same collections for every step, whatever orders they visit the steps in, if and
   * only if what any step finds from the seeds leads no other step to anything further.
   */
  lemma OneRoundListsAlikeIff(st: Store, p: Policy, rules: Rules, seeds: seq<string>)
    ensures RoundsListAlike(st, p, rules, seeds) <==> NoStepHelps(st, p, rules, seeds)
  {
    if NoStepHelps(st, p, rules, seeds) {
      forall log1, log2 | IsRound(st, p, rules, seeds, log1) && IsRound(st, p, rules, seeds, log2)
        ensures ListAlike(p, rules, log1, log2)
      {
        NoHelpNoDifference(st, p, rules, seeds, log1, log2);
      }
    }
    if RoundsListAlike(st, p, rules, seeds) {
      forall t, s | t in p.steps && s in p.steps && t != s ensures NoHelp(st, p, rules, seeds, t, s) {
        forall ce | Hit(st, p, rules, s, ce, Elements(seeds) + ReachedBy(st, p, rules, t, Elements(seeds)))
          ensures Hit(st, p, rules, s, ce, Elements(seeds))
        {
          HelpShows(st, p, rules, seeds, t, s, ce);
        }
      }
    }
  }

  lemma NoHelpNoDifference(st: Store, p: Policy, rules: Rules, seeds: seq<string>, log1: seq<Visit>, log2: seq<Visit>)
    requires NoStepHelps(st, p, rules, seeds)
    requires IsRound(st, p, rules, seeds, log1) && IsRound(st, p, rules, seeds, log2)
    ensures ListAlike(p, rules, log1, log2)
  {
    forall s, c | s in p.steps
      ensures c in Elements(PassedIn(p, rules, log1, s)) <==> c in Elements(PassedIn(p, rules, log2, s))
    {
      RoundListsSeedHits(st, p, rules, seeds, log1, s, c);
      RoundListsSeedHits(st, p, rules, seeds, log2, s, c);
    }
  }
}
