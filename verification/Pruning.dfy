// Pruning walks the steps in map order and overwrites results on the way. The verdict does not depend on that order;
// which collections are still listed can.
module Pruning {
  import opened Options
  import opened Collections
  import opened Steps
  import opened PolicyEngine

  /** `after` is `before` with some steps' passed collections gone. */
  ghost predicate Shrinks(after: map<string, StepResult>, before: map<string, StepResult>) {
    && after.Keys == before.Keys
    && (forall k :: k in before ==> after[k].passed == before[k].passed || after[k].passed == [])
  }

  ghost predicate SamePassed(a: map<string, StepResult>, b: map<string, StepResult>) {
    a.Keys == b.Keys && forall k :: k in a ==> a[k].passed == b[k].passed
  }

  lemma HoldsBefore(step: Step, after: map<string, StepResult>, before: map<string, StepResult>)
    requires Shrinks(after, before)
    ensures StepHolds(step, after) ==> StepHolds(step, before)
  {
    if StepHolds(step, after) {
      var i :| 0 <= i < |after[step.name].passed| && Acceptable(step, after[step.name].passed[i], after);
      var c := after[step.name].passed[i];
      forall k | 0 <= k < |step.artifactsFrom|
        ensures FirstAgrees(MaterialsOf(c.env.collection.attestations), step.artifactsFrom[k], before)
      {
        assert FirstAgrees(MaterialsOf(c.env.collection.attestations), step.artifactsFrom[k], after);
      }
      assert Acceptable(step, before[step.name].passed[i], before);
    }
  }

  lemma {:induction false} PruneShrinks(p: Policy, order: seq<string>, results: map<string, StepResult>)
    requires WellFormed(p) && forall i :: 0 <= i < |order| ==> order[i] in p.steps
    requires p.steps.Keys <= results.Keys
    ensures Prune(p, order, results).Some? && Shrinks(Prune(p, order, results).value, results)
  {
    if order != [] {
      PruneShrinks(p, order[..|order| - 1], results);
    }
  }

  lemma {:induction false} PruneKeepsAll(p: Policy, order: seq<string>, results: map<string, StepResult>)
    requires WellFormed(p) && forall i :: 0 <= i < |order| ==> order[i] in p.steps
    requires forall s :: s in p.steps ==> StepHolds(p.steps[s], results)
    ensures Prune(p, order, results) == Some(results)
  {
    if order != [] {
      PruneKeepsAll(p, order[..|order| - 1], results);
      assert StepHolds(p.steps[order[|order| - 1]], results);
    }
  }

  ghost predicate NamesSteps(p: Policy, order: seq<string>) {
    forall i :: 0 <= i < |order| ==> order[i] in p.steps
  }

  /** An order in which the steps may be walked. */
  ghost predicate IsOrder(p: Policy, order: seq<string>) {
    Enumerates(order, p.steps.Keys) && NamesSteps(p, order)
  }

  /** The results after pruning, which cannot fail once every step has a result. */
  ghost function Pruned(p: Policy, order: seq<string>, results: map<string, StepResult>)
    : (pruned: map<string, StepResult>)
    requires WellFormed(p) && NamesSteps(p, order) && p.steps.Keys <= results.Keys
    ensures Prune(p, order, results) == Some(pruned)
    ensures Shrinks(pruned, results)
  {
    PruneShrinks(p, order, results);
    Prune(p, order, results).value
  }

  /** A step that does not hold to begin with has nothing left once it has been visited. */
  lemma {:induction false} PruneClears(p: Policy, order: seq<string>, results: map<string, StepResult>, s: string)
    requires WellFormed(p) && NamesSteps(p, order) && p.steps.Keys <= results.Keys
    requires s in order && !StepHolds(p.steps[s], results)
    ensures Pruned(p, order, results)[s].passed == []
  {
    var front, last := order[..|order| - 1], order[|order| - 1];
    var pruned := Pruned(p, front, results);
    if last == s {
      HoldsBefore(p.steps[s], pruned, results);
    } else {
      PruneClears(p, front, results, s);
    }
  }

  /**
   * In any order, something is left for every step exactly when every step holds against the results pruning starts
   * from, and then nothing at all has changed.
   */
  lemma PruneVerdict(p: Policy, order: seq<string>, results: map<string, StepResult>)
    requires WellFormed(p) && IsOrder(p, order) && p.steps.Keys <= results.Keys
    ensures (forall s :: s in p.steps ==> Pruned(p, order, results)[s].passed != [])
      <==> (forall s :: s in p.steps ==> StepHolds(p.steps[s], results))
    ensures (forall s :: s in p.steps ==> StepHolds(p.steps[s], results)) ==> Pruned(p, order, results) == results
  {
    if forall s :: s in p.steps ==> StepHolds(p.steps[s], results) {
      PruneKeepsAll(p, order, results);
      forall s | s in p.steps ensures results[s].passed != [] {
        assert StepHolds(p.steps[s], results);
      }
    } else {
      var s :| s in p.steps && !StepHolds(p.steps[s], results);
      assert s in Elements(order);
      PruneClears(p, order, results, s);
    }
  }

  // ---- when the pruned results themselves are the same for every order ------------------------

  /** Every step that does not hold, emptied at once. */
  ghost function Emptied(p: Policy, results: map<string, StepResult>): map<string, StepResult> {
    map k | k in results ::
      if k in p.steps && !StepHolds(p.steps[k], results) then results[k].(passed := []) else results[k]
  }

  /** No step that holds relies on one that does not. */
  ghost predicate SelfSupporting(p: Policy, results: map<string, StepResult>) {
    forall s :: s in p.steps && StepHolds(p.steps[s], results) ==> StepHolds(p.steps[s], Emptied(p, results))
  }

  ghost predicate SameForAllOrders(p: Policy, results: map<string, StepResult>)
    requires WellFormed(p) && p.steps.Keys <= results.Keys
  {
    forall o1: seq<string>, o2: seq<string> :: IsOrder(p, o1) && IsOrder(p, o2) ==>
      SamePassed(Pruned(p, o1, results), Pruned(p, o2, results))
  }

  lemma HoldsDependsOnPassed(step: Step, a: map<string, StepResult>, b: map<string, StepResult>)
    requires SamePassed(a, b)
    ensures StepHolds(step, a) <==> StepHolds(step, b)
  {
    HoldsBefore(step, a, b);
    HoldsBefore(step, b, a);
  }

  /** The failing steps among those visited have lost their collections, and no other step has. */
  ghost predicate OnlyFailingEmptied(p: Policy, visited: seq<string>, results: map<string, StepResult>,
                                     pruned: map<string, StepResult>)
  {
    && pruned.Keys == results.Keys
    && (forall s :: s in results ==>
          pruned[s].passed == (if s in visited && s in p.steps && !StepHolds(p.steps[s], results) then []
                               else results[s].passed))
  }

  lemma PrunedStep(p: Policy, front: seq<string>, s: string, results: map<string, StepResult>)
    requires WellFormed(p) && NamesSteps(p, front) && NamesSteps(p, front + [s]) && p.steps.Keys <= results.Keys && s in p.steps
    ensures PruneStep(p.steps[s], Pruned(p, front, results)) == Some(Pruned(p, front + [s], results))
  {
    assert (front + [s])[..|front|] == front;
  }

  /** While no step relies on a failing one, pruning empties the failing steps it has visited and nothing else. */
  lemma {:induction false} PruneEmpties(p: Policy, order: seq<string>, results: map<string, StepResult>)
    requires WellFormed(p) && NamesSteps(p, order) && p.steps.Keys <= results.Keys && SelfSupporting(p, results)
    ensures OnlyFailingEmptied(p, order, results, Pruned(p, order, results))
  {
    if order != [] {
      var front, s := order[..|order| - 1], order[|order| - 1];
      assert order == front + [s];
      PruneEmpties(p, front, results);
      EmptyingStep(p, front, s, results, Pruned(p, front, results));
      PrunedStep(p, front, s, results);
    }
  }

  lemma EmptyingStep(p: Policy, visited: seq<string>, s: string, results: map<string, StepResult>,
                     pruned: map<string, StepResult>)
    requires WellFormed(p) && p.steps.Keys <= results.Keys && s in p.steps
    requires OnlyFailingEmptied(p, visited, results, pruned)
    requires StepHolds(p.steps[s], results) ==> StepHolds(p.steps[s], Emptied(p, results))
    ensures PruneStep(p.steps[s], pruned).Some?
    ensures OnlyFailingEmptied(p, visited + [s], results, PruneStep(p.steps[s], pruned).value)
  {
    HoldsBefore(p.steps[s], Emptied(p, results), pruned);
    HoldsBefore(p.steps[s], pruned, results);
  }

  /** What pruning makes of one step's result: it keeps it, or notes one more reason, having emptied it or found it empty. */
  ghost predicate OneReasonMore(was: StepResult, now: StepResult) {
    || now == was
    || (was.passed == [] && now == was.(rejected := was.rejected + [RejectedCollection(None, NoPassedCollections)]))
    || (was.passed != []
        && now == was.(passed := [], rejected := was.rejected + [RejectedCollection(None, ArtifactsFailed)]))
  }

  /** A visit leaves all other steps alone, and gives a reason exactly when nothing is left for its own. */
  lemma PruneStepAppends(step: Step, results: map<string, StepResult>)
    requires PruneStep(step, results).Some?
    ensures
      var now := PruneStep(step, results).value;
      && step.name in results && now.Keys == results.Keys
      && (forall k :: k in results && k != step.name ==> now[k] == results[k])
      && OneReasonMore(results[step.name], now[step.name])
      && (now[step.name] == results[step.name] <==> now[step.name].passed != [])
  {
    assert step.name in results;
    var r := results[step.name];
    assert |r.rejected + [RejectedCollection(None, NoPassedCollections)]| > |r.rejected|;
  }

  /** Pruning only adds reasons: no rejection is ever lost, whatever the order. */
  lemma {:induction false} PruningOnlyAppends(p: Policy, order: seq<string>, results: map<string, StepResult>)
    requires NamesSteps(p, order) && Prune(p, order, results).Some?
    ensures
      var now := Prune(p, order, results).value;
      && now.Keys == results.Keys
      && (forall k :: k in results ==>
            && now[k].step == results[k].step && results[k].rejected <= now[k].rejected
            && (now[k].passed == results[k].passed || now[k].passed == []))
  {
    if order != [] {
      var front, last := order[..|order| - 1], order[|order| - 1];
      PruningOnlyAppends(p, front, results);
      PruneStepAppends(p.steps[last], Prune(p, front, results).value);
    }
  }

  lemma {:induction false} EnumerationExists(keys: set<string>) returns (order: seq<string>)
    ensures Enumerates(order, keys)
    decreases keys
  {
    if keys == {} {
      order := [];
    } else {
      var k :| k in keys;
      var front := EnumerationExists(keys - {k});
      order := front + [k];
      ElementsAppend(front, [k]);
      forall i | 0 <= i < |front| ensures front[i] != k {
        assert front[i] in Elements(front);
      }
    }
  }

  /** Any steps may come first. */
  lemma OrderStartingWith(p: Policy, a: seq<string>, first: set<string>) returns (b: seq<string>)
    requires Enumerates(a, first) && first <= p.steps.Keys
    ensures Enumerates(b, p.steps.Keys - first)
    ensures NamesSteps(p, a) && NamesSteps(p, b) && IsOrder(p, a + b)
  {
    b := EnumerationExists(p.steps.Keys - first);
    ElementsAppend(a, b);
    assert first + (p.steps.Keys - first) == p.steps.Keys;
    forall i | 0 <= i < |a| ensures a[i] in first {
      assert a[i] in Elements(a);
    }
    forall j | 0 <= j < |b| ensures b[j] in p.steps && b[j] !in first {
      assert b[j] in Elements(b);
    }
  }

  lemma {:induction false} PruneAppend(p: Policy, a: seq<string>, b: seq<string>, results: map<string, StepResult>)
    requires WellFormed(p) && NamesSteps(p, a) && NamesSteps(p, b) && p.steps.Keys <= results.Keys
    ensures Pruned(p, a + b, results) == Pruned(p, b, Pruned(p, a, results))
  {
    if b == [] {
      assert a + b == a;
    } else {
      assert (a + b)[..|a + b| - 1] == a + b[..|b| - 1];
      PruneAppend(p, a, b[..|b| - 1], results);
    }
  }

  /** A step that is not visited keeps its collections. */
  lemma {:induction false} PruneSpares(p: Policy, order: seq<string>, results: map<string, StepResult>, s: string)
    requires WellFormed(p) && NamesSteps(p, order) && p.steps.Keys <= results.Keys
    requires s in results && s !in order
    ensures Pruned(p, order, results)[s].passed == results[s].passed
  {
    if order != [] {
      PruneSpares(p, order[..|order| - 1], results, s);
    }
  }

  /** A step that holds keeps its collections when it comes first. */
  lemma KeptWhenFirst(p: Policy, results: map<string, StepResult>, s: string) returns (order: seq<string>)
    requires WellFormed(p) && p.steps.Keys <= results.Keys
    requires s in p.steps && StepHolds(p.steps[s], results)
    ensures IsOrder(p, order) && Pruned(p, order, results)[s].passed != []
  {
    var b := OrderStartingWith(p, [s], {s});
    order := [s] + b;
    assert [s][..0] == [] && Prune(p, [], results) == Some(results);
    assert Pruned(p, [s], results) == results;
    PruneAppend(p, [s], b, results);
    assert s !in Elements(b);
    PruneSpares(p, b, results, s);
  }

  /** Visiting nothing but failing steps empties exactly those. */
  lemma {:induction false} PruneFailing(p: Policy, order: seq<string>, results: map<string, StepResult>)
    requires WellFormed(p) && NamesSteps(p, order) && p.steps.Keys <= results.Keys
    requires forall i :: 0 <= i < |order| ==> !StepHolds(p.steps[order[i]], results)
    ensures OnlyFailingEmptied(p, order, results, Pruned(p, order, results))
  {
    if order != [] {
      var front, s := order[..|order| - 1], order[|order| - 1];
      assert order == front + [s];
      PruneFailing(p, front, results);
      EmptyingStep(p, front, s, results, Pruned(p, front, results));
      PrunedStep(p, front, s, results);
    }
  }

  /** Some order visits exactly the failing steps, and so empties them all at once. */
  lemma FailingFirst(p: Policy, results: map<string, StepResult>, s: string) returns (a: seq<string>, b: seq<string>)
    requires WellFormed(p) && p.steps.Keys <= results.Keys && s in p.steps && StepHolds(p.steps[s], results)
    ensures NamesSteps(p, a) && NamesSteps(p, b) && IsOrder(p, a + b) && s in b
    ensures SamePassed(Pruned(p, a, results), Emptied(p, results))
  {
    var failing := set k | k in p.steps && !StepHolds(p.steps[k], results);
    a := EnumerationExists(failing);
    b := OrderStartingWith(p, a, failing);
    assert s in Elements(b);
    FailingEmptied(p, a, results);
  }

  lemma FailingEmptied(p: Policy, a: seq<string>, results: map<string, StepResult>)
    requires WellFormed(p) && NamesSteps(p, a) && p.steps.Keys <= results.Keys
    requires Elements(a) == set k | k in p.steps && !StepHolds(p.steps[k], results)
    ensures SamePassed(Pruned(p, a, results), Emptied(p, results))
  {
    assert forall i :: 0 <= i < |a| ==> a[i] in Elements(a);
    PruneFailing(p, a, results);
    assert forall k :: k in a <==> k in Elements(a);
  }

  /** A step that relies on a failing one loses its collections when the failing steps come first. */
  lemma LostWhenLast(p: Policy, results: map<string, StepResult>, s: string) returns (order: seq<string>)
    requires WellFormed(p) && p.steps.Keys <= results.Keys
    requires s in p.steps && StepHolds(p.steps[s], results) && !StepHolds(p.steps[s], Emptied(p, results))
    ensures IsOrder(p, order) && Pruned(p, order, results)[s].passed == []
  {
    var a, b := FailingFirst(p, results, s);
    order := a + b;
    var pruned := Pruned(p, a, results);
    HoldsDependsOnPassed(p.steps[s], pruned, Emptied(p, results));
    PruneClears(p, b, pruned, s);
    PruneAppend(p, a, b, results);
  }

  /** The lists of passed collections come out the same for every order exactly when no holding step relies on a failing one. */
  lemma SameResultsIff(p: Policy, results: map<string, StepResult>)
    requires WellFormed(p) && p.steps.Keys <= results.Keys
    ensures SameForAllOrders(p, results) <==> SelfSupporting(p, results)
  {
    if SelfSupporting(p, results) {
      forall o1: seq<string>, o2: seq<string> | IsOrder(p, o1) && IsOrder(p, o2)
        ensures SamePassed(Pruned(p, o1, results), Pruned(p, o2, results))
      {
        PruneEmpties(p, o1, results);
        PruneEmpties(p, o2, results);
        assert forall s :: s in o1 <==> s in Elements(o1);
        assert forall s :: s in o2 <==> s in Elements(o2);
      }
    } else {
      var s :| s in p.steps && StepHolds(p.steps[s], results) && !StepHolds(p.steps[s], Emptied(p, results));
      var o1 := KeptWhenFirst(p, results, s);
      var o2 := LostWhenLast(p, results, s);
      assert !SamePassed(Pruned(p, o1, results), Pruned(p, o2, results));
    }
  }

  /** Two steps are enough for that: "a" takes artifacts from "b", which takes them from a step that is not there. */
  lemma PrunedResultsCanDependOnOrder() returns (p: Policy, results: map<string, StepResult>)
    ensures WellFormed(p) && p.steps.Keys <= results.Keys && !SameForAllOrders(p, results)
  {
    var a, b := Step("a", [], [], ["b"]), Step("b", [], [], ["c"]);
    p := Policy(false, None, map["a" := a, "b" := b]);
    results := map["a" := StepResult("a", [NOTHING_FOUND], []), "b" := StepResult("b", [NOTHING_FOUND], [])];
    var mats := MaterialsOf(NOTHING_FOUND.env.collection.attestations);
    assert FirstAgrees(mats, "b", results);
    assert Acceptable(a, results["a"].passed[0], results);
    assert StepHolds(a, results);
    forall i | 0 <= i < |results["b"].passed| ensures !Acceptable(b, results["b"].passed[i], results) {
      assert !FirstAgrees(MaterialsOf(results["b"].passed[i].env.collection.attestations), b.artifactsFrom[0], results);
    }
    assert !StepHolds(b, results);
    var emptied := Emptied(p, results);
    assert emptied["b"].passed == [];
    forall i | 0 <= i < |emptied["a"].passed| ensures !Acceptable(a, emptied["a"].passed[i], emptied) {
      assert !FirstAgrees(MaterialsOf(emptied["a"].passed[i].env.collection.attestations), a.artifactsFrom[0], emptied);
    }
    assert "a" in p.steps && !StepHolds(p.steps["a"], emptied);
    SameResultsIff(p, results);
  }
}
