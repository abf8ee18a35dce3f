// Running attestors stage by stage, the attestors of one stage at the same time (attestation/context.go).
module Stages {
  import opened Options
  import opened Digests
  import opened Collections

  const EXECUTE: string := "execute"
  const VERIFY: string := "verify"
  const RUN_TYPE_ORDER: seq<string> := ["prematerial", "material", EXECUTE, "product", "postproduct"]

  /** `declares` is None for an attestor that declares no hooks, and otherwise says whether its declaration succeeds. */
  datatype Runner = Runner(name: string, runType: string, declares: Option<bool>)

  /** What an attestor comes to in one run. */
  datatype Outcome = Outcome(
    ok: bool, materials: Option<map<string, DigestSet>>, products: Option<map<string, Product>>)

  datatype RunError = RunTypeNotSet(name: string) | VerifyMixed | DeclarationFailed(name: string) | CannotDeclare(name: string)

  // ---- before anything runs -------------------------------------------------------------------

  ghost predicate AnyOf(runners: seq<Runner>, runType: string) {
    exists i :: 0 <= i < |runners| && runners[i].runType == runType
  }

  ghost predicate UnsetError(runners: seq<Runner>, e: RunError) {
    exists i :: 0 <= i < |runners| && runners[i].runType == "" && e == RunTypeNotSet(runners[i].name)
  }

  /** The stages to go through, or why nothing runs at all. */
  ghost predicate Plans(runners: seq<Runner>, plan: Result<seq<string>, RunError>) {
    if AnyOf(runners, "") then plan.Err? && UnsetError(runners, plan.error)
    else if !AnyOf(runners, VERIFY) then plan == Ok(RUN_TYPE_ORDER)
    else if forall i :: 0 <= i < |runners| ==> runners[i].runType == VERIFY then plan == Ok([VERIFY])
    else plan == Err(VerifyMixed)
  }

  /** The attestors of a run type, in the order given. */
  function IndicesOf(runners: seq<Runner>, runType: string): seq<nat> {
    if runners == [] then [] else
    var front, last := IndicesOf(runners[..|runners| - 1], runType), |runners| - 1;
    if runners[last].runType == runType then front + [last] else front
  }

  lemma {:induction false} IndicesMembers(runners: seq<Runner>, runType: string)
    ensures
      var group := IndicesOf(runners, runType);
      && (forall g :: 0 <= g < |group| ==> group[g] < |runners| && runners[group[g]].runType == runType)
      && (forall i: nat :: i < |runners| && runners[i].runType == runType ==> i in group)
      && Increasing(group, |runners|)
  {
    if runners != [] {
      var front, last := runners[..|runners| - 1], |runners| - 1;
      IndicesMembers(front, runType);
      forall i: nat | i < |runners| && runners[i].runType == runType ensures i in IndicesOf(runners, runType) {
        assert i == last || (front[i] == runners[i] && i in IndicesOf(front, runType));
      }
    }
  }

  method Group(runners: seq<Runner>) returns (groups: Result<map<string, seq<nat>>, RunError>)
    ensures AnyOf(runners, "") ==> groups.Err? && UnsetError(runners, groups.error)
    ensures !AnyOf(runners, "") ==>
      && groups.Ok?
      && (forall t :: t in groups.value <==> AnyOf(runners, t))
      && (forall t :: t in groups.value ==> groups.value[t] == IndicesOf(runners, t))
  {
    var attestors: map<string, seq<nat>> := map[];
    for i := 0 to |runners|
      invariant forall k :: 0 <= k < i ==> runners[k].runType != ""
      invariant forall t :: t in attestors <==> AnyOf(runners[..i], t)
      invariant forall t :: t in attestors ==> attestors[t] == IndicesOf(runners[..i], t)
      invariant forall t :: t !in attestors ==> IndicesOf(runners[..i], t) == []
    {
      var t := runners[i].runType;
      if t == "" {
        return Err(RunTypeNotSet(runners[i].name));
      }
      assert runners[..i + 1][..i] == runners[..i];
      AnyOfNext(runners, i);
      attestors := attestors[t := (if t in attestors then attestors[t] else []) + [i]];
    }
    assert runners[..|runners|] == runners;
    return Ok(attestors);
  }

  lemma AnyOfNext(runners: seq<Runner>, i: nat)
    requires i < |runners|
    ensures forall t :: AnyOf(runners[..i + 1], t) <==> AnyOf(runners[..i], t) || runners[i].runType == t
  {
    forall t ensures AnyOf(runners[..i + 1], t) <==> AnyOf(runners[..i], t) || runners[i].runType == t {
      if AnyOf(runners[..i], t) {
        var k :| 0 <= k < i && runners[..i][k].runType == t;
        assert runners[..i + 1][k].runType == t;
      }
      if runners[i].runType == t {
        assert runners[..i + 1][i].runType == t;
      }
      if AnyOf(runners[..i + 1], t) {
        var k :| 0 <= k < i + 1 && runners[..i + 1][k].runType == t;
        assert k < i ==> runners[..i][k].runType == t;
      }
    }
  }

  method Plan(runners: seq<Runner>) returns (plan: Result<seq<string>, RunError>)
    ensures Plans(runners, plan)
    ensures plan.Err? && plan.error.RunTypeNotSet? <==> exists i :: 0 <= i < |runners| && runners[i].runType == ""
    ensures plan == Err(VerifyMixed) <==>
      && (forall i :: 0 <= i < |runners| ==> runners[i].runType != "")
      && (exists i :: 0 <= i < |runners| && runners[i].runType == VERIFY)
      && (exists i :: 0 <= i < |runners| && runners[i].runType != VERIFY)
    ensures plan.Ok? ==>
      plan.value == if exists i :: 0 <= i < |runners| && runners[i].runType == VERIFY then [VERIFY] else RUN_TYPE_ORDER
  {
    var groups := Group(runners);
    if groups.Err? {
      return Err(groups.error);
    }
    var attestors := groups.value;
    OneKeyIff(attestors, VERIFY);
    forall i | 0 <= i < |runners| ensures runners[i].runType in attestors {
      assert AnyOf(runners, runners[i].runType);
    }
    if VERIFY in attestors && |attestors| > 1 {
      return Err(VerifyMixed);
    } else if VERIFY in attestors {
      return Ok([VERIFY]);
    }
    return Ok(RUN_TYPE_ORDER);
  }

  lemma OneKeyIff<V>(m: map<string, V>, k: string)
    ensures k in m ==> (|m| <= 1 <==> forall x :: x in m ==> x == k)
  {
    if k in m {
      var rest := m.Keys - {k};
      assert m.Keys == {k} + rest;
      assert |m.Keys| == |m|;
      if forall x :: x in m ==> x == k {
        assert rest == {};
      } else {
        var x :| x in m && x != k;
        assert x in rest;
      }
    }
  }

  /** Where a run type stands among the stages; past the end when it is not among them. */
  function Position(order: seq<string>, runType: string): (k: nat)
    ensures k <= |order|
    ensures k < |order| ==> order[k] == runType
    ensures runType in order ==> k < |order|
  {
    if order == [] then 0 else if order[0] == runType then 0 else 1 + Position(order[1..], runType)
  }

  /** Only attestors of the execute stage may declare hooks, and all their declarations must succeed. */
  predicate MayDeclare(r: Runner) {
    if r.runType == EXECUTE then r.declares != Some(false) else r.declares.None?
  }

  predicate Offends(r: Runner, e: RunError) {
    !MayDeclare(r) && e == if r.runType == EXECUTE then DeclarationFailed(r.name) else CannotDeclare(r.name)
  }

  /** What the declaration phase of a stage says: an offender of the stage, if there is one. */
  method Declare(runners: seq<Runner>, runType: string, group: seq<nat>) returns (error: Option<RunError>)
    requires group == IndicesOf(runners, runType)
    ensures error.None? <==> forall i :: 0 <= i < |runners| && runners[i].runType == runType ==> MayDeclare(runners[i])
    ensures error.Some? ==>
      exists i :: 0 <= i < |runners| && runners[i].runType == runType && Offends(runners[i], error.value)
    ensures runType == EXECUTE ==>
      (error.None? <==> forall i :: 0 <= i < |runners| && runners[i].runType == runType ==> runners[i].declares != Some(false))
    ensures runType != EXECUTE ==>
      (error.None? <==> forall i :: 0 <= i < |runners| && runners[i].runType == runType ==> runners[i].declares == None)
  {
    IndicesMembers(runners, runType);
    if runType == EXECUTE {
      for g := 0 to |group|
        invariant forall h :: 0 <= h < g ==> MayDeclare(runners[group[h]])
      {
        var att := runners[group[g]];
        if att.declares.Some? && !att.declares.value {
          return Some(DeclarationFailed(att.name));
        }
      }
    } else {
      for g := 0 to |group|
        invariant forall h :: 0 <= h < g ==> MayDeclare(runners[group[h]])
      {
        var att := runners[group[g]];
        if att.declares.Some? {
          return Some(CannotDeclare(att.name));
        }
      }
    }
    return None;
  }

  // ---- the shared context ---------------------------------------------------------------------

  datatype Completion = Completion(runner: nat, ok: bool)

  /** What the attestors share. */
  datatype Contents = Contents(
    completed: seq<Completion>, materials: map<string, DigestSet>, products: map<string, Product>)

  const EMPTY: Contents := Contents([], map[], map[])

  function AfterCompletion(x: Contents, runner: nat, ok: bool): Contents {
    x.(completed := x.completed + [Completion(runner, ok)])
  }

  function AfterMaterials(x: Contents, newMats: map<string, DigestSet>): Contents {
    x.(materials := x.materials + newMats)
  }

  function AfterProducts(x: Contents, newProds: map<string, Product>): Contents {
    x.(products := x.products + newProds)
  }

  /** The fields that concurrent attestors change, each change under the lock and so a single step. */
  class AttestationContext {
    var completedAttestors: seq<Completion>
    var materials: map<string, DigestSet>
    var products: map<string, Product>

    ghost function Shared(): Contents
      reads this
    {
      Contents(completedAttestors, materials, products)
    }

    constructor ()
      ensures Shared() == EMPTY
    {
      completedAttestors, materials, products := [], map[], map[];
    }

    method Complete(runner: nat, ok: bool)
      modifies this
      ensures Shared() == AfterCompletion(old(Shared()), runner, ok)
    {
      completedAttestors := completedAttestors + [Completion(runner, ok)];
    }

    method AddMaterials(newMats: map<string, DigestSet>)
      modifies this
      ensures Shared() == AfterMaterials(old(Shared()), newMats)
    {
      materials := CopyInto(materials, newMats);
    }

    method AddProducts(newProds: map<string, Product>)
      modifies this
      ensures Shared() == AfterProducts(old(Shared()), newProds)
    {
      products := CopyInto(products, newProds);
    }
  }
}
