// Hooks into the traced command: declared, registered, awaited, run (attestation/execute_hooks.go).
module Hooks {
  import opened Options

  datatype Stage = PreExec | PreExit

  datatype Declaration = Declaration(attestor: string, stage: Stage)

  /** `fn` answers whether the hook succeeds for a process. */
  datatype RegisteredHook = RegisteredHook(attestor: string, stage: Stage, fn: int -> bool)

  datatype HookError =
    | AlreadyDeclared(decl: Declaration)
    | NotDeclared(decl: Declaration)
    | AlreadyRegistered(decl: Declaration)
    | HookFailed(attestor: string, stage: Stage)
    | TimedOut(missing: set<Declaration>)

  /** `closes` counts how often the channel that announces completion has been closed; Go panics at the second time. */
  datatype HookState = HookState(
    declarationToFulfilled: map<Declaration, bool>, hooks: seq<RegisteredHook>, closes: nat)

  const INITIAL: HookState := HookState(map[], [], 0)

  function DeclOf(h: RegisteredHook): Declaration {
    Declaration(h.attestor, h.stage)
  }

  // ---- specification --------------------------------------------------------------------------

  ghost predicate AllFulfilled(m: map<Declaration, bool>) {
    forall d :: d in m ==> m[d]
  }

  /** Something is declared and all of it is registered. */
  ghost predicate Complete(s: HookState) {
    s.declarationToFulfilled != map[] && AllFulfilled(s.declarationToFulfilled)
  }

  ghost predicate Registers(s: HookState, d: Declaration) {
    exists i :: 0 <= i < |s.hooks| && DeclOf(s.hooks[i]) == d
  }

  function Declared(s: HookState, d: Declaration): HookState {
    if d in s.declarationToFulfilled then s else s.(declarationToFulfilled := s.declarationToFulfilled[d := false])
  }

  /** The set holds what is declared and has no hook. */
  ghost predicate NamesMissing(s: HookState, missing: set<Declaration>) {
    forall d :: d in missing <==> d in s.declarationToFulfilled && !Registers(s, d)
  }

  predicate MayRegister(s: HookState, d: Declaration) {
    d in s.declarationToFulfilled && !s.declarationToFulfilled[d]
  }

  ghost function Registered(s: HookState, h: RegisteredHook): HookState {
    if !MayRegister(s, DeclOf(h)) then s else
    var m := s.declarationToFulfilled[DeclOf(h) := true];
    HookState(m, s.hooks + [h], s.closes + if AllFulfilled(m) && s.closes == 0 then 1 else 0)
  }

  function OfStage(hooks: seq<RegisteredHook>, stage: Stage): seq<RegisteredHook> {
    if hooks == [] then [] else
    var front, last := OfStage(hooks[..|hooks| - 1], stage), hooks[|hooks| - 1];
    if last.stage == stage then front + [last] else front
  }

  /** How many of the hooks get called before the first one fails, that one included. */
  function CallsMade(hooks: seq<RegisteredHook>, pid: int): (n: nat)
    ensures n <= |hooks|
  {
    if hooks == [] then 0
    else if !hooks[0].fn(pid) then 1
    else 1 + CallsMade(hooks[1..], pid)
  }

  /** The hooks a round for a stage calls: in registration order, up to and including the first that fails. */
  function CalledHooks(hooks: seq<RegisteredHook>, stage: Stage, pid: int): seq<RegisteredHook> {
    var stageHooks := OfStage(hooks, stage);
    stageHooks[..CallsMade(stageHooks, pid)]
  }

  /** The listed hooks are all those of the stage, and stand at `idx` among the registered ones. */
  ghost predicate StandAt(hooks: seq<RegisteredHook>, stage: Stage, list: seq<RegisteredHook>, idx: seq<nat>) {
    && Increasing(idx, |hooks|) && |idx| == |list|
    && (forall k :: 0 <= k < |idx| ==> list[k] == hooks[idx[k]] && hooks[idx[k]].stage == stage)
    && (forall i: nat :: i < |hooks| && hooks[i].stage == stage ==> i in idx)
  }

  /** The hooks of a stage stand in the order in which they were registered. */
  lemma {:induction false} OfStageInOrder(hooks: seq<RegisteredHook>, stage: Stage) returns (idx: seq<nat>)
    ensures StandAt(hooks, stage, OfStage(hooks, stage), idx)
  {
    if hooks == [] {
      idx := [];
    } else {
      var front, last := hooks[..|hooks| - 1], |hooks| - 1;
      idx := OfStageInOrder(front, stage);
      assert forall i :: 0 <= i < |front| ==> front[i] == hooks[i];
      if hooks[last].stage == stage {
        idx := idx + [last];
      }
    }
  }

  /**
   * The calls are those of the hooks registered at `idx`: in the order of registration, all of the stage, none of the stage
   * left out before the last one called, and only the last one may have failed.
   */
  ghost predicate CallsInOrder(hooks: seq<RegisteredHook>, stage: Stage, pid: int, calls: seq<RegisteredHook>,
                               idx: seq<nat>)
  {
    && Increasing(idx, |hooks|) && |calls| == |idx|
    && (forall k :: 0 <= k < |idx| ==> calls[k] == hooks[idx[k]] && hooks[idx[k]].stage == stage)
    && (idx != [] ==> forall i: nat :: i < idx[|idx| - 1] && hooks[i].stage == stage ==> i in idx)
    && (forall k :: 0 <= k < |idx| - 1 ==> calls[k].fn(pid))
  }

  ghost predicate AllCalled(hooks: seq<RegisteredHook>, stage: Stage, pid: int, idx: seq<nat>) {
    forall i: nat :: i < |hooks| && hooks[i].stage == stage ==> i in idx && hooks[i].fn(pid)
  }

  lemma NoneOfStage(hooks: seq<RegisteredHook>, stage: Stage)
    requires OfStage(hooks, stage) == []
    ensures CallsInOrder(hooks, stage, 0, [], []) && forall pid :: AllCalled(hooks, stage, pid, [])
  {
    OfStageEmpty(hooks, stage);
  }

  lemma {:induction false} CallsMadeIs(hooks: seq<RegisteredHook>, pid: int)
    ensures forall k :: 0 <= k < CallsMade(hooks, pid) - 1 ==> hooks[k].fn(pid)
    ensures (forall k :: 0 <= k < |hooks| ==> hooks[k].fn(pid)) ==> CallsMade(hooks, pid) == |hooks|
  {
    if hooks != [] {
      CallsMadeIs(hooks[1..], pid);
      assert forall k :: 0 < k < |hooks| ==> hooks[k] == hooks[1..][k - 1];
    }
  }

  /** A round calls the hooks of its stage in the order in which they were registered. */
  lemma CalledHooksInOrder(hooks: seq<RegisteredHook>, stage: Stage, pid: int) returns (idx: seq<nat>)
    ensures CallsInOrder(hooks, stage, pid, CalledHooks(hooks, stage, pid), idx)
    ensures (forall k :: 0 <= k < |OfStage(hooks, stage)| ==> OfStage(hooks, stage)[k].fn(pid)) ==>
      AllCalled(hooks, stage, pid, idx)
  {
    var all := OfStageInOrder(hooks, stage);
    var list := OfStage(hooks, stage);
    CallsMadeIs(list, pid);
    idx := all[..CallsMade(list, pid)];
    FirstFew(hooks, stage, pid, list, all, CallsMade(list, pid));
    if forall k :: 0 <= k < |list| ==> list[k].fn(pid) {
      assert idx == all;
      AllOfThem(hooks, stage, pid, list, all);
    }
  }

  lemma FirstFew(hooks: seq<RegisteredHook>, stage: Stage, pid: int, list: seq<RegisteredHook>, all: seq<nat>, n: nat)
    requires StandAt(hooks, stage, list, all) && n <= |list|
    requires forall k :: 0 <= k < n - 1 ==> list[k].fn(pid)
    ensures CallsInOrder(hooks, stage, pid, list[..n], all[..n])
  {
    var idx := all[..n];
    forall i: nat | n > 0 && i < idx[n - 1] && hooks[i].stage == stage ensures i in idx {
      var k :| 0 <= k < |all| && all[k] == i;
      assert k < n;
      assert idx[k] == i;
    }
  }

  lemma AllOfThem(hooks: seq<RegisteredHook>, stage: Stage, pid: int, list: seq<RegisteredHook>, all: seq<nat>)
    requires StandAt(hooks, stage, list, all) && forall k :: 0 <= k < |list| ==> list[k].fn(pid)
    ensures AllCalled(hooks, stage, pid, all)
  {
    forall i: nat | i < |hooks| && hooks[i].stage == stage ensures i in all && hooks[i].fn(pid) {
      var k :| 0 <= k < |all| && all[k] == i;
      assert list[k] == hooks[i];
    }
  }

  // ---- the class ------------------------------------------------------------------------------

  datatype WaitOutcome = Proceed | Fail(error: HookError) | Blocked

  datatype RunOutcome = Returned(error: Option<HookError>) | WaitingFor(hook: RegisteredHook)

  class ExecuteHooks {
    var declarationToFulfilled: map<Declaration, bool>
    var hooks: seq<RegisteredHook>
    var closedOnce: bool

    /** How often `allFulfilled` has been closed. */
    ghost var closes: nat

    ghost function State(): HookState
      reads this
    {
      HookState(declarationToFulfilled, hooks, closes)
    }

    ghost predicate Valid()
      reads this
    {
      (closedOnce <==> closes > 0) && Consistent(State())
    }

    constructor ()
      ensures Valid() && State() == INITIAL
    {
      declarationToFulfilled, hooks, closedOnce, closes := map[], [], false, 0;
    }

    method Declare(attestor: string, stage: Stage) returns (error: Option<HookError>)
      requires Valid()
      modifies this
      ensures Valid() && State() == Declared(old(State()), Declaration(attestor, stage))
      ensures error == if Declaration(attestor, stage) in old(declarationToFulfilled)
                       then Some(AlreadyDeclared(Declaration(attestor, stage))) else None
    {
      var decl := Declaration(attestor, stage);
      if decl in declarationToFulfilled {
        return Some(AlreadyDeclared(decl));
      }
      DeclareKeeps(State(), decl);
      declarationToFulfilled := declarationToFulfilled[decl := false];
      return None;
    }

    method RegisterHook(stage: Stage, name: string, fn: int -> bool) returns (error: Option<HookError>)
      requires Valid()
      modifies this
      ensures Valid() && State() == Registered(old(State()), RegisteredHook(name, stage, fn))
      ensures error.None? <==> MayRegister(old(State()), Declaration(name, stage))
      ensures hooks == if error.None? then old(hooks) + [RegisteredHook(name, stage, fn)] else old(hooks)
      ensures Declaration(name, stage) !in old(declarationToFulfilled) ==>
        error == Some(NotDeclared(Declaration(name, stage)))
      ensures Declaration(name, stage) in old(declarationToFulfilled) && error.Some? ==>
        error == Some(AlreadyRegistered(Declaration(name, stage)))
    {
      var decl := Declaration(name, stage);
      if decl !in declarationToFulfilled {
        return Some(NotDeclared(decl));
      } else if declarationToFulfilled[decl] {
        return Some(AlreadyRegistered(decl));
      }
      RegisterKeeps(State(), RegisteredHook(name, stage, fn));
      hooks := hooks + [RegisteredHook(name, stage, fn)];
      declarationToFulfilled := declarationToFulfilled[decl := true];
      var all := CheckAllFulfilled();
      if all && !closedOnce {
        closedOnce, closes := true, closes + 1;
      }
      return None;
    }

    method CheckAllFulfilled() returns (all: bool)
      ensures all <==> AllFulfilled(declarationToFulfilled)
    {
      var rest := declarationToFulfilled.Keys;
      while rest != {}
        invariant rest <= declarationToFulfilled.Keys
        invariant forall d :: d in declarationToFulfilled && d !in rest ==> declarationToFulfilled[d]
        decreases rest
      {
        var d :| d in rest;
        rest := rest - {d};
        if !declarationToFulfilled[d] {
          return false;
        }
      }
      return true;
    }

    /**
     * What `WaitForDeclaredHooks` does at a moment when the timer has or has not fired. When both the channel and the
     * timer are ready, `select` may take either.
     */
    method WaitForDeclaredHooks(fired: bool) returns (outcome: WaitOutcome)
      requires Valid()
      ensures declarationToFulfilled == map[] ==> outcome == Proceed
      ensures declarationToFulfilled != map[] ==>
        && (outcome.Proceed? ==> closes > 0)
        && (outcome.Blocked? <==> closes == 0 && !fired)
        && (outcome.Fail? ==> fired && outcome.error.TimedOut? && NamesMissing(State(), outcome.error.missing))
    {
      if |declarationToFulfilled| == 0 {
        return Proceed;
      }
      var preferTimer := *;
      if closedOnce && (!fired || !preferTimer) {
        return Proceed;
      }
      if fired {
        return Fail(TimedOut(set d | d in declarationToFulfilled && !declarationToFulfilled[d]));
      }
      return Blocked;
    }

    /**
     * `RunHooks`, given which of the hooks have signalled that they are ready. `idx` says which of the registered hooks
     * are called, in order.
     */
    method RunHooks(stage: Stage, pid: int, ready: RegisteredHook -> bool)
      returns (outcome: RunOutcome, calls: seq<RegisteredHook>, ghost idx: seq<nat>)
      ensures CallsInOrder(hooks, stage, pid, calls, idx)
      ensures outcome == Returned(None) ==> AllCalled(hooks, stage, pid, idx)
      ensures
        var stageHooks := OfStage(hooks, stage);
        if exists i :: 0 <= i < |stageHooks| && !ready(stageHooks[i])
        then calls == [] && outcome.WaitingFor? && outcome.hook in stageHooks && !ready(outcome.hook)
        else
          && calls == CalledHooks(hooks, stage, pid)
          && (outcome == Returned(None) <==> forall i :: 0 <= i < |stageHooks| ==> stageHooks[i].fn(pid))
          && outcome.Returned?
          && (outcome.error.Some? ==>
                calls != [] && outcome.error.value == HookFailed(calls[|calls| - 1].attestor, stage))
    {
      var stageHooks := Select(stage);
      if |stageHooks| == 0 {
        calls, idx := [], [];
        NoneOfStage(hooks, stage);
        return Returned(None), calls, idx;
      }
      for i := 0 to |stageHooks|
        invariant forall k :: 0 <= k < i ==> ready(stageHooks[k])
      {
        if !ready(stageHooks[i]) {
          return WaitingFor(stageHooks[i]), [], [];
        }
      }
      var error;
      error, calls := CallAll(stage, stageHooks, pid);
      idx := CalledHooksInOrder(hooks, stage, pid);
      return Returned(error), calls, idx;
    }

    /** The second loop: every hook is called, up to the first that fails. */
    static method CallAll(stage: Stage, stageHooks: seq<RegisteredHook>, pid: int)
      returns (error: Option<HookError>, calls: seq<RegisteredHook>)
      ensures calls == stageHooks[..CallsMade(stageHooks, pid)]
      ensures error.None? <==> forall i :: 0 <= i < |stageHooks| ==> stageHooks[i].fn(pid)
      ensures error.Some? ==> calls != [] && error.value == HookFailed(calls[|calls| - 1].attestor, stage)
    {
      calls := [];
      for i := 0 to |stageHooks|
        invariant calls == stageHooks[..i]
        invariant forall k :: 0 <= k < i ==> stageHooks[k].fn(pid)
      {
        calls := calls + [stageHooks[i]];
        if !stageHooks[i].fn(pid) {
          FirstFailure(stageHooks, pid, i);
          return Some(HookFailed(stageHooks[i].attestor, stage)), calls;
        }
      }
      NoFailure(stageHooks, pid);
      return None, calls;
    }

    method Select(stage: Stage) returns (stageHooks: seq<RegisteredHook>)
      ensures stageHooks == OfStage(hooks, stage)
    {
      stageHooks := [];
      for i := 0 to |hooks|
        invariant stageHooks == OfStage(hooks[..i], stage)
      {
        assert hooks[..i + 1][..i] == hooks[..i];
        if hooks[i].stage == stage {
          stageHooks := stageHooks + [hooks[i]];
        }
      }
      assert hooks[..|hooks|] == hooks;
    }

    method HasHooks(stage: Stage) returns (has: bool)
      ensures has <==> OfStage(hooks, stage) != []
    {
      OfStageEmpty(hooks, stage);
      for i := 0 to |hooks|
        invariant forall k :: 0 <= k < i ==> hooks[k].stage != stage
      {
        if hooks[i].stage == stage {
          return true;
        }
      }
      return false;
    }
  }

  lemma {:induction false} FirstFailure(hooks: seq<RegisteredHook>, pid: int, i: nat)
    requires i < |hooks| && !hooks[i].fn(pid) && forall k :: 0 <= k < i ==> hooks[k].fn(pid)
    ensures CallsMade(hooks, pid) == i + 1
  {
    if i > 0 {
      FirstFailure(hooks[1..], pid, i - 1);
    }
  }

  lemma {:induction false} NoFailure(hooks: seq<RegisteredHook>, pid: int)
    requires forall k :: 0 <= k < |hooks| ==> hooks[k].fn(pid)
    ensures CallsMade(hooks, pid) == |hooks|
  {
    if hooks != [] {
      NoFailure(hooks[1..], pid);
    }
  }

  lemma {:induction false} OfStageEmpty(hooks: seq<RegisteredHook>, stage: Stage)
    ensures OfStage(hooks, stage) == [] <==> forall k :: 0 <= k < |hooks| ==> hooks[k].stage != stage
  {
    if hooks != [] {
      OfStageEmpty(hooks[..|hooks| - 1], stage);
    }
  }

  lemma {:induction false} OfStageMembers(hooks: seq<RegisteredHook>, stage: Stage)
    ensures forall h :: h in OfStage(hooks, stage) <==> h in hooks && h.stage == stage
  {
    if hooks != [] {
      var front, last := hooks[..|hooks| - 1], hooks[|hooks| - 1];
      OfStageMembers(front, stage);
      assert forall h :: h in hooks <==> h in front || h == last;
    }
  }

  // ---- what every operation keeps -------------------------------------------------------------

  /** Each declaration is fulfilled exactly when a hook for it is registered, and no declaration has two hooks. */
  ghost predicate Consistent(s: HookState) {
    && s.closes <= 1
    && (forall d :: d in s.declarationToFulfilled ==> (s.declarationToFulfilled[d] <==> Registers(s, d)))
    && (forall i :: 0 <= i < |s.hooks| ==> DeclOf(s.hooks[i]) in s.declarationToFulfilled)
    && (forall i, j :: 0 <= i < j < |s.hooks| ==> DeclOf(s.hooks[i]) != DeclOf(s.hooks[j]))
  }

  /** The channel has been closed exactly when something is declared and all of it is registered. */
  ghost predicate Exact(s: HookState) {
    s.closes == 1 <==> Complete(s)
  }

  lemma DeclareKeeps(s: HookState, d: Declaration)
    requires Consistent(s)
    ensures Consistent(Declared(s, d))
  {
    var t := Declared(s, d);
    forall e | e in t.declarationToFulfilled ensures t.declarationToFulfilled[e] <==> Registers(t, e) {
      assert Registers(t, e) <==> Registers(s, e);
    }
  }

  lemma RegisterKeeps(s: HookState, h: RegisteredHook)
    requires Consistent(s)
    ensures Consistent(Registered(s, h))
  {
    var t, d := Registered(s, h), DeclOf(h);
    if MayRegister(s, d) {
      forall e | e in t.declarationToFulfilled ensures t.declarationToFulfilled[e] <==> Registers(t, e) {
        if Registers(s, e) {
          var i :| 0 <= i < |s.hooks| && DeclOf(s.hooks[i]) == e;
          assert DeclOf(t.hooks[i]) == e;
        }
        if e == d {
          assert DeclOf(t.hooks[|s.hooks|]) == e;
        } else if Registers(t, e) {
          var i :| 0 <= i < |t.hooks| && DeclOf(t.hooks[i]) == e;
          assert DeclOf(s.hooks[i]) == e;
        }
      }
      forall i | 0 <= i < |s.hooks| ensures DeclOf(s.hooks[i]) != d {
        assert DeclOf(s.hooks[i]) == d ==> Registers(s, d);
      }
    }
  }

  /** Registering keeps the announcement exact. */
  lemma RegisterKeepsExact(s: HookState, h: RegisteredHook)
    requires Exact(s) && s.closes <= 1
    ensures Exact(Registered(s, h))
  {
    if MayRegister(s, DeclOf(h)) {
      assert !s.declarationToFulfilled[DeclOf(h)];
      var m := s.declarationToFulfilled[DeclOf(h) := true];
      assert DeclOf(h) in m;
    }
  }

  /** Declaring keeps it exact if and only if it is refused or comes before the channel is closed. */
  lemma DeclareKeepsExactIff(s: HookState, d: Declaration)
    requires Exact(s) && s.closes <= 1
    ensures Exact(Declared(s, d)) <==> d in s.declarationToFulfilled || s.closes == 0
  {
    if d !in s.declarationToFulfilled {
      var t := Declared(s, d);
      assert d in t.declarationToFulfilled && !t.declarationToFulfilled[d];
    }
  }
}
