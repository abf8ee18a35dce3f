// The hook protocol between the command runner and the attestors that register hooks, as a transition system over all
// interleavings (attestation/commandrun/commandrun.go, attestation/commandrun/tracing_linux.go,
// attestation/networktrace/networktrace.go).
module HookProtocol {
  import opened Hooks

  datatype Call = Call(hook: RegisteredHook, wasReady: bool, ok: bool)

  /** Where the goroutine of the command runner is. */
  datatype Phase =
    | Waiting                                                      // in WaitForDeclaredHooks
    | Waited                                                       // it returned nil
    | CountedPreExec                                               // hasPreExec is computed
    | CountedBoth                                                  // hasPreExit too
    | FirstStop                                                    // the command is started and frozen
    | Awaiting(stage: Stage, list: seq<RegisteredHook>, k: nat)    // in RunHooks, receiving from the ready channels
    | Calling(stage: Stage, list: seq<RegisteredHook>, k: nat)     // in RunHooks, calling the hooks
    | Running                                                      // the command has been let go
    | Leaving                                                      // the PreExit hooks are over
    | Ended
    | Failed

  datatype Protocol = Protocol(
    hooks: HookState,
    ready: set<Declaration>,
    phase: Phase,
    hasPreExec: bool,
    hasPreExit: bool,
    resumed: bool,                 // some instruction of the command may have run
    preExecCalls: seq<Call>,
    preExitCalls: seq<Call>)

  datatype Config = Config(tracing: bool, pid: int)

  datatype Step =
    | Register(hook: RegisteredHook)      // taken by any attestor, at any time
    | MarkReady(decl: Declaration)        // it closes the channel it was given
    | WaitReturns
    | WaitTimesOut
    | CountPreExec
    | CountPreExit
    | Start
    | StartFails
    | Collect(stage: Stage)               // RunHooks copies the hooks of the stage
    | AwaitOne
    | BeginCalls
    | CallOne
    | Resume
    | PtraceFails
    | LeaveExitStop
    | Finish

  predicate ByRunner(step: Step) {
    !step.Register? && !step.MarkReady?
  }

  ghost predicate Enabled(c: Config, s: Protocol, step: Step) {
    match step
    case Register(_) => true
    case MarkReady(d) => Registers(s.hooks, d)
    case WaitReturns => s.phase == Waiting && (s.hooks.declarationToFulfilled == map[] || s.hooks.closes > 0)
    case WaitTimesOut => s.phase == Waiting && s.hooks.declarationToFulfilled != map[]
    case CountPreExec => s.phase == Waited
    case CountPreExit => s.phase == CountedPreExec
    case Start => s.phase == CountedBoth
    case StartFails => s.phase == CountedBoth
    case Collect(stage) =>
      if stage.PreExec? then s.phase == FirstStop && s.hasPreExec && !s.resumed
      else s.phase == Running && s.hasPreExit
    case AwaitOne => s.phase.Awaiting? && s.phase.k < |s.phase.list| && DeclOf(s.phase.list[s.phase.k]) in s.ready
    case BeginCalls => s.phase.Awaiting? && s.phase.k >= |s.phase.list|
    case CallOne => s.phase.Calling? && s.phase.k < |s.phase.list|
    case Resume =>
      || (s.phase == FirstStop && !s.hasPreExec)
      || (s.phase.Calling? && s.phase.stage.PreExec? && s.phase.k >= |s.phase.list|)
    case PtraceFails => s.phase in {FirstStop, Running, Leaving}
    case LeaveExitStop => s.phase.Calling? && s.phase.stage.PreExit? && s.phase.k >= |s.phase.list|
    case Finish => s.phase == Running || s.phase == Leaving
  }

  /** A call is logged, and a failure ends the run for a PreExec hook but only the hook round for a PreExit one. */
  ghost function AfterCall(c: Config, s: Protocol): Protocol
    requires s.phase.Calling? && s.phase.k < |s.phase.list|
  {
    var hook := s.phase.list[s.phase.k];
    var call := Call(hook, DeclOf(hook) in s.ready, hook.fn(c.pid));
    match s.phase.stage
    case PreExec => s.(preExecCalls := s.preExecCalls + [call],
                       phase := if call.ok then Calling(PreExec, s.phase.list, s.phase.k + 1) else Failed)
    case PreExit => s.(preExitCalls := s.preExitCalls + [call],
                       phase := if call.ok then Calling(PreExit, s.phase.list, s.phase.k + 1) else Leaving)
  }

  ghost function Apply(c: Config, s: Protocol, step: Step): Protocol
    requires Enabled(c, s, step)
  {
    match step
    case Register(hook) => s.(hooks := Registered(s.hooks, hook))
    case MarkReady(d) => s.(ready := s.ready + {d})
    case WaitReturns => s.(phase := Waited)
    case WaitTimesOut => s.(phase := Failed)
    case CountPreExec => s.(phase := CountedPreExec, hasPreExec := OfStage(s.hooks.hooks, PreExec) != [])
    case CountPreExit => s.(phase := CountedBoth, hasPreExit := OfStage(s.hooks.hooks, PreExit) != [])
    case Start =>
      if c.tracing || s.hasPreExec || s.hasPreExit then s.(phase := FirstStop) else s.(phase := Running, resumed := true)
    case StartFails => s.(phase := Failed)
    case Collect(stage) => s.(phase := Awaiting(stage, OfStage(s.hooks.hooks, stage), 0))
    case AwaitOne => s.(phase := Awaiting(s.phase.stage, s.phase.list, s.phase.k + 1))
    case BeginCalls => s.(phase := Calling(s.phase.stage, s.phase.list, 0))
    case CallOne => AfterCall(c, s)
    case Resume => s.(phase := Running, resumed := true)
    case PtraceFails => s.(phase := Failed)
    case LeaveExitStop => s.(phase := Leaving)
    case Finish => s.(phase := Ended)
  }

  /** Every hook is declared before any attestor runs. */
  ghost predicate Initial(s: Protocol) {
    && s == Protocol(s.hooks, {}, Waiting, false, false, false, [], [])
    && s.hooks.hooks == [] && s.hooks.closes == 0
    && (forall d :: d in s.hooks.declarationToFulfilled ==> !s.hooks.declarationToFulfilled[d])
  }

  /** The states a schedule of steps leads through; the schedule interleaves the goroutines in any way. */
  ghost predicate IsExecution(c: Config, states: seq<Protocol>, steps: seq<Step>) {
    && |states| == |steps| + 1 && Initial(states[0])
    && (forall i :: 0 <= i < |steps| ==> Moves(c, states, steps, i))
  }

  ghost predicate Moves(c: Config, states: seq<Protocol>, steps: seq<Step>, i: nat)
    requires i < |steps| < |states|
  {
    Enabled(c, states[i], steps[i]) && states[i + 1] == Apply(c, states[i], steps[i])
  }

  // ---- the invariant --------------------------------------------------------------------------

  /** The first `k` hooks of the list have been called, in order, each one ready and each one successful. */
  ghost predicate CalledInOrder(calls: seq<Call>, list: seq<RegisteredHook>, k: nat) {
    && k <= |list| && |calls| == k
    && (forall i :: 0 <= i < k ==> calls[i] == Call(list[i], true, true))
  }

  ghost predicate ReadyUpTo(ready: set<Declaration>, list: seq<RegisteredHook>, k: nat) {
    k <= |list| && forall i :: 0 <= i < k ==> DeclOf(list[i]) in ready
  }

  function PreExecHooks(s: Protocol): seq<RegisteredHook> {
    OfStage(s.hooks.hooks, PreExec)
  }

  ghost predicate RegistrationOk(s: Protocol) {
    Consistent(s.hooks) && Exact(s.hooks)
  }

  /** Past the wait, everything declared is registered, so no further registration can succeed. */
  ghost predicate WaitOk(s: Protocol) {
    !s.phase.Waiting? && !s.phase.Failed? ==> AllFulfilled(s.hooks.declarationToFulfilled)
  }

  ghost predicate FlagsOk(s: Protocol) {
    && (s.phase.Waiting? || s.phase.Waited? || s.phase.Failed? || (s.hasPreExec <==> PreExecHooks(s) != []))
    && (s.phase.Waiting? || s.phase.Waited? || s.phase.CountedPreExec? || s.phase.Failed? ||
        (s.hasPreExit <==> OfStage(s.hooks.hooks, PreExit) != []))
  }

  ghost predicate PhaseOk(s: Protocol) {
    match s.phase
    case Awaiting(stage, list, k) =>
      && list == OfStage(s.hooks.hooks, stage) && ReadyUpTo(s.ready, list, k)
      && (if stage.PreExec? then s.hasPreExec && !s.resumed && s.preExecCalls == [] else s.resumed)
    case Calling(stage, list, k) =>
      && list == OfStage(s.hooks.hooks, stage) && ReadyUpTo(s.ready, list, |list|) && k <= |list|
      && (if stage.PreExec? then s.hasPreExec && !s.resumed && CalledInOrder(s.preExecCalls, list, k) else s.resumed)
    case Running => s.resumed
    case Leaving => s.resumed
    case Ended => s.resumed
    case Failed => true
    case _ => !s.resumed && s.preExecCalls == []
  }

  /** Once the command may have run, every PreExec hook has been called, in registration order, ready and successful. */
  ghost predicate ResumeOk(s: Protocol) {
    s.resumed ==>
      && AllFulfilled(s.hooks.declarationToFulfilled)
      && CalledInOrder(s.preExecCalls, PreExecHooks(s), |PreExecHooks(s)|)
  }

  ghost predicate Inv(s: Protocol) {
    RegistrationOk(s) && WaitOk(s) && FlagsOk(s) && PhaseOk(s) && ResumeOk(s)
  }

  /** The steps up to the first stop of the command. */
  predicate BeforeStop(step: Step) {
    step.WaitReturns? || step.WaitTimesOut? || step.CountPreExec? || step.CountPreExit? || step.Start? || step.StartFails?
  }

  /** The steps of a round of hooks that call none. */
  predicate OfRounds(step: Step) {
    step.MarkReady? || step.Collect? || step.AwaitOne? || step.BeginCalls?
  }

  predicate AfterHooks(step: Step) {
    step.Resume? || step.PtraceFails? || step.LeaveExitStop? || step.Finish?
  }

  lemma RegisterPreserves(c: Config, s: Protocol, hook: RegisteredHook)
    requires Inv(s)
    ensures Inv(Apply(c, s, Register(hook)))
  {
    RegisterKeeps(s.hooks, hook);
    RegisterKeepsExact(s.hooks, hook);
    if AllFulfilled(s.hooks.declarationToFulfilled) {
      assert !MayRegister(s.hooks, DeclOf(hook));
      assert Apply(c, s, Register(hook)) == s;
    }
  }

  lemma CallPreserves(c: Config, s: Protocol)
    requires Inv(s) && Enabled(c, s, CallOne)
    ensures Inv(Apply(c, s, CallOne))
  {
    var list, k := s.phase.list, s.phase.k;
    assert DeclOf(list[k]) in s.ready;
  }

  lemma WaitPreserves(c: Config, s: Protocol, step: Step)
    requires Inv(s) && Enabled(c, s, step)
    requires BeforeStop(step)
    ensures Inv(Apply(c, s, step))
  {
    if step == WaitReturns {
      assert AllFulfilled(s.hooks.declarationToFulfilled);
    }
  }

  lemma HooksPreserve(c: Config, s: Protocol, step: Step)
    requires Inv(s) && Enabled(c, s, step)
    requires OfRounds(step)
    ensures Inv(Apply(c, s, step))
  {
  }

  lemma RestPreserves(c: Config, s: Protocol, step: Step)
    requires Inv(s) && Enabled(c, s, step)
    requires AfterHooks(step)
    ensures Inv(Apply(c, s, step))
  {
  }

  lemma StepPreserves(c: Config, s: Protocol, step: Step)
    requires Inv(s) && Enabled(c, s, step)
    ensures Inv(Apply(c, s, step))
  {
    if step.Register? {
      RegisterPreserves(c, s, step.hook);
    } else if step.CallOne? {
      CallPreserves(c, s);
    } else if BeforeStop(step) {
      WaitPreserves(c, s, step);
    } else if AfterHooks(step) {
      RestPreserves(c, s, step);
    } else {
      HooksPreserve(c, s, step);
    }
  }

  lemma StepKeepsDeclared(c: Config, s: Protocol, step: Step)
    requires Enabled(c, s, step)
    ensures Apply(c, s, step).hooks.declarationToFulfilled.Keys == s.hooks.declarationToFulfilled.Keys
  {
    if step.Register? {
      assert Registered(s.hooks, step.hook).declarationToFulfilled.Keys == s.hooks.declarationToFulfilled.Keys;
    } else {
      assert Apply(c, s, step).hooks == s.hooks;
    }
  }

  lemma MovePreserves(c: Config, states: seq<Protocol>, steps: seq<Step>, i: nat)
    requires i < |steps| < |states| && Moves(c, states, steps, i) && Inv(states[i])
    ensures Inv(states[i + 1])
    ensures states[i + 1].hooks.declarationToFulfilled.Keys == states[i].hooks.declarationToFulfilled.Keys
  {
    StepPreserves(c, states[i], steps[i]);
    StepKeepsDeclared(c, states[i], steps[i]);
  }

  lemma Invariant(c: Config, states: seq<Protocol>, steps: seq<Step>, i: nat)
    requires IsExecution(c, states, steps) && i < |states|
    ensures Inv(states[i])
    ensures states[i].hooks.declarationToFulfilled.Keys == states[0].hooks.declarationToFulfilled.Keys
  {
    for j := 0 to i
      invariant Inv(states[j])
      invariant states[j].hooks.declarationToFulfilled.Keys == states[0].hooks.declarationToFulfilled.Keys
    {
      MovePreserves(c, states, steps, j);
    }
  }

  // ---- rounds of hooks ------------------------------------------------------------------------

  function CallsOf(s: Protocol, stage: Stage): seq<Call> {
    match stage
    case PreExec => s.preExecCalls
    case PreExit => s.preExitCalls
  }

  function HooksOf(calls: seq<Call>): seq<RegisteredHook> {
    seq(|calls|, i requires 0 <= i < |calls| => calls[i].hook)
  }

  predicate InRound(s: Protocol, stage: Stage) {
    (s.phase.Awaiting? || s.phase.Calling?) && s.phase.stage == stage
  }

  /** Within a round as many hooks have been called as the runner has got to. */
  ghost predicate Partly(c: Config, s: Protocol, stage: Stage)
    requires InRound(s, stage)
  {
    CalledUpTo(c, CallsOf(s, stage), s.phase.list, if s.phase.Calling? then s.phase.k else 0)
  }

  /** The first `k` hooks of the list have been called, and all of them succeeded. */
  ghost predicate CalledUpTo(c: Config, calls: seq<Call>, list: seq<RegisteredHook>, k: nat) {
    && k <= |list| && HooksOf(calls) == list[..k]
    && (forall i :: 0 <= i < k ==> list[i].fn(c.pid))
  }

  /** A round has called what `RunHooks` calls. */
  ghost predicate Wholly(c: Config, s: Protocol, stage: Stage) {
    HooksOf(CallsOf(s, stage)) == CalledHooks(s.hooks.hooks, stage, c.pid)
  }

  ghost predicate RoundOk(c: Config, s: Protocol, stage: Stage) {
    if InRound(s, stage) then Partly(c, s, stage)
    else CallsOf(s, stage) == [] || (AllFulfilled(s.hooks.declarationToFulfilled) && Wholly(c, s, stage))
  }

  /** Before its round a stage has made no calls, and after it the round is whole. */
  ghost predicate TimingOk(c: Config, s: Protocol, stage: Stage) {
    && (stage.PreExit? && (!s.resumed || s.phase == Running) ==> CallsOf(s, stage) == [])
    && (stage.PreExec? && s.phase == FirstStop ==> CallsOf(s, stage) == [])
    && (stage.PreExit? && s.phase == Leaving ==> AllFulfilled(s.hooks.declarationToFulfilled) && Wholly(c, s, stage))
  }

  lemma CallsGrow(calls: seq<Call>, call: Call)
    ensures HooksOf(calls + [call]) == HooksOf(calls) + [call.hook]
  {
  }

  lemma CallKeepsRound(c: Config, s: Protocol)
    requires Inv(s) && Enabled(c, s, CallOne) && RoundOk(c, s, s.phase.stage)
    ensures RoundOk(c, AfterCall(c, s), s.phase.stage)
    ensures s.phase.stage.PreExit? && AfterCall(c, s).phase == Leaving ==> Wholly(c, AfterCall(c, s), PreExit)
  {
    var list, k, stage := s.phase.list, s.phase.k, s.phase.stage;
    var call := Call(list[k], DeclOf(list[k]) in s.ready, list[k].fn(c.pid));
    assert CallsOf(AfterCall(c, s), stage) == CallsOf(s, stage) + [call];
    CallsGrow(CallsOf(s, stage), call);
    assert list[..k + 1] == list[..k] + [list[k]];
    if !call.ok {
      FirstFailure(list, c.pid, k);
    }
  }

  lemma EndOfRound(c: Config, s: Protocol, stage: Stage)
    requires Inv(s) && s.phase.Calling? && s.phase.stage == stage && s.phase.k >= |s.phase.list| && RoundOk(c, s, stage)
    ensures Wholly(c, s, stage)
  {
    NoFailure(s.phase.list, c.pid);
  }

  lemma RegisterKeepsRound(c: Config, s: Protocol, hook: RegisteredHook, stage: Stage)
    requires Inv(s) && RoundOk(c, s, stage) && TimingOk(c, s, stage)
    ensures RoundOk(c, Apply(c, s, Register(hook)), stage) && TimingOk(c, Apply(c, s, Register(hook)), stage)
  {
    if AllFulfilled(s.hooks.declarationToFulfilled) {
      assert Apply(c, s, Register(hook)) == s;
    }
  }

  lemma PauseKeepsRound(c: Config, s: Protocol, step: Step, stage: Stage)
    requires Inv(s) && Enabled(c, s, step) && RoundOk(c, s, stage) && TimingOk(c, s, stage)
    requires BeforeStop(step)
    ensures RoundOk(c, Apply(c, s, step), stage) && TimingOk(c, Apply(c, s, step), stage)
  {
    assert Apply(c, s, step).hooks == s.hooks && !InRound(s, stage) && !InRound(Apply(c, s, step), stage);
    assert CallsOf(Apply(c, s, step), stage) == CallsOf(s, stage);
  }

  lemma EndKeepsRound(c: Config, s: Protocol, step: Step, stage: Stage)
    requires Inv(s) && Enabled(c, s, step) && RoundOk(c, s, stage) && TimingOk(c, s, stage)
    requires step.PtraceFails? || step.Finish?
    ensures RoundOk(c, Apply(c, s, step), stage) && TimingOk(c, Apply(c, s, step), stage)
  {
    assert Apply(c, s, step).hooks == s.hooks && !InRound(s, stage) && !InRound(Apply(c, s, step), stage);
    assert CallsOf(Apply(c, s, step), stage) == CallsOf(s, stage);
  }

  lemma AwaitingKeepsRound(c: Config, s: Protocol, step: Step, stage: Stage)
    requires Inv(s) && Enabled(c, s, step) && RoundOk(c, s, stage) && TimingOk(c, s, stage)
    requires OfRounds(step)
    ensures RoundOk(c, Apply(c, s, step), stage) && TimingOk(c, Apply(c, s, step), stage)
  {
    assert CallsOf(Apply(c, s, step), stage) == CallsOf(s, stage);
  }

  lemma CallingKeepsRound(c: Config, s: Protocol, stage: Stage)
    requires Inv(s) && Enabled(c, s, CallOne) && RoundOk(c, s, stage) && TimingOk(c, s, stage)
    ensures RoundOk(c, Apply(c, s, CallOne), stage) && TimingOk(c, Apply(c, s, CallOne), stage)
  {
    if s.phase.stage == stage {
      CallKeepsRound(c, s);
    } else {
      assert CallsOf(AfterCall(c, s), stage) == CallsOf(s, stage);
    }
  }

  lemma LeavingKeepsRound(c: Config, s: Protocol, step: Step, stage: Stage)
    requires Inv(s) && Enabled(c, s, step) && RoundOk(c, s, stage) && TimingOk(c, s, stage)
    requires step.Resume? || step.LeaveExitStop?
    ensures RoundOk(c, Apply(c, s, step), stage) && TimingOk(c, Apply(c, s, step), stage)
  {
    if InRound(s, stage) {
      EndOfRound(c, s, stage);
    }
  }

  lemma StepKeepsRound(c: Config, s: Protocol, step: Step, stage: Stage)
    requires Inv(s) && Enabled(c, s, step) && RoundOk(c, s, stage) && TimingOk(c, s, stage)
    ensures RoundOk(c, Apply(c, s, step), stage) && TimingOk(c, Apply(c, s, step), stage)
  {
    if step.Register? {
      RegisterKeepsRound(c, s, step.hook, stage);
    } else if step.CallOne? {
      CallingKeepsRound(c, s, stage);
    } else if step.Resume? || step.LeaveExitStop? {
      LeavingKeepsRound(c, s, step, stage);
    } else if OfRounds(step) {
      AwaitingKeepsRound(c, s, step, stage);
    } else if BeforeStop(step) {
      PauseKeepsRound(c, s, step, stage);
    } else {
      EndKeepsRound(c, s, step, stage);
    }
  }

  lemma MoveKeepsRounds(c: Config, states: seq<Protocol>, steps: seq<Step>, i: nat, stage: Stage)
    requires IsExecution(c, states, steps) && i < |steps|
    requires RoundOk(c, states[i], stage) && TimingOk(c, states[i], stage)
    ensures RoundOk(c, states[i + 1], stage) && TimingOk(c, states[i + 1], stage)
  {
    Invariant(c, states, steps, i);
    assert Moves(c, states, steps, i);
    StepKeepsRound(c, states[i], steps[i], stage);
  }

  lemma {:induction false} PrefixOfRound(list: seq<RegisteredHook>, pid: int, k: nat)
    requires k <= |list| && forall i :: 0 <= i < k ==> list[i].fn(pid)
    ensures k <= CallsMade(list, pid)
  {
    if k > 0 {
      PrefixOfRound(list[1..], pid, k - 1);
    }
  }

  /**
   * In every interleaving the calls of a stage are what `RunHooks` makes: outside its round none or all of them, and the
   * first few within it.
   */
  lemma RoundsFollowRunHooks(c: Config, states: seq<Protocol>, steps: seq<Step>, i: nat, stage: Stage)
    requires IsExecution(c, states, steps) && i < |states|
    ensures HooksOf(CallsOf(states[i], stage)) <= CalledHooks(states[i].hooks.hooks, stage, c.pid)
    ensures CallsOf(states[i], stage) != [] && !InRound(states[i], stage) ==> Wholly(c, states[i], stage)
    ensures states[i].resumed && stage.PreExec? ==> Wholly(c, states[i], stage)
    ensures states[i].phase == Leaving && stage.PreExit? ==> Wholly(c, states[i], stage)
  {
    for j := 0 to i
      invariant RoundOk(c, states[j], stage) && TimingOk(c, states[j], stage)
    {
      MoveKeepsRounds(c, states, steps, j, stage);
    }
    var s := states[i];
    Invariant(c, states, steps, i);
    if InRound(s, stage) {
      PrefixOfRound(s.phase.list, c.pid, if s.phase.Calling? then s.phase.k else 0);
    }
  }

  // ---- what the protocol guarantees -----------------------------------------------------------

  /** The one call of the hook declared as `d`: made when the hook was ready, and successful. */
  ghost predicate CalledOnce(calls: seq<Call>, d: Declaration, i: nat) {
    && i < |calls| && DeclOf(calls[i].hook) == d && calls[i].wasReady && calls[i].ok
    && (forall j :: 0 <= j < |calls| && DeclOf(calls[j].hook) == d ==> j == i)
  }

  lemma {:induction false} StageHooksDistinct(hooks: seq<RegisteredHook>, stage: Stage)
    requires forall i, j :: 0 <= i < j < |hooks| ==> DeclOf(hooks[i]) != DeclOf(hooks[j])
    ensures forall i, j :: 0 <= i < j < |OfStage(hooks, stage)| ==>
      DeclOf(OfStage(hooks, stage)[i]) != DeclOf(OfStage(hooks, stage)[j])
  {
    if hooks != [] {
      var front, last := hooks[..|hooks| - 1], hooks[|hooks| - 1];
      StageHooksDistinct(front, stage);
      OfStageMembers(front, stage);
      forall i | 0 <= i < |OfStage(front, stage)| ensures DeclOf(OfStage(front, stage)[i]) != DeclOf(last) {
        assert OfStage(front, stage)[i] in front;
      }
    }
  }

  lemma DeclaredIsCalled(s: Protocol, d: Declaration)
    requires Inv(s) && s.resumed && d in s.hooks.declarationToFulfilled && d.stage == PreExec
    ensures exists k: nat :: CalledOnce(s.preExecCalls, d, k)
  {
    var list := PreExecHooks(s);
    OfStageMembers(s.hooks.hooks, PreExec);
    StageHooksDistinct(s.hooks.hooks, PreExec);
    assert Registers(s.hooks, d);
    var h :| 0 <= h < |s.hooks.hooks| && DeclOf(s.hooks.hooks[h]) == d;
    assert s.hooks.hooks[h] in list;
    var k :| 0 <= k < |list| && list[k] == s.hooks.hooks[h];
    assert CalledOnce(s.preExecCalls, d, k);
  }

  /**
   * No interleaving lets an instruction of the command run before every PreExec hook that was declared has been
   * registered, has become ready, and has been called, exactly once, in registration order, with success.
   */
  lemma NeverResumedTooEarly(c: Config, states: seq<Protocol>, steps: seq<Step>, i: nat)
    requires IsExecution(c, states, steps) && i < |states| && states[i].resumed
    ensures forall d :: d in states[0].hooks.declarationToFulfilled && d.stage == PreExec ==>
      exists k: nat :: CalledOnce(states[i].preExecCalls, d, k)
    ensures |states[i].preExecCalls| == |PreExecHooks(states[i])|
    ensures forall k :: 0 <= k < |states[i].preExecCalls| ==>
      states[i].preExecCalls[k].hook == PreExecHooks(states[i])[k]
    ensures forall a: nat, b: nat :: BothPreExec(states[i], a, b) ==>
      CalledBefore(states[i].preExecCalls, states[i].hooks.hooks[a], states[i].hooks.hooks[b])
  {
    Invariant(c, states, steps, i);
    forall d | d in states[0].hooks.declarationToFulfilled && d.stage == PreExec
      ensures exists k: nat :: CalledOnce(states[i].preExecCalls, d, k)
    {
      assert d in states[i].hooks.declarationToFulfilled.Keys;
      DeclaredIsCalled(states[i], d);
    }
    forall a: nat, b: nat | BothPreExec(states[i], a, b)
      ensures CalledBefore(states[i].preExecCalls, states[i].hooks.hooks[a], states[i].hooks.hooks[b])
    {
      EarlierIsCalledFirst(states[i], a, b);
    }
  }

  // ---- in the order of registration -----------------------------------------------------------

  lemma HooksGrow(c: Config, states: seq<Protocol>, steps: seq<Step>, i: nat, j: nat)
    requires IsExecution(c, states, steps) && i <= j < |states|
    ensures states[i].hooks.hooks <= states[j].hooks.hooks
  {
    for k := i to j
      invariant states[i].hooks.hooks <= states[k].hooks.hooks
    {
      assert Moves(c, states, steps, k);
      StepGrows(c, states[k], steps[k]);
    }
  }

  lemma StepGrows(c: Config, s: Protocol, step: Step)
    requires Enabled(c, s, step)
    ensures s.hooks.hooks <= Apply(c, s, step).hooks.hooks
  {
  }

  /** In the calls made, the one of `first` comes before the one of `second`. */
  ghost predicate CalledBefore(calls: seq<Call>, first: RegisteredHook, second: RegisteredHook) {
    exists k, l :: 0 <= k < l < |calls| && calls[k].hook == first && calls[l].hook == second
  }

  /** Two PreExec hooks, the one registered as number `a` before the other. */
  ghost predicate BothPreExec(s: Protocol, a: nat, b: nat) {
    a < b < |s.hooks.hooks| && s.hooks.hooks[a].stage == PreExec && s.hooks.hooks[b].stage == PreExec
  }

  lemma EarlierIsCalledFirst(s: Protocol, a: nat, b: nat)
    requires Inv(s) && s.resumed && BothPreExec(s, a, b)
    ensures CalledBefore(s.preExecCalls, s.hooks.hooks[a], s.hooks.hooks[b])
  {
    var idx := OfStageInOrder(s.hooks.hooks, PreExec);
    assert a in idx && b in idx;
    var k :| 0 <= k < |idx| && idx[k] == a;
    var l :| 0 <= l < |idx| && idx[l] == b;
    assert s.preExecCalls[k].hook == s.hooks.hooks[a] && s.preExecCalls[l].hook == s.hooks.hooks[b];
  }

  /** Of two hooks, the one whose registration came first is called first, by the time the command may run. */
  lemma CalledAsRegistered(c: Config, states: seq<Protocol>, steps: seq<Step>, i: nat, x: nat, y: nat)
    requires IsExecution(c, states, steps) && x < y < i < |states| && states[i].resumed
    requires steps[x].Register? && steps[x].hook.stage == PreExec && MayRegister(states[x].hooks, DeclOf(steps[x].hook))
    requires steps[y].Register? && steps[y].hook.stage == PreExec && MayRegister(states[y].hooks, DeclOf(steps[y].hook))
    ensures CalledBefore(states[i].preExecCalls, steps[x].hook, steps[y].hook)
  {
    assert Moves(c, states, steps, x) && Moves(c, states, steps, y);
    HooksGrow(c, states, steps, x + 1, y);
    HooksGrow(c, states, steps, y + 1, i);
    Invariant(c, states, steps, i);
    var a, b := |states[x].hooks.hooks|, |states[y].hooks.hooks|;
    assert states[x + 1].hooks.hooks[a] == steps[x].hook && states[y + 1].hooks.hooks[b] == steps[y].hook;
    EarlierIsCalledFirst(states[i], a, b);
  }

  /** The channel is closed at most once, and exactly when something was declared and all of it is registered. */
  lemma ClosedOnceAndExactly(c: Config, states: seq<Protocol>, steps: seq<Step>, i: nat)
    requires IsExecution(c, states, steps) && i < |states|
    ensures states[i].hooks.closes <= 1
    ensures states[i].hooks.closes == 1 <==>
      && states[0].hooks.declarationToFulfilled.Keys != {}
      && (forall d :: d in states[0].hooks.declarationToFulfilled.Keys ==> Registers(states[i].hooks, d))
  {
    Invariant(c, states, steps, i);
    var s := states[i].hooks;
    assert s.declarationToFulfilled != map[] <==> s.declarationToFulfilled.Keys != {};
    assert forall d :: d in s.declarationToFulfilled.Keys ==> (s.declarationToFulfilled[d] <==> Registers(s, d));
  }

  /** After a wait that returned nil, `HasHooks` answers whether something was declared for the stage. */
  lemma WaitMakesFlagsFinal(c: Config, states: seq<Protocol>, steps: seq<Step>, i: nat, stage: Stage)
    requires IsExecution(c, states, steps) && i < |states| && states[i].phase != Waiting && states[i].phase != Failed
    ensures OfStage(states[i].hooks.hooks, stage) != [] <==>
      exists d :: d in states[0].hooks.declarationToFulfilled.Keys && d.stage == stage
  {
    Invariant(c, states, steps, i);
    RegisteredIffDeclared(states[i].hooks, stage);
    assert forall d :: d in states[i].hooks.declarationToFulfilled <==> d in states[i].hooks.declarationToFulfilled.Keys;
  }

  lemma RegisteredIffDeclared(s: HookState, stage: Stage)
    requires Consistent(s) && AllFulfilled(s.declarationToFulfilled)
    ensures OfStage(s.hooks, stage) != [] <==> exists d :: d in s.declarationToFulfilled && d.stage == stage
  {
    var list := OfStage(s.hooks, stage);
    OfStageMembers(s.hooks, stage);
    if list != [] {
      assert list[0] in s.hooks;
      assert DeclOf(list[0]) in s.declarationToFulfilled;
    }
    if d :| d in s.declarationToFulfilled && d.stage == stage {
      assert Registers(s, d);
      var h :| 0 <= h < |s.hooks| && DeclOf(s.hooks[h]) == d;
      assert s.hooks[h] in list;
    }
  }

  function SomeMove(c: Config, s: Protocol): Step {
    match s.phase
    case Waiting => if s.hooks.declarationToFulfilled == map[] then WaitReturns else WaitTimesOut
    case Waited => CountPreExec
    case CountedPreExec => CountPreExit
    case CountedBoth => StartFails
    case FirstStop => PtraceFails
    case Awaiting(_, list, k) => if k < |list| then AwaitOne else BeginCalls
    case Calling(stage, list, k) => if k < |list| then CallOne else if stage.PreExec? then Resume else LeaveExitStop
    case _ => Finish
  }

  ghost predicate RunnerCanMove(c: Config, s: Protocol) {
    exists step :: ByRunner(step) && Enabled(c, s, step)
  }

  /** The hook whose readiness the runner is waiting for has not become ready. */
  ghost predicate AwaitsUnready(s: Protocol) {
    s.phase.Awaiting? && s.phase.k < |s.phase.list| && DeclOf(s.phase.list[s.phase.k]) !in s.ready
  }

  /** Nothing but a registered hook that does not become ready ever keeps the runner from moving on: there is no timer. */
  lemma StuckIff(c: Config, states: seq<Protocol>, steps: seq<Step>, i: nat)
    requires IsExecution(c, states, steps) && i < |states| && states[i].phase != Ended && states[i].phase != Failed
    ensures !RunnerCanMove(c, states[i]) <==> AwaitsUnready(states[i])
  {
    if AwaitsUnready(states[i]) {
      forall step | ByRunner(step) ensures !Enabled(c, states[i], step) {
      }
    } else {
      Invariant(c, states, steps, i);
      assert ByRunner(SomeMove(c, states[i])) && Enabled(c, states[i], SomeMove(c, states[i]));
    }
  }
}
