// The loops over wait statuses that drive a traced command (attestation/commandrun/tracing_linux.go).
module Tracing {
  import opened Options

  const SIGTRAP: nat := 5
  const SYSCALL_TRAP: nat := 0x85   // SIGTRAP with the bit that PTRACE_O_TRACESYSGOOD sets
  const EVENT_EXIT: nat := 6

  /** `event` is the ptrace event in the high bits of the status, and `message` what PTRACE_GETEVENTMSG then answers. */
  datatype Status =
    | Exited(code: nat)
    | Signaled(sig: nat)
    | Stopped(sig: nat, event: nat, message: Option<nat>)
    | Other

  datatype WaitEvent = WaitEvent(pid: int, status: Status)

  /** What the tracer does: let the process go on with a signal, or run the PreExit hooks while it is frozen. */
  datatype Action = Go(pid: int, sig: nat) | RunPreExitHooks

  /** How a loop ended; None when waiting itself failed. */
  datatype Ending = Ending(exitCode: Option<nat>, actions: seq<Action>)

  // ---- specification --------------------------------------------------------------------------

  predicate PtraceStop(s: Status) {
    s.Stopped? && (s.sig == SYSCALL_TRAP || (s.sig == SIGTRAP && s.event != 0))
  }

  predicate ExitStop(s: Status) {
    s.Stopped? && s.sig == SIGTRAP && s.event == EVENT_EXIT
  }

  predicate Dead(s: Status) {
    s.Exited? || s.Signaled?
  }

  function DeathCode(s: Status): nat
    requires Dead(s)
  {
    if s.Exited? then s.code else 128 + s.sig
  }

  /** Signals meant for the process reach it; stops that only ptrace caused do not turn into signals. */
  function SignalFor(s: Status): nat {
    if s.Stopped? && !PtraceStop(s) then s.sig else 0
  }

  predicate RunsHooks(root: int, hasPreExit: bool, e: WaitEvent) {
    hasPreExit && e.pid == root && ExitStop(e.status)
  }

  function Traced(root: int, hasPreExit: bool, events: seq<WaitEvent>): seq<Action> {
    if events == [] then [] else
    var front, last := Traced(root, hasPreExit, events[..|events| - 1]), events[|events| - 1];
    (if RunsHooks(root, hasPreExit, last) then front + [RunPreExitHooks] else front) + [Go(last.pid, SignalFor(last.status))]
  }

  /** With only PTRACE_O_TRACEEXIT set: a status that is no stop is passed over. */
  function Continued(root: int, events: seq<Status>): seq<Action> {
    if events == [] then [] else
    var front, last := Continued(root, events[..|events| - 1]), events[|events| - 1];
    if last.Stopped? then front + [Go(root, if last.sig == SIGTRAP && last.event != 0 then 0 else last.sig)] else front
  }

  /** The status is the stop of the command's own exit, for which there are hooks. */
  ghost predicate CallsForHooks(root: int, hasPreExit: bool, e: WaitEvent) {
    && hasPreExit && e.pid == root
    && e.status.Stopped? && e.status.sig == SIGTRAP && e.status.event == EVENT_EXIT
  }

  /** The process goes on, with the signal it was sent unless the stop is of ptrace's making. */
  ghost predicate LetsGoOn(e: WaitEvent, a: Action) {
    a == Go(e.pid, if !e.status.Stopped? || e.status.sig == SYSCALL_TRAP || (e.status.sig == SIGTRAP && e.status.event != 0)
                   then 0 else e.status.sig)
  }

  /**
   * The actions answer the events one after the other, event `i` at `at[i]`: its process is let go on, and directly before
   * that the hooks run if the event calls for them. There are no other actions.
   */
  ghost predicate AnswersEach(root: int, hasPreExit: bool, events: seq<WaitEvent>, actions: seq<Action>, at: seq<nat>) {
    && |at| == |events|
    && |actions| == (if events == [] then 0 else at[|at| - 1] + 1)
    && (forall i :: 0 <= i < |events| ==> AnswersAt(root, hasPreExit, events, actions, at, i))
  }

  ghost predicate AnswersAt(root: int, hasPreExit: bool, events: seq<WaitEvent>, actions: seq<Action>, at: seq<nat>, i: nat)
    requires i < |events| == |at|
  {
    && at[i] < |actions| && LetsGoOn(events[i], actions[at[i]])
    && at[i] == (if i == 0 then 0 else at[i - 1] + 1) + (if CallsForHooks(root, hasPreExit, events[i]) then 1 else 0)
    && (CallsForHooks(root, hasPreExit, events[i]) ==> actions[at[i] - 1] == RunPreExitHooks)
  }

  lemma {:induction false} TracedAnswersEach(root: int, hasPreExit: bool, events: seq<WaitEvent>) returns (at: seq<nat>)
    ensures AnswersEach(root, hasPreExit, events, Traced(root, hasPreExit, events), at)
  {
    if events == [] {
      at := [];
    } else {
      var front, last := events[..|events| - 1], |events| - 1;
      var before := TracedAnswersEach(root, hasPreExit, front);
      var actions, shorter := Traced(root, hasPreExit, events), Traced(root, hasPreExit, front);
      at := before + [|actions| - 1];
      assert LetsGoOn(events[last], actions[|actions| - 1]);
      forall i | 0 <= i < |events| ensures AnswersAt(root, hasPreExit, events, actions, at, i) {
        if i < last {
          assert AnswersAt(root, hasPreExit, front, shorter, before, i);
          assert front[i] == events[i] && actions[at[i]] == shorter[at[i]];
        }
      }
    }
  }

  /** Wherever the hooks have run, the command is let go on directly afterwards. */
  ghost predicate HooksThenGo(root: int, actions: seq<Action>) {
    forall k :: 0 <= k < |actions| && actions[k] == RunPreExitHooks ==> k + 1 < |actions| && actions[k + 1] == Go(root, 0)
  }

  lemma {:induction false} TracedHooksThenGo(root: int, hasPreExit: bool, events: seq<WaitEvent>)
    ensures HooksThenGo(root, Traced(root, hasPreExit, events))
  {
    if events != [] {
      TracedHooksThenGo(root, hasPreExit, events[..|events| - 1]);
    }
  }

  /** The hooks-only loop answers the stops, in order, and nothing else. */
  lemma {:induction false} ContinuedInOrder(root: int, events: seq<Status>) returns (idx: seq<nat>)
    ensures Increasing(idx, |events|) && |idx| == |Continued(root, events)|
    ensures forall k :: 0 <= k < |idx| ==>
      && events[idx[k]].Stopped?
      && Continued(root, events)[k]
        == Go(root, if events[idx[k]].sig == SIGTRAP && events[idx[k]].event != 0 then 0 else events[idx[k]].sig)
    ensures forall i :: 0 <= i < |events| && events[i].Stopped? ==> i in idx
  {
    if events == [] {
      idx := [];
    } else {
      var front, last := events[..|events| - 1], |events| - 1;
      idx := ContinuedInOrder(root, front);
      assert forall i :: 0 <= i < |front| ==> front[i] == events[i];
      if events[last].Stopped? {
        idx := idx + [last];
      }
    }
  }

  // ---- the loops ------------------------------------------------------------------------------

  /**
   * The loop of `runTrace`. It ends at the first death of the command, having answered every event before that, the PreExit
   * hooks directly before the command is let go from its exit stop.
   */
  method TraceLoop(root: int, hasPreExit: bool, events: seq<WaitEvent>)
    returns (end: Ending, n: nat, ghost at: seq<nat>)
    ensures n <= |events|
    ensures forall i :: 0 <= i < n ==> events[i].pid != root || (!events[i].status.Exited? && !events[i].status.Signaled?)
    ensures end.exitCode.None? <==> n == |events|
    ensures n < |events| ==>
      && events[n].pid == root && (events[n].status.Exited? || events[n].status.Signaled?)
      && end.exitCode.value == if events[n].status.Exited? then events[n].status.code else 128 + events[n].status.sig
    ensures AnswersEach(root, hasPreExit, events[..n], end.actions, at) && HooksThenGo(root, end.actions)
    ensures end.actions == Traced(root, hasPreExit, events[..n])
  {
    var actions: seq<Action> := [];
    n := 0;
    while n < |events|
      invariant n <= |events|
      invariant forall i :: 0 <= i < n ==> events[i].pid != root || (!events[i].status.Exited? && !events[i].status.Signaled?)
      invariant actions == Traced(root, hasPreExit, events[..n])
    {
      assert events[..n + 1][..n] == events[..n];
      var e := events[n];
      if e.pid == root && e.status.Exited? {
        at := TracedAnswersEach(root, hasPreExit, events[..n]);
        TracedHooksThenGo(root, hasPreExit, events[..n]);
        return Ending(Some(e.status.code), actions), n, at;
      }
      if e.pid == root && e.status.Signaled? {
        at := TracedAnswersEach(root, hasPreExit, events[..n]);
        TracedHooksThenGo(root, hasPreExit, events[..n]);
        return Ending(Some(128 + e.status.sig), actions), n, at;
      }
      var injectedSig := 0;
      if e.status.Stopped? {
        injectedSig := e.status.sig;
        if e.status.sig == SYSCALL_TRAP {
          injectedSig := 0;
        } else if e.status.sig == SIGTRAP {
          if e.status.event != 0 {
            injectedSig := 0;
            if e.status.event == EVENT_EXIT && e.pid == root && hasPreExit {
              actions := actions + [RunPreExitHooks];
            }
          }
        }
      }
      actions := actions + [Go(e.pid, injectedSig)];
      n := n + 1;
    }
    assert events[..n] == events;
    at := TracedAnswersEach(root, hasPreExit, events[..n]);
    TracedHooksThenGo(root, hasPreExit, events[..n]);
    return Ending(None, actions), n, at;
  }

  predicate EndsWaiting(s: Status) {
    Dead(s) || ExitStop(s)
  }

  /** What the exit stop says the exit code is: the high byte of a wait status. */
  function CodeAtExitStop(s: Status): nat
    requires s.Stopped?
  {
    if s.message.Some? then s.message.value / 256 else 0
  }

  /** `waitForExitOnly`, which waits for the one process only and ends at its exit stop. */
  method WaitForExitOnly(root: int, events: seq<Status>) returns (end: Ending, n: nat)
    ensures n <= |events|
    ensures forall i :: 0 <= i < n ==>
      && !events[i].Exited? && !events[i].Signaled?
      && !(events[i].Stopped? && events[i].sig == SIGTRAP && events[i].event == EVENT_EXIT)
    ensures end.exitCode.None? <==> n == |events|
    ensures n < |events| && (events[n].Exited? || events[n].Signaled?) ==>
      && end.exitCode.value == (if events[n].Exited? then events[n].code else 128 + events[n].sig)
      && end.actions == [Go(root, 0)] + Continued(root, events[..n])
    ensures n < |events| && events[n].Stopped? ==>
      && events[n].sig == SIGTRAP && events[n].event == EVENT_EXIT
      && end.exitCode.value == (if events[n].message.Some? then events[n].message.value / 256 else 0)
      && end.actions == [Go(root, 0)] + Continued(root, events[..n]) + [RunPreExitHooks, Go(root, 0)]
    ensures n < |events| ==> EndsWaiting(events[n])
  {
    var actions := [Go(root, 0)];
    n := 0;
    while n < |events|
      invariant n <= |events|
      invariant forall i :: 0 <= i < n ==> !EndsWaiting(events[i])
      invariant actions == [Go(root, 0)] + Continued(root, events[..n])
    {
      assert events[..n + 1][..n] == events[..n];
      var status := events[n];
      if status.Exited? {
        return Ending(Some(status.code), actions), n;
      }
      if status.Signaled? {
        return Ending(Some(128 + status.sig), actions), n;
      }
      if status.Stopped? {
        var injectedSig := status.sig;
        if status.sig == SIGTRAP {
          if status.event != 0 {
            injectedSig := 0;
            if status.event == EVENT_EXIT {
              actions := actions + [RunPreExitHooks];
              var exitCode := 0;
              if status.message.Some? {
                exitCode := status.message.value / 256;
              }
              actions := actions + [Go(root, 0)];
              return Ending(Some(exitCode), actions), n;
            }
          }
        }
        actions := actions + [Go(root, injectedSig)];
      }
      n := n + 1;
    }
    return Ending(None, actions), n;
  }

  // ---- comparing the two modes ----------------------------------------------------------------

  /**
   * A process that passes its exit stop and dies, with the message the kernel gives: the wait status of its death, in
   * which a core dump sets the bit above the signal.
   */
  ghost predicate Dies(stop: Status, death: Status) {
    && ExitStop(stop) && Dead(death)
    && (death.Exited? ==> stop.message == Some(death.code * 256))
    && (death.Signaled? ==> stop.message == Some(death.sig) || stop.message == Some(death.sig + 128))
    && (death.Exited? ==> death.code < 256) && (death.Signaled? ==> 0 < death.sig < 128)
  }

  /**
   * The exit code taken at the exit stop is the one full tracing reports if and only if the process exits by itself. A
   * process killed by a signal comes out with exit code 0 from the exit stop, which is how success looks.
   */
  lemma ExitCodesAgreeIff(stop: Status, death: Status)
    requires Dies(stop, death)
    ensures CodeAtExitStop(stop) == DeathCode(death) <==> death.Exited?
    ensures death.Signaled? ==> CodeAtExitStop(stop) == 0
  {
  }

  function HookRuns(actions: seq<Action>): nat {
    if actions == [] then 0
    else HookRuns(actions[..|actions| - 1]) + if actions[|actions| - 1] == RunPreExitHooks then 1 else 0
  }

  function ExitStops(root: int, events: seq<WaitEvent>): nat {
    if events == [] then 0 else
    var front, last := ExitStops(root, events[..|events| - 1]), events[|events| - 1];
    if last.pid == root && ExitStop(last.status) then front + 1 else front
  }

  /** The PreExit hooks run once for each exit stop of the command itself, and for no other process. */
  lemma {:induction false} HooksFollowExitStops(root: int, hasPreExit: bool, events: seq<WaitEvent>)
    ensures HookRuns(Traced(root, hasPreExit, events)) == if hasPreExit then ExitStops(root, events) else 0
  {
    if events != [] {
      var front, last := events[..|events| - 1], events[|events| - 1];
      HooksFollowExitStops(root, hasPreExit, front);
      var before := Traced(root, hasPreExit, front);
      assert (before + [RunPreExitHooks])[..|before|] == before;
      var hooked := if RunsHooks(root, hasPreExit, last) then before + [RunPreExitHooks] else before;
      assert (hooked + [Go(last.pid, SignalFor(last.status))])[..|hooked|] == hooked;
    }
  }

  function Delivered(actions: seq<Action>): seq<Action> {
    if actions == [] then [] else
    var front, last := Delivered(actions[..|actions| - 1]), actions[|actions| - 1];
    if last.Go? && last.sig != 0 then front + [last] else front
  }

  function SentSignals(events: seq<WaitEvent>): seq<Action> {
    if events == [] then [] else
    var front, last := SentSignals(events[..|events| - 1]), events[|events| - 1];
    if last.status.Stopped? && !PtraceStop(last.status) && last.status.sig != 0
    then front + [Go(last.pid, last.status.sig)] else front
  }

  /** Tracing is transparent: the traced processes get the signals they were sent, in order, and no others. */
  lemma {:induction false} SignalsPassThrough(root: int, hasPreExit: bool, events: seq<WaitEvent>)
    ensures Delivered(Traced(root, hasPreExit, events)) == SentSignals(events)
  {
    if events != [] {
      var front, last := events[..|events| - 1], events[|events| - 1];
      SignalsPassThrough(root, hasPreExit, front);
      var before := Traced(root, hasPreExit, front);
      assert (before + [RunPreExitHooks])[..|before|] == before;
      var hooked := if RunsHooks(root, hasPreExit, last) then before + [RunPreExitHooks] else before;
      assert (hooked + [Go(last.pid, SignalFor(last.status))])[..|hooked|] == hooked;
    }
  }

  /** The statuses of one process, as waiting for any process would report them. */
  function Of(root: int, statuses: seq<Status>): seq<WaitEvent> {
    seq(|statuses|, i requires 0 <= i < |statuses| => WaitEvent(root, statuses[i]))
  }

  /** Up to the exit stop, the hooks-only loop lets the process go on exactly as full tracing does. */
  lemma {:induction false} ModesAgreeUpToExit(root: int, statuses: seq<Status>)
    requires forall i :: 0 <= i < |statuses| ==> statuses[i].Stopped? && statuses[i].sig != SYSCALL_TRAP
    requires forall i :: 0 <= i < |statuses| ==> !ExitStop(statuses[i])
    ensures Continued(root, statuses) == Traced(root, true, Of(root, statuses))
  {
    if statuses != [] {
      ModesAgreeUpToExit(root, statuses[..|statuses| - 1]);
      assert Of(root, statuses)[..|statuses| - 1] == Of(root, statuses[..|statuses| - 1]);
    }
  }
}
