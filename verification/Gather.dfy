// Querying several sources at once: workers, two collectors and the thread that closes the channels, over all
// interleavings (source/multi.go). The channels are unbuffered, so a send and its receive are one step.
module Gather {
  import opened Options

  /** What one source answers to the query, fixed for the run. */
  datatype Outcome<T, E> = Found(items: seq<T>) | Failed(error: E)

  datatype Worker = Unspawned | Searching | Sending | Sent | Finished

  /** The thread that runs `Search` itself. */
  datatype MainPhase = Spawning(next: nat) | Waiting | ClosedResults | ClosedBoth | ErrorsDone | Returned

  /** A collector holds the index of the source it has just received from until it has appended what came. */
  datatype Collector = Receiving | Appending(source: nat) | Signalling | Done

  datatype State<T, E> = State(
    workers: seq<Worker>,
    main: MainPhase,
    pending: int,                // the wait group's counter
    reader: Collector,
    results: seq<T>,
    errReader: Collector,
    errors: seq<E>,
    panicked: bool,
    ghost received: seq<nat>,    // the sources results were received from, in order
    ghost receivedErrs: seq<nat>)

  datatype Step =
    | Spawn
    | EndSpawn
    | Answer(i: nat)             // source `i` returns
    | SendResult(i: nat)
    | SendError(i: nat)
    | FinishWorker(i: nat)
    | Append
    | AppendError
    | WaitReturns
    | CloseErrors
    | ReaderEnds                 // the range over a closed channel is over
    | ErrReaderEnds
    | TakeErrDone
    | TakeReaderDone

  predicate ResultsClosed(m: MainPhase) {
    m.ClosedResults? || ErrorsClosed(m)
  }

  predicate ErrorsClosed(m: MainPhase) {
    m.ClosedBoth? || m.ErrorsDone? || m.Returned?
  }

  ghost predicate Enabled<T, E>(outcomes: seq<Outcome<T, E>>, s: State<T, E>, step: Step) {
    match step
    case Spawn => s.main.Spawning? && s.main.next < |s.workers|
    case EndSpawn => s.main.Spawning? && s.main.next >= |s.workers|
    case Answer(i) => i < |s.workers| && s.workers[i] == Searching
    case SendResult(i) =>
      && i < |s.workers| == |outcomes| && s.workers[i] == Sending && outcomes[i].Found?
      && (ResultsClosed(s.main) || s.reader == Receiving)
    case SendError(i) =>
      && i < |s.workers| == |outcomes| && s.workers[i] == Sending && outcomes[i].Failed?
      && (ErrorsClosed(s.main) || s.errReader == Receiving)
    case FinishWorker(i) => i < |s.workers| && s.workers[i] == Sent
    case Append => s.reader.Appending? && s.reader.source < |outcomes| && outcomes[s.reader.source].Found?
    case AppendError => s.errReader.Appending? && s.errReader.source < |outcomes| && outcomes[s.errReader.source].Failed?
    case WaitReturns => s.main == Waiting && s.pending == 0
    case CloseErrors => s.main == ClosedResults
    case ReaderEnds => s.reader == Receiving && ResultsClosed(s.main)
    case ErrReaderEnds => s.errReader == Receiving && ErrorsClosed(s.main)
    case TakeErrDone => s.main == ClosedBoth && s.errReader == Signalling
    case TakeReaderDone => s.main == ErrorsDone && s.reader == Signalling
  }

  ghost function Apply<T, E>(outcomes: seq<Outcome<T, E>>, s: State<T, E>, step: Step): State<T, E>
    requires Enabled(outcomes, s, step)
  {
    match step
    case Spawn => s.(workers := s.workers[s.main.next := Searching], main := Spawning(s.main.next + 1),
                     pending := s.pending + 1)
    case EndSpawn => s.(main := Waiting)
    case Answer(i) => s.(workers := s.workers[i := Sending])
    case SendResult(i) =>
      if ResultsClosed(s.main) then s.(panicked := true)
      else s.(workers := s.workers[i := Sent], reader := Appending(i), received := s.received + [i])
    case SendError(i) =>
      if ErrorsClosed(s.main) then s.(panicked := true)
      else s.(workers := s.workers[i := Sent], errReader := Appending(i), receivedErrs := s.receivedErrs + [i])
    case FinishWorker(i) => s.(workers := s.workers[i := Finished], pending := s.pending - 1)
    case Append => s.(results := s.results + outcomes[s.reader.source].items, reader := Receiving)
    case AppendError => s.(errors := s.errors + [outcomes[s.errReader.source].error], errReader := Receiving)
    case WaitReturns => s.(main := ClosedResults)
    case CloseErrors => s.(main := ClosedBoth)
    case ReaderEnds => s.(reader := Signalling)
    case ErrReaderEnds => s.(errReader := Signalling)
    case TakeErrDone => s.(main := ErrorsDone, errReader := Done)
    case TakeReaderDone => s.(main := Returned, reader := Done)
  }

  ghost predicate Initial<T, E>(outcomes: seq<Outcome<T, E>>, s: State<T, E>) {
    && |s.workers| == |outcomes|
    && (forall i :: 0 <= i < |s.workers| ==> s.workers[i] == Unspawned)
    && s == State(s.workers, Spawning(0), 0, Receiving, [], Receiving, [], false, [], [])
  }

  ghost predicate IsExecution<T, E>(outcomes: seq<Outcome<T, E>>, states: seq<State<T, E>>, steps: seq<Step>) {
    && |states| == |steps| + 1 && Initial(outcomes, states[0])
    && (forall k :: 0 <= k < |steps| ==> Moves(outcomes, states, steps, k))
  }

  ghost predicate Moves<T, E>(outcomes: seq<Outcome<T, E>>, states: seq<State<T, E>>, steps: seq<Step>, k: nat)
    requires k < |steps| < |states|
  {
    Enabled(outcomes, states[k], steps[k]) && states[k + 1] == Apply(outcomes, states[k], steps[k])
  }

  // ---- the invariant --------------------------------------------------------------------------

  predicate Busy(w: Worker) {
    w == Searching || w == Sending || w == Sent
  }

  function BusyCount(workers: seq<Worker>): nat {
    if workers == [] then 0
    else BusyCount(workers[..|workers| - 1]) + if Busy(workers[|workers| - 1]) then 1 else 0
  }

  predicate HasSent(w: Worker) {
    w == Sent || w == Finished
  }

  ghost predicate AllFound<T, E>(outcomes: seq<Outcome<T, E>>, order: seq<nat>) {
    forall k :: 0 <= k < |order| ==> order[k] < |outcomes| && outcomes[order[k]].Found?
  }

  ghost predicate AllFailed<T, E>(outcomes: seq<Outcome<T, E>>, order: seq<nat>) {
    forall k :: 0 <= k < |order| ==> order[k] < |outcomes| && outcomes[order[k]].Failed?
  }

  /** The results of the listed sources, one contiguous block each. */
  ghost function Blocks<T, E>(outcomes: seq<Outcome<T, E>>, order: seq<nat>): seq<T>
    requires AllFound(outcomes, order)
  {
    if order == [] then []
    else Blocks(outcomes, order[..|order| - 1]) + outcomes[order[|order| - 1]].items
  }

  ghost function ErrorsOf<T, E>(outcomes: seq<Outcome<T, E>>, order: seq<nat>): seq<E>
    requires AllFailed(outcomes, order)
  {
    if order == [] then []
    else ErrorsOf(outcomes, order[..|order| - 1]) + [outcomes[order[|order| - 1]].error]
  }

  ghost predicate WorkersOk<T, E>(outcomes: seq<Outcome<T, E>>, s: State<T, E>) {
    && |s.workers| == |outcomes| && s.pending == BusyCount(s.workers)
    && (forall i :: 0 <= i < |s.workers| ==>
          (s.workers[i] == Unspawned <==> s.main.Spawning? && s.main.next <= i))
    && (ResultsClosed(s.main) ==> forall i :: 0 <= i < |s.workers| ==> s.workers[i] == Finished)
    && (s.main.Spawning? ==> s.main.next <= |s.workers|)
  }

  ghost predicate CollectorsOk<T, E>(s: State<T, E>) {
    && !s.panicked
    && (s.reader == Signalling ==> ResultsClosed(s.main)) && (s.reader == Done <==> s.main == Returned)
    && (s.errReader == Signalling ==> ErrorsClosed(s.main))
    && (s.errReader == Done <==> s.main == ErrorsDone || s.main == Returned)
  }

  /** What the reader has already appended. */
  ghost function Appended(c: Collector, received: seq<nat>): seq<nat> {
    if c.Appending? && received != [] then received[..|received| - 1] else received
  }

  ghost predicate InHand(c: Collector, received: seq<nat>) {
    c.Appending? ==> received != [] && received[|received| - 1] == c.source
  }

  /** The sources received from are those with results (or those with an error) whose worker has sent. */
  ghost predicate Tracks<T, E>(outcomes: seq<Outcome<T, E>>, workers: seq<Worker>, received: seq<nat>, found: bool)
    requires |workers| == |outcomes|
  {
    forall i: nat :: i < |outcomes| && outcomes[i].Found? == found ==> (i in received <==> HasSent(workers[i]))
  }

  lemma TracksSending<T, E>(outcomes: seq<Outcome<T, E>>, workers: seq<Worker>, received: seq<nat>, found: bool, i: nat)
    requires |workers| == |outcomes| && Tracks(outcomes, workers, received, found) && Distinct(received)
    requires i < |outcomes| && workers[i] == Sending
    ensures outcomes[i].Found? == found ==>
      Distinct(received + [i]) && Tracks(outcomes, workers[i := Sent], received + [i], found)
    ensures outcomes[i].Found? != found ==> Tracks(outcomes, workers[i := Sent], received, found)
  {
    if outcomes[i].Found? == found {
      assert i !in received;
      forall k: nat | k < |outcomes| && outcomes[k].Found? == found
        ensures k in received + [i] <==> HasSent(workers[i := Sent][k])
      {
        assert k in received + [i] <==> k in received || k == i;
      }
    }
  }

  /** Who has sent does not change when a worker moves on before it sends or after. */
  lemma TracksMoving<T, E>(outcomes: seq<Outcome<T, E>>, workers: seq<Worker>, received: seq<nat>, found: bool, i: nat,
                           w: Worker)
    requires |workers| == |outcomes| && Tracks(outcomes, workers, received, found)
    requires i < |outcomes| && HasSent(workers[i]) == HasSent(w)
    ensures Tracks(outcomes, workers[i := w], received, found)
  {
    forall k: nat | k < |outcomes| && outcomes[k].Found? == found
      ensures k in received <==> HasSent(workers[i := w][k])
    {
    }
  }

  ghost predicate ResultsOk<T, E>(outcomes: seq<Outcome<T, E>>, s: State<T, E>) {
    && Distinct(s.received) && InHand(s.reader, s.received)
    && AllFound(outcomes, s.received)
    && |s.workers| == |outcomes|
    && Tracks(outcomes, s.workers, s.received, true)
    && s.results == Blocks(outcomes, Appended(s.reader, s.received))
  }

  ghost predicate ErrorsOk<T, E>(outcomes: seq<Outcome<T, E>>, s: State<T, E>) {
    && Distinct(s.receivedErrs) && InHand(s.errReader, s.receivedErrs)
    && AllFailed(outcomes, s.receivedErrs)
    && |s.workers| == |outcomes|
    && Tracks(outcomes, s.workers, s.receivedErrs, false)
    && s.errors == ErrorsOf(outcomes, Appended(s.errReader, s.receivedErrs))
  }

  ghost predicate Inv<T, E>(outcomes: seq<Outcome<T, E>>, s: State<T, E>) {
    WorkersOk(outcomes, s) && CollectorsOk(s) && ResultsOk(outcomes, s) && ErrorsOk(outcomes, s)
  }

  lemma {:induction false} BusyUpdate(workers: seq<Worker>, i: nat, w: Worker)
    requires i < |workers|
    ensures BusyCount(workers[i := w])
      == BusyCount(workers) - (if Busy(workers[i]) then 1 else 0) + if Busy(w) then 1 else 0
  {
    var last := |workers| - 1;
    if i < last {
      assert workers[i := w][..last] == workers[..last][i := w];
      BusyUpdate(workers[..last], i, w);
    } else {
      assert workers[i := w][..last] == workers[..last];
    }
  }

  lemma {:induction false} NoneBusy(workers: seq<Worker>, i: nat)
    requires i < |workers| && BusyCount(workers) == 0
    ensures !Busy(workers[i])
  {
    if i < |workers| - 1 {
      NoneBusy(workers[..|workers| - 1], i);
    }
  }

  lemma WorkersPreserved<T, E>(outcomes: seq<Outcome<T, E>>, s: State<T, E>, step: Step)
    requires Inv(outcomes, s) && Enabled(outcomes, s, step)
    ensures WorkersOk(outcomes, Apply(outcomes, s, step))
  {
    if step.SendResult? || step.SendError? {
      BusyUpdate(s.workers, step.i, Sent);
    } else if step.Spawn? || step.Answer? || step.FinishWorker? {
      MovingPreservesWorkers(outcomes, s, step);
    } else if step == WaitReturns {
      forall i | 0 <= i < |s.workers| ensures s.workers[i] == Finished {
        NoneBusy(s.workers, i);
      }
    }
  }

  lemma MovingPreservesWorkers<T, E>(outcomes: seq<Outcome<T, E>>, s: State<T, E>, step: Step)
    requires Inv(outcomes, s) && Enabled(outcomes, s, step) && (step.Spawn? || step.Answer? || step.FinishWorker?)
    ensures WorkersOk(outcomes, Apply(outcomes, s, step))
  {
    match step {
      case Spawn => BusyUpdate(s.workers, s.main.next, Searching);
      case Answer(i) => BusyUpdate(s.workers, i, Sending);
      case FinishWorker(i) => BusyUpdate(s.workers, i, Finished);
    }
  }

  lemma CollectorsPreserved<T, E>(outcomes: seq<Outcome<T, E>>, s: State<T, E>, step: Step)
    requires Inv(outcomes, s) && Enabled(outcomes, s, step)
    ensures CollectorsOk(Apply(outcomes, s, step))
  {
  }

  /** A worker can only send while the collector it sends to is receiving: nothing is closed before it has finished. */
  lemma SendersAreAwaited<T, E>(outcomes: seq<Outcome<T, E>>, s: State<T, E>, step: Step)
    requires WorkersOk(outcomes, s) && Enabled(outcomes, s, step)
    ensures step.SendResult? ==> !ResultsClosed(s.main) && s.reader == Receiving
    ensures step.SendError? ==> !ErrorsClosed(s.main) && s.errReader == Receiving
  {
  }

  lemma SendingPreservesResults<T, E>(outcomes: seq<Outcome<T, E>>, s: State<T, E>, i: nat)
    requires ResultsOk(outcomes, s) && s.reader == Receiving
    requires i < |outcomes| && s.workers[i] == Sending && outcomes[i].Found?
    ensures ResultsOk(outcomes, s.(workers := s.workers[i := Sent], reader := Appending(i), received := s.received + [i]))
  {
    TracksSending(outcomes, s.workers, s.received, true, i);
    TakenInHand(s.received, i);
  }

  /** What has just been received is in hand and not yet appended. */
  lemma TakenInHand(received: seq<nat>, i: nat)
    ensures InHand(Appending(i), received + [i]) && Appended(Appending(i), received + [i]) == received
  {
    assert (received + [i])[..|received|] == received;
  }

  lemma AppendingPreservesResults<T, E>(outcomes: seq<Outcome<T, E>>, s: State<T, E>)
    requires ResultsOk(outcomes, s) && Enabled(outcomes, s, Append)
    ensures ResultsOk(outcomes, Apply(outcomes, s, Append))
  {
  }

  lemma MovingResults<T, E>(outcomes: seq<Outcome<T, E>>, s: State<T, E>, step: Step)
    requires Inv(outcomes, s) && Enabled(outcomes, s, step) && (step.Spawn? || step.Answer? || step.FinishWorker?)
    ensures ResultsOk(outcomes, Apply(outcomes, s, step))
  {
    if step.Spawn? {
      TracksMoving(outcomes, s.workers, s.received, true, s.main.next, Searching);
    } else if step.Answer? {
      TracksMoving(outcomes, s.workers, s.received, true, step.i, Sending);
    } else {
      TracksMoving(outcomes, s.workers, s.received, true, step.i, Finished);
    }
  }

  lemma ResultsPreserved<T, E>(outcomes: seq<Outcome<T, E>>, s: State<T, E>, step: Step)
    requires Inv(outcomes, s) && Enabled(outcomes, s, step)
    ensures ResultsOk(outcomes, Apply(outcomes, s, step))
  {
    SendersAreAwaited(outcomes, s, step);
    if step.SendResult? {
      SendingPreservesResults(outcomes, s, step.i);
    } else if step.SendError? {
      TracksSending(outcomes, s.workers, s.received, true, step.i);
    } else if step == Append {
      AppendingPreservesResults(outcomes, s);
    } else if step.Spawn? || step.Answer? || step.FinishWorker? {
      MovingResults(outcomes, s, step);
    } else {
      var next := Apply(outcomes, s, step);
      assert next.workers == s.workers && next.received == s.received;
    }
  }

  lemma SendingPreservesErrors<T, E>(outcomes: seq<Outcome<T, E>>, s: State<T, E>, i: nat)
    requires ErrorsOk(outcomes, s) && s.errReader == Receiving
    requires i < |outcomes| && s.workers[i] == Sending && outcomes[i].Failed?
    ensures ErrorsOk(outcomes,
                     s.(workers := s.workers[i := Sent], errReader := Appending(i), receivedErrs := s.receivedErrs + [i]))
  {
    TracksSending(outcomes, s.workers, s.receivedErrs, false, i);
    TakenInHand(s.receivedErrs, i);
  }

  lemma AppendingPreservesErrors<T, E>(outcomes: seq<Outcome<T, E>>, s: State<T, E>)
    requires ErrorsOk(outcomes, s) && Enabled(outcomes, s, AppendError)
    ensures ErrorsOk(outcomes, Apply(outcomes, s, AppendError))
  {
  }

  lemma MovingErrors<T, E>(outcomes: seq<Outcome<T, E>>, s: State<T, E>, step: Step)
    requires Inv(outcomes, s) && Enabled(outcomes, s, step) && (step.Spawn? || step.Answer? || step.FinishWorker?)
    ensures ErrorsOk(outcomes, Apply(outcomes, s, step))
  {
    if step.Spawn? {
      TracksMoving(outcomes, s.workers, s.receivedErrs, false, s.main.next, Searching);
    } else if step.Answer? {
      TracksMoving(outcomes, s.workers, s.receivedErrs, false, step.i, Sending);
    } else {
      TracksMoving(outcomes, s.workers, s.receivedErrs, false, step.i, Finished);
    }
  }

  lemma ErrorsPreserved<T, E>(outcomes: seq<Outcome<T, E>>, s: State<T, E>, step: Step)
    requires Inv(outcomes, s) && Enabled(outcomes, s, step)
    ensures ErrorsOk(outcomes, Apply(outcomes, s, step))
  {
    SendersAreAwaited(outcomes, s, step);
    if step.SendError? {
      SendingPreservesErrors(outcomes, s, step.i);
    } else if step.SendResult? {
      TracksSending(outcomes, s.workers, s.receivedErrs, false, step.i);
    } else if step == AppendError {
      AppendingPreservesErrors(outcomes, s);
    } else if step.Spawn? || step.Answer? || step.FinishWorker? {
      MovingErrors(outcomes, s, step);
    } else {
      var next := Apply(outcomes, s, step);
      assert next.workers == s.workers && next.receivedErrs == s.receivedErrs;
    }
  }

  lemma StepPreserves<T, E>(outcomes: seq<Outcome<T, E>>, s: State<T, E>, step: Step)
    requires Inv(outcomes, s) && Enabled(outcomes, s, step)
    ensures Inv(outcomes, Apply(outcomes, s, step))
  {
    WorkersPreserved(outcomes, s, step);
    CollectorsPreserved(outcomes, s, step);
    ResultsPreserved(outcomes, s, step);
    ErrorsPreserved(outcomes, s, step);
  }

  lemma {:induction false} NoneBusyAtFirst(workers: seq<Worker>)
    requires forall i :: 0 <= i < |workers| ==> workers[i] == Unspawned
    ensures BusyCount(workers) == 0
  {
    if workers != [] {
      NoneBusyAtFirst(workers[..|workers| - 1]);
    }
  }

  lemma InitialInv<T, E>(outcomes: seq<Outcome<T, E>>, s: State<T, E>)
    requires Initial(outcomes, s)
    ensures Inv(outcomes, s)
  {
    NoneBusyAtFirst(s.workers);
  }

  lemma MovePreserves<T, E>(outcomes: seq<Outcome<T, E>>, states: seq<State<T, E>>, steps: seq<Step>, k: nat)
    requires k < |steps| < |states| && Moves(outcomes, states, steps, k) && Inv(outcomes, states[k])
    ensures Inv(outcomes, states[k + 1])
  {
    StepPreserves(outcomes, states[k], steps[k]);
  }

  lemma Invariant<T, E>(outcomes: seq<Outcome<T, E>>, states: seq<State<T, E>>, steps: seq<Step>, k: nat)
    requires IsExecution(outcomes, states, steps) && k < |states|
    ensures Inv(outcomes, states[k])
  {
    InitialInv(outcomes, states[0]);
    for j := 0 to k
      invariant Inv(outcomes, states[j])
    {
      MovePreserves(outcomes, states, steps, j);
    }
  }

  // ---- no deadlock, no panic, always an end ---------------------------------------------------

  /** No run sends on a closed channel. */
  lemma NeverPanics<T, E>(outcomes: seq<Outcome<T, E>>, states: seq<State<T, E>>, steps: seq<Step>, k: nat)
    requires IsExecution(outcomes, states, steps) && k < |states|
    ensures !states[k].panicked
  {
    Invariant(outcomes, states, steps, k);
  }

  function WorkerRank(w: Worker): nat {
    match w
    case Unspawned => 6
    case Searching => 5
    case Sending => 4
    case Sent => 1
    case Finished => 0
  }

  function WorkerRanks(workers: seq<Worker>): nat {
    if workers == [] then 0 else WorkerRanks(workers[..|workers| - 1]) + WorkerRank(workers[|workers| - 1])
  }

  function CollectorRank(c: Collector): nat {
    match c
    case Receiving => 2
    case Appending(_) => 3
    case Signalling => 1
    case Done => 0
  }

  function MainRank(m: MainPhase): nat {
    match m
    case Spawning(_) => 5
    case Waiting => 4
    case ClosedResults => 3
    case ClosedBoth => 2
    case ErrorsDone => 1
    case Returned => 0
  }

  function Measure<T, E>(s: State<T, E>): nat {
    WorkerRanks(s.workers) + MainRank(s.main) + CollectorRank(s.reader) + CollectorRank(s.errReader)
  }

  lemma {:induction false} RanksUpdate(workers: seq<Worker>, i: nat, w: Worker)
    requires i < |workers|
    ensures WorkerRanks(workers[i := w]) == WorkerRanks(workers) - WorkerRank(workers[i]) + WorkerRank(w)
  {
    var last := |workers| - 1;
    if i < last {
      assert workers[i := w][..last] == workers[..last][i := w];
      RanksUpdate(workers[..last], i, w);
    } else {
      assert workers[i := w][..last] == workers[..last];
    }
  }

  /** Every step brings the run nearer to its end. */
  lemma StepsDecrease<T, E>(outcomes: seq<Outcome<T, E>>, s: State<T, E>, step: Step)
    requires Inv(outcomes, s) && Enabled(outcomes, s, step)
    ensures Measure(Apply(outcomes, s, step)) < Measure(s)
  {
    if step.SendResult? || step.SendError? {
      SendersAreAwaited(outcomes, s, step);
      SendingDecreases(outcomes, s, step);
    } else if step.Spawn? || step.Answer? || step.FinishWorker? {
      MovingDecreases(outcomes, s, step);
    } else {
      CollectingDecreases(outcomes, s, step);
    }
  }

  lemma SendingDecreases<T, E>(outcomes: seq<Outcome<T, E>>, s: State<T, E>, step: Step)
    requires Enabled(outcomes, s, step) && (step.SendResult? || step.SendError?)
    requires if step.SendResult? then !ResultsClosed(s.main) else !ErrorsClosed(s.main)
    ensures Measure(Apply(outcomes, s, step)) < Measure(s)
  {
    RanksUpdate(s.workers, step.i, Sent);
  }

  /** A step that leaves the workers alone. */
  predicate Collecting(step: Step) {
    !step.SendResult? && !step.SendError? && !step.Spawn? && !step.Answer? && !step.FinishWorker?
  }

  lemma CollectingDecreases<T, E>(outcomes: seq<Outcome<T, E>>, s: State<T, E>, step: Step)
    requires Enabled(outcomes, s, step) && Collecting(step)
    ensures Measure(Apply(outcomes, s, step)) < Measure(s)
  {
    assert Apply(outcomes, s, step).workers == s.workers;
  }

  lemma MovingDecreases<T, E>(outcomes: seq<Outcome<T, E>>, s: State<T, E>, step: Step)
    requires Enabled(outcomes, s, step) && (step.Spawn? || step.Answer? || step.FinishWorker?)
    requires step.Spawn? ==> s.workers[s.main.next] == Unspawned
    ensures Measure(Apply(outcomes, s, step)) < Measure(s)
  {
    var i, w := if step.Spawn? then s.main.next else step.i,
                if step.Spawn? then Searching else if step.Answer? then Sending else Finished;
    RanksUpdate(s.workers, i, w);
    var next := Apply(outcomes, s, step);
    assert next.workers == s.workers[i := w];
    assert MainRank(next.main) == MainRank(s.main) && next.reader == s.reader && next.errReader == s.errReader;
  }

  /** So no schedule takes more steps than the measure of the initial state, which depends on the number of sources only. */
  lemma {:induction false} RunsEnd<T, E>(outcomes: seq<Outcome<T, E>>, states: seq<State<T, E>>, steps: seq<Step>, k: nat)
    requires IsExecution(outcomes, states, steps) && k < |states|
    ensures k + Measure(states[k]) <= 6 * |outcomes| + 9
  {
    if k == 0 {
      InitialMeasure(outcomes, states[0]);
    } else {
      RunsEnd(outcomes, states, steps, k - 1);
      NextMeasure(outcomes, states, steps, k - 1);
    }
  }

  lemma InitialMeasure<T, E>(outcomes: seq<Outcome<T, E>>, s: State<T, E>)
    requires Initial(outcomes, s)
    ensures Measure(s) == 6 * |outcomes| + 9
  {
    UnspawnedRanks(s.workers);
  }

  lemma NextMeasure<T, E>(outcomes: seq<Outcome<T, E>>, states: seq<State<T, E>>, steps: seq<Step>, k: nat)
    requires IsExecution(outcomes, states, steps) && k < |steps|
    ensures Measure(states[k + 1]) < Measure(states[k])
  {
    Invariant(outcomes, states, steps, k);
    assert Moves(outcomes, states, steps, k);
    StepsDecrease(outcomes, states[k], steps[k]);
  }

  lemma {:induction false} UnspawnedRanks(workers: seq<Worker>)
    requires forall i :: 0 <= i < |workers| ==> workers[i] == Unspawned
    ensures WorkerRanks(workers) == 6 * |workers|
  {
    if workers != [] {
      UnspawnedRanks(workers[..|workers| - 1]);
    }
  }

  ghost predicate CanMove<T, E>(outcomes: seq<Outcome<T, E>>, s: State<T, E>) {
    exists step :: Enabled(outcomes, s, step)
  }

  lemma {:induction false} SomeBusy(workers: seq<Worker>) returns (i: nat)
    requires BusyCount(workers) > 0
    ensures i < |workers| && Busy(workers[i])
  {
    if Busy(workers[|workers| - 1]) {
      i := |workers| - 1;
    } else {
      i := SomeBusy(workers[..|workers| - 1]);
    }
  }

  /** A worker that is busy can move, unless its collector must move first. */
  lemma BusyMoves<T, E>(outcomes: seq<Outcome<T, E>>, s: State<T, E>, i: nat)
    requires Inv(outcomes, s) && i < |s.workers| && Busy(s.workers[i])
    ensures CanMove(outcomes, s)
  {
    if s.workers[i] == Searching {
      assert Enabled(outcomes, s, Answer(i));
    } else if s.workers[i] == Sent {
      assert Enabled(outcomes, s, FinishWorker(i));
    } else if outcomes[i].Found? {
      assert Enabled(outcomes, s, SendResult(i)) || Enabled(outcomes, s, Append);
    } else {
      assert Enabled(outcomes, s, SendError(i)) || Enabled(outcomes, s, AppendError);
    }
  }

  /** While workers are about, one of them or a collector can move. */
  lemma WaitingMoves<T, E>(outcomes: seq<Outcome<T, E>>, s: State<T, E>)
    requires Inv(outcomes, s) && s.main == Waiting
    ensures CanMove(outcomes, s)
  {
    if s.pending == 0 {
      assert Enabled(outcomes, s, WaitReturns);
    } else {
      var i := SomeBusy(s.workers);
      BusyMoves(outcomes, s, i);
    }
  }

  /** The loop over the errors ends once their channel is closed, and hands over to the thread that searches. */
  lemma ClosedBothMoves<T, E>(outcomes: seq<Outcome<T, E>>, s: State<T, E>)
    requires CollectorsOk(s) && ErrorsOk(outcomes, s) && s.main == ClosedBoth
    ensures CanMove(outcomes, s)
  {
    if s.errReader.Appending? {
      assert Enabled(outcomes, s, AppendError);
    } else if s.errReader == Receiving {
      assert Enabled(outcomes, s, ErrReaderEnds);
    } else {
      assert Enabled(outcomes, s, TakeErrDone);
    }
  }

  lemma ErrorsDoneMoves<T, E>(outcomes: seq<Outcome<T, E>>, s: State<T, E>)
    requires CollectorsOk(s) && ResultsOk(outcomes, s) && s.main == ErrorsDone
    ensures CanMove(outcomes, s)
  {
    if s.reader.Appending? {
      assert Enabled(outcomes, s, Append);
    } else if s.reader == Receiving {
      assert Enabled(outcomes, s, ReaderEnds);
    } else {
      assert Enabled(outcomes, s, TakeReaderDone);
    }
  }

  lemma SpawningMoves<T, E>(outcomes: seq<Outcome<T, E>>, s: State<T, E>)
    requires s.main.Spawning?
    ensures CanMove(outcomes, s)
  {
    assert Enabled(outcomes, s, if s.main.next < |s.workers| then Spawn else EndSpawn);
  }

  lemma ClosingMoves<T, E>(outcomes: seq<Outcome<T, E>>, s: State<T, E>)
    requires Inv(outcomes, s) && s.main != Waiting && s.main != Returned
    ensures CanMove(outcomes, s)
  {
    if s.main.Spawning? {
      SpawningMoves(outcomes, s);
    } else if s.main == ClosedResults {
      assert Enabled(outcomes, s, CloseErrors);
    } else if s.main == ClosedBoth {
      ClosedBothMoves(outcomes, s);
    } else {
      ErrorsDoneMoves(outcomes, s);
    }
  }

  /** No run gets stuck before `Search` returns. */
  lemma NoDeadlock<T, E>(outcomes: seq<Outcome<T, E>>, states: seq<State<T, E>>, steps: seq<Step>, k: nat)
    requires IsExecution(outcomes, states, steps) && k < |states| && states[k].main != Returned
    ensures CanMove(outcomes, states[k])
  {
    Invariant(outcomes, states, steps, k);
    if states[k].main == Waiting {
      WaitingMoves(outcomes, states[k]);
    } else {
      ClosingMoves(outcomes, states[k]);
    }
  }

  // ---- the answer -----------------------------------------------------------------------------

  ghost function Answered<T, E>(s: State<T, E>): Result<seq<T>, E> {
    if s.errors != [] then Err(s.errors[0]) else Ok(s.results)
  }

  ghost predicate AnyFailed<T, E>(outcomes: seq<Outcome<T, E>>) {
    exists i :: 0 <= i < |outcomes| && outcomes[i].Failed?
  }

  /** The answer is the error of the source that was first heard to fail. */
  ghost predicate IsErrorOf<T, E>(outcomes: seq<Outcome<T, E>>, received: seq<nat>, answer: Result<seq<T>, E>) {
    && received != [] && received[0] < |outcomes| && outcomes[received[0]].Failed?
    && answer == Err(outcomes[received[0]].error)
  }

  /** `order` lists every source once. */
  ghost predicate ListsSources(order: seq<nat>, n: nat) {
    Distinct(order) && (forall k :: 0 <= k < |order| ==> order[k] < n) && (forall i: nat :: i < n ==> i in order)
  }

  lemma {:induction false} ErrorsFrom<T, E>(outcomes: seq<Outcome<T, E>>, order: seq<nat>)
    requires AllFailed(outcomes, order)
    ensures |ErrorsOf(outcomes, order)| == |order|
    ensures forall k :: 0 <= k < |order| ==> ErrorsOf(outcomes, order)[k] == outcomes[order[k]].error
  {
    if order != [] {
      ErrorsFrom(outcomes, order[..|order| - 1]);
    }
  }

  /**
   * At the end the answer is the error of some source when any source failed, and otherwise every source's results, one
   * contiguous block each, in some order.
   */
  lemma AnswerIsGathered<T, E>(outcomes: seq<Outcome<T, E>>, states: seq<State<T, E>>, steps: seq<Step>, k: nat)
    requires IsExecution(outcomes, states, steps) && k < |states| && states[k].main == Returned
    ensures AnyFailed(outcomes) ==>
      exists i :: 0 <= i < |outcomes| && outcomes[i].Failed? && Answered(states[k]) == Err(outcomes[i].error)
    ensures AnyFailed(outcomes) ==> IsErrorOf(outcomes, states[k].receivedErrs, Answered(states[k]))
    ensures !AnyFailed(outcomes) ==>
      && ListsSources(states[k].received, |outcomes|) && AllFound(outcomes, states[k].received)
      && Answered(states[k]) == Ok(Blocks(outcomes, states[k].received))
  {
    Invariant(outcomes, states, steps, k);
    if AnyFailed(outcomes) {
      FailureIsAnswered(outcomes, states[k]);
    } else {
      EverythingIsAnswered(outcomes, states[k]);
    }
  }

  lemma FailureIsAnswered<T, E>(outcomes: seq<Outcome<T, E>>, s: State<T, E>)
    requires WorkersOk(outcomes, s) && CollectorsOk(s) && ErrorsOk(outcomes, s) && s.main == Returned && AnyFailed(outcomes)
    ensures exists i :: 0 <= i < |outcomes| && outcomes[i].Failed? && Answered(s) == Err(outcomes[i].error)
    ensures IsErrorOf(outcomes, s.receivedErrs, Answered(s))
  {
    var i: nat :| i < |outcomes| && outcomes[i].Failed?;
    assert HasSent(s.workers[i]);
    assert i in s.receivedErrs;
    ErrorsFrom(outcomes, s.receivedErrs);
    var j := s.receivedErrs[0];
    assert outcomes[j].Failed? && s.errors[0] == outcomes[j].error;
  }

  lemma ErrorMeansFailure<T, E>(outcomes: seq<Outcome<T, E>>, received: seq<nat>)
    requires AllFailed(outcomes, received)
    ensures received != [] ==> AnyFailed(outcomes)
  {
    if received != [] {
      assert outcomes[received[0]].Failed?;
    }
  }

  lemma EverythingIsAnswered<T, E>(outcomes: seq<Outcome<T, E>>, s: State<T, E>)
    requires Inv(outcomes, s) && s.main == Returned && !AnyFailed(outcomes)
    ensures ListsSources(s.received, |outcomes|) && AllFound(outcomes, s.received)
    ensures Answered(s) == Ok(Blocks(outcomes, s.received))
  {
    ErrorMeansFailure(outcomes, s.receivedErrs);
    forall i: nat | i < |outcomes| ensures i in s.received {
      assert HasSent(s.workers[i]) && outcomes[i].Found?;
    }
  }

  function AllItems<T, E>(outcomes: seq<Outcome<T, E>>): multiset<T> {
    if outcomes == [] then multiset{} else
    AllItems(outcomes[..|outcomes| - 1]) +
      match outcomes[|outcomes| - 1] { case Found(items) => multiset(items) case Failed(_) => multiset{} }
  }

  function Without(order: seq<nat>, j: nat): seq<nat>
    requires j < |order|
  {
    order[..j] + order[j + 1..]
  }

  /** Leaving one source out leaves the blocks of the others. */
  lemma {:induction false} BlocksWithout<T, E>(outcomes: seq<Outcome<T, E>>, order: seq<nat>, j: nat)
    requires j < |order| && AllFound(outcomes, order)
    ensures AllFound(outcomes, Without(order, j))
    ensures multiset(Blocks(outcomes, order))
      == multiset(Blocks(outcomes, Without(order, j))) + multiset(outcomes[order[j]].items)
  {
    var front, last := order[..|order| - 1], order[|order| - 1];
    WithoutAtEnd(order, j);
    if j < |front| {
      BlocksWithout(outcomes, front, j);
      BlocksOneMore(outcomes, Without(front, j), last);
      assert front[j] == order[j];
      MultisetSwap(Blocks(outcomes, front), Blocks(outcomes, Without(front, j)), outcomes[order[j]].items,
                   outcomes[last].items);
    }
  }

  lemma MultisetSwap<T>(all: seq<T>, rest: seq<T>, one: seq<T>, last: seq<T>)
    requires multiset(all) == multiset(rest) + multiset(one)
    ensures multiset(all + last) == multiset(rest + last) + multiset(one)
  {
  }

  lemma WithoutAtEnd(order: seq<nat>, j: nat)
    requires j < |order|
    ensures
      var front, last := order[..|order| - 1], order[|order| - 1];
      Without(order, j) == if j < |front| then Without(front, j) + [last] else front
  {
  }

  /** The results of a source heard later come after those of the sources heard before. */
  lemma BlocksOneMore<T, E>(outcomes: seq<Outcome<T, E>>, order: seq<nat>, i: nat)
    requires AllFound(outcomes, order) && i < |outcomes| && outcomes[i].Found?
    ensures AllFound(outcomes, order + [i])
    ensures Blocks(outcomes, order + [i]) == Blocks(outcomes, order) + outcomes[i].items
  {
    assert (order + [i])[..|order|] == order;
  }

  lemma {:induction false} BlocksShorter<T, E>(outcomes: seq<Outcome<T, E>>, order: seq<nat>, n: nat)
    requires n <= |outcomes| && AllFound(outcomes[..n], order)
    ensures AllFound(outcomes, order)
    ensures Blocks(outcomes[..n], order) == Blocks(outcomes, order)
  {
    if order != [] {
      BlocksShorter(outcomes, order[..|order| - 1], n);
    }
  }

  /** Whatever the order of arrival, the answer holds the same results as often. */
  lemma {:induction false} BlocksIgnoreOrder<T, E>(outcomes: seq<Outcome<T, E>>, order: seq<nat>)
    requires ListsSources(order, |outcomes|) && AllFound(outcomes, order)
    ensures multiset(Blocks(outcomes, order)) == AllItems(outcomes)
  {
    if outcomes == [] {
      assert order == [];
    } else {
      var n := |outcomes| - 1;
      assert n in order;
      var j :| 0 <= j < |order| && order[j] == n;
      var rest := Without(order, j);
      WithoutLast(order, j, n);
      BlocksWithout(outcomes, order, j);
      assert AllFound(outcomes[..n], rest);
      BlocksShorter(outcomes, rest, n);
      BlocksIgnoreOrder(outcomes[..n], rest);
    }
  }

  lemma WithoutLast(order: seq<nat>, j: nat, n: nat)
    requires ListsSources(order, n + 1) && j < |order| && order[j] == n
    ensures ListsSources(Without(order, j), n)
  {
    var rest := Without(order, j);
    forall k | 0 <= k < |rest| ensures rest[k] < n {
      assert rest[k] == order[if k < j then k else k + 1];
    }
    forall i: nat | i < n ensures i in rest {
      assert i in order;
      var k :| 0 <= k < |order| && order[k] == i;
      assert rest[if k < j then k else k - 1] == i;
    }
  }

  /** Two runs over the same answers, however scheduled, agree on success and on what a success returns, up to order. */
  lemma AnswerIgnoresSchedule<T, E>(outcomes: seq<Outcome<T, E>>, states1: seq<State<T, E>>, steps1: seq<Step>, k1: nat,
                                    states2: seq<State<T, E>>, steps2: seq<Step>, k2: nat)
    requires IsExecution(outcomes, states1, steps1) && k1 < |states1| && states1[k1].main == Returned
    requires IsExecution(outcomes, states2, steps2) && k2 < |states2| && states2[k2].main == Returned
    ensures Answered(states1[k1]).Err? <==> Answered(states2[k2]).Err?
    ensures Answered(states1[k1]).Ok? ==>
      multiset(Answered(states1[k1]).value) == multiset(Answered(states2[k2]).value) == AllItems(outcomes)
  {
    AnswerIsGathered(outcomes, states1, steps1, k1);
    AnswerIsGathered(outcomes, states2, steps2, k2);
    if !AnyFailed(outcomes) {
      BlocksIgnoreOrder(outcomes, states1[k1].received);
      BlocksIgnoreOrder(outcomes, states2[k2].received);
    }
  }
}
