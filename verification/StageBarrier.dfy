// The barrier between stages, over all interleavings of the attestors of a stage (attestation/context.go).
module StageBarrier {
  import opened Options
  import opened Digests
  import opened Collections
  import opened Stages

  datatype Worker = Idle | Running | Recorded | MaterialsAdded | Finished

  /** The thread in `RunAttestors`, with the stage it is at. */
  datatype Main = Preparing(k: nat) | Launching(k: nat) | Joining(k: nat) | Returned(error: Option<RunError>)

  /** What an attestor saw when it asked for the materials and products. */
  datatype View = View(runner: nat, materials: map<string, DigestSet>, products: map<string, Product>)

  datatype State = State(
    main: Main,
    workers: seq<Worker>,
    shared: Contents,
    ghost views: seq<View>)

  /** The attestors, the stages to go through, and what each attestor comes to in this run. */
  datatype Setup = Setup(runners: seq<Runner>, order: seq<string>, outcomes: seq<Outcome>)

  ghost predicate Valid(c: Setup) {
    && |c.outcomes| == |c.runners|
    && (forall j, k :: 0 <= j < k < |c.order| ==> c.order[j] != c.order[k])
  }

  /** The stages of a plan are distinct, so every plan can be run. */
  lemma PlansAreValid(runners: seq<Runner>, order: seq<string>, outcomes: seq<Outcome>)
    requires Plans(runners, Ok(order)) && |outcomes| == |runners|
    ensures Valid(Setup(runners, order, outcomes))
  {
    assert |RUN_TYPE_ORDER[0]| == 11 && |RUN_TYPE_ORDER[1]| == 8 && |RUN_TYPE_ORDER[2]| == 7
      && |RUN_TYPE_ORDER[3]| == 7 && |RUN_TYPE_ORDER[4]| == 11;
    assert RUN_TYPE_ORDER[0][1] != RUN_TYPE_ORDER[4][1] && RUN_TYPE_ORDER[2][0] != RUN_TYPE_ORDER[3][0];
  }

  datatype Step =
    | StartStage                      // the declaration phase goes well
    | RefuseStage(error: RunError)
    | Spawn(i: nat)
    | EndSpawn
    | Look(i: nat)                    // attestor `i` reads the materials and products
    | Complete(i: nat)                // its Attest returns, and the completion is recorded
    | AddMaterials(i: nat)
    | AddProducts(i: nat)
    | WaitReturns
    | Finish

  function StageOf(c: Setup, i: nat): (k: nat)
    requires i < |c.runners|
    ensures k <= |c.order|
  {
    Position(c.order, c.runners[i].runType)
  }

  ghost predicate StageDone(c: Setup, s: State, k: nat) {
    forall i: nat :: i < |s.workers| == |c.runners| && StageOf(c, i) == k ==> s.workers[i] == Finished
  }

  ghost predicate StageSpawned(c: Setup, s: State, k: nat) {
    forall i: nat :: i < |s.workers| == |c.runners| && StageOf(c, i) == k ==> s.workers[i] != Idle
  }

  ghost predicate Enabled(c: Setup, s: State, step: Step) {
    match step
    case StartStage =>
      && s.main.Preparing? && s.main.k < |c.order|
      && (forall i :: 0 <= i < |c.runners| && c.runners[i].runType == c.order[s.main.k] ==> MayDeclare(c.runners[i]))
    case RefuseStage(e) =>
      && s.main.Preparing? && s.main.k < |c.order|
      && (exists i :: 0 <= i < |c.runners| && c.runners[i].runType == c.order[s.main.k] && Offends(c.runners[i], e))
    case Spawn(i) =>
      s.main.Launching? && i < |s.workers| == |c.runners| && s.workers[i] == Idle && StageOf(c, i) == s.main.k
    case EndSpawn => s.main.Launching? && StageSpawned(c, s, s.main.k)
    case Look(i) => i < |s.workers| && s.workers[i] == Running
    case Complete(i) => i < |s.workers| == |c.outcomes| && s.workers[i] == Running
    case AddMaterials(i) => i < |s.workers| == |c.outcomes| && s.workers[i] == Recorded
    case AddProducts(i) => i < |s.workers| == |c.outcomes| && s.workers[i] == MaterialsAdded
    case WaitReturns => s.main.Joining? && StageDone(c, s, s.main.k)
    case Finish => s.main.Preparing? && s.main.k >= |c.order|
  }

  ghost function Apply(c: Setup, s: State, step: Step): State
    requires Enabled(c, s, step)
  {
    match step
    case StartStage => s.(main := Launching(s.main.k))
    case RefuseStage(e) => s.(main := Returned(Some(e)))
    case Spawn(i) => s.(workers := s.workers[i := Running])
    case EndSpawn => s.(main := Joining(s.main.k))
    case Look(i) => s.(views := s.views + [View(i, s.shared.materials, s.shared.products)])
    case Complete(i) =>
      s.(workers := s.workers[i := if c.outcomes[i].ok then Recorded else Finished],
         shared := AfterCompletion(s.shared, i, c.outcomes[i].ok))
    case AddMaterials(i) =>
      s.(workers := s.workers[i := MaterialsAdded],
         shared := AfterMaterials(s.shared, c.outcomes[i].materials.GetOr(map[])))
    case AddProducts(i) =>
      s.(workers := s.workers[i := Finished], shared := AfterProducts(s.shared, c.outcomes[i].products.GetOr(map[])))
    case WaitReturns => s.(main := Preparing(s.main.k + 1))
    case Finish => s.(main := Returned(None))
  }

  ghost predicate Initial(c: Setup, s: State) {
    && |s.workers| == |c.runners| && (forall i :: 0 <= i < |s.workers| ==> s.workers[i] == Idle)
    && s == State(Preparing(0), s.workers, EMPTY, [])
  }

  ghost predicate IsExecution(c: Setup, states: seq<State>, steps: seq<Step>) {
    && Valid(c) && |states| == |steps| + 1 && Initial(c, states[0])
    && (forall k :: 0 <= k < |steps| ==> Moves(c, states, steps, k))
  }

  ghost predicate Moves(c: Setup, states: seq<State>, steps: seq<Step>, k: nat)
    requires k < |steps| < |states|
  {
    Enabled(c, states[k], steps[k]) && states[k + 1] == Apply(c, states[k], steps[k])
  }

  // ---- who has run, and in which order --------------------------------------------------------

  /** Earlier stages are over and later ones have not begun. */
  ghost predicate StagesOk(c: Setup, s: State) {
    && |s.workers| == |c.runners|
    && (forall i: nat :: i < |c.runners| ==> WorkerOk(c, s.main, i, s.workers[i]))
  }

  ghost predicate WorkerOk(c: Setup, main: Main, i: nat, w: Worker)
    requires i < |c.runners|
  {
    match main
    case Preparing(k) => (StageOf(c, i) < k ==> w == Finished) && (StageOf(c, i) >= k ==> w == Idle) && k <= |c.order|
    case Launching(k) =>
      (StageOf(c, i) < k ==> w == Finished) && (StageOf(c, i) > k ==> w == Idle) && k < |c.order|
    case Joining(k) =>
      && (StageOf(c, i) < k ==> w == Finished) && (StageOf(c, i) > k ==> w == Idle) && (StageOf(c, i) == k ==> w != Idle)
      && k < |c.order|
    case Returned(e) => (w == Idle || w == Finished) && (e.None? ==> (w == Finished <==> StageOf(c, i) < |c.order|))
  }

  predicate HasCompleted(w: Worker) {
    w == Recorded || w == MaterialsAdded || w == Finished
  }

  /** The completions, one for each attestor that is done, sorted by stage. */
  ghost predicate CompletedOk(c: Setup, s: State) {
    && |s.workers| == |c.runners| == |c.outcomes|
    && (forall j :: 0 <= j < |s.shared.completed| ==> CompletionOk(c, s, s.shared.completed[j]))
    && (forall i: nat :: i < |s.workers| && HasCompleted(s.workers[i]) ==> Completion(i, c.outcomes[i].ok) in s.shared.completed)
    && SortedOnce(c, s.shared.completed)
  }

  ghost predicate CompletionOk(c: Setup, s: State, done: Completion)
    requires |s.workers| == |c.runners| == |c.outcomes|
  {
    done.runner < |s.workers| && HasCompleted(s.workers[done.runner]) && done.ok == c.outcomes[done.runner].ok
  }

  ghost predicate SortedOnce(c: Setup, completed: seq<Completion>) {
    && (forall j :: 0 <= j < |completed| ==> completed[j].runner < |c.runners|)
    && (forall j, l :: 0 <= j < l < |completed| ==>
          && completed[j].runner != completed[l].runner
          && StageOf(c, completed[j].runner) <= StageOf(c, completed[l].runner))
  }

  lemma StagesPreserved(c: Setup, s: State, step: Step)
    requires Valid(c) && StagesOk(c, s) && Enabled(c, s, step)
    ensures StagesOk(c, Apply(c, s, step))
  {
    if step == WaitReturns || step == EndSpawn {
      ForwardPreservesStages(c, s, step);
    }
  }

  lemma ForwardPreservesStages(c: Setup, s: State, step: Step)
    requires Valid(c) && StagesOk(c, s) && Enabled(c, s, step) && (step == WaitReturns || step == EndSpawn)
    ensures StagesOk(c, Apply(c, s, step))
  {
    forall i: nat | i < |c.runners| ensures WorkerOk(c, Apply(c, s, step).main, i, s.workers[i]) {
      assert WorkerOk(c, s.main, i, s.workers[i]);
    }
  }

  /** The attestor that completes is of the current stage, and all that completed before are of this or earlier stages. */
  lemma CompletingIsLatest(c: Setup, s: State, i: nat)
    requires StagesOk(c, s) && i < |s.workers| && s.workers[i] != Idle && s.workers[i] != Finished
    ensures forall j: nat :: j < |s.workers| && s.workers[j] != Idle ==> StageOf(c, j) <= StageOf(c, i)
    ensures forall j: nat :: j < |s.workers| && StageOf(c, j) < StageOf(c, i) ==> s.workers[j] == Finished
  {
    assert WorkerOk(c, s.main, i, s.workers[i]);
    forall j: nat | j < |s.workers|
      ensures s.workers[j] != Idle ==> StageOf(c, j) <= StageOf(c, i)
      ensures StageOf(c, j) < StageOf(c, i) ==> s.workers[j] == Finished
    {
      assert WorkerOk(c, s.main, j, s.workers[j]);
    }
  }

  lemma EarlierCompletionsStay(c: Setup, s: State, i: nat)
    requires StagesOk(c, s) && CompletedOk(c, s) && Enabled(c, s, Complete(i))
    ensures forall j :: 0 <= j < |s.shared.completed| ==>
      && CompletionOk(c, Apply(c, s, Complete(i)), s.shared.completed[j]) && s.shared.completed[j].runner != i
      && StageOf(c, s.shared.completed[j].runner) <= StageOf(c, i)
  {
    CompletingIsLatest(c, s, i);
    forall j | 0 <= j < |s.shared.completed|
      ensures CompletionOk(c, Apply(c, s, Complete(i)), s.shared.completed[j]) && s.shared.completed[j].runner != i
      ensures StageOf(c, s.shared.completed[j].runner) <= StageOf(c, i)
    {
      assert CompletionOk(c, s, s.shared.completed[j]);
    }
  }

  lemma CompletePreservesCompleted(c: Setup, s: State, i: nat)
    requires StagesOk(c, s) && CompletedOk(c, s) && Enabled(c, s, Complete(i))
    ensures CompletedOk(c, Apply(c, s, Complete(i)))
  {
    EarlierCompletionsStay(c, s, i);
    var t := Apply(c, s, Complete(i));
    assert t.shared.completed == s.shared.completed + [Completion(i, c.outcomes[i].ok)];
    forall k: nat | k < |t.workers| && HasCompleted(t.workers[k])
      ensures Completion(k, c.outcomes[k].ok) in t.shared.completed
    {
      assert k == i || Completion(k, c.outcomes[k].ok) in s.shared.completed;
    }
  }
  lemma CompletedPreserved(c: Setup, s: State, step: Step)
    requires Valid(c) && StagesOk(c, s) && CompletedOk(c, s) && Enabled(c, s, step)
    ensures CompletedOk(c, Apply(c, s, step))
  {
    if step.Complete? {
      CompletePreservesCompleted(c, s, step.i);
    } else {
      var t := Apply(c, s, step);
      forall j | 0 <= j < |t.shared.completed| ensures CompletionOk(c, t, t.shared.completed[j]) {
        assert CompletionOk(c, s, s.shared.completed[j]);
      }
    }
  }

  // ---- where the values come from -------------------------------------------------------------

  /**
   * The map holds what the contributors in `added` supplied, and on each path the value of one of those of the latest
   * stage that supplied it.
   */
  ghost predicate FromLatest<V>(supplied: seq<map<string, V>>, stage: seq<nat>, added: set<nat>, m: map<string, V>)
    requires |supplied| == |stage| && forall i :: i in added ==> i < |supplied|
  {
    && (forall i, path :: i in added && path in supplied[i] ==> path in m)
    && (forall path :: path in m ==> exists i :: IsSource(supplied, stage, added, m, path, i))
  }

  ghost predicate IsSource<V>(supplied: seq<map<string, V>>, stage: seq<nat>, added: set<nat>, m: map<string, V>,
                              path: string, i: nat)
    requires |supplied| == |stage| && path in m && forall j :: j in added ==> j < |supplied|
  {
    && i in added && path in supplied[i] && m[path] == supplied[i][path]
    && (forall j :: j in added && path in supplied[j] ==> stage[j] <= stage[i])
  }

  /** Adding a contributor of the current stage keeps that. */
  lemma AddingKeepsLatest<V>(supplied: seq<map<string, V>>, stage: seq<nat>, added: set<nat>, m: map<string, V>, i: nat)
    requires |supplied| == |stage| && i < |supplied| && forall j :: j in added ==> j < |supplied|
    requires FromLatest(supplied, stage, added, m) && forall j :: j in added ==> stage[j] <= stage[i]
    ensures FromLatest(supplied, stage, added + {i}, m + supplied[i])
  {
    var after := m + supplied[i];
    forall path | path in after ensures exists k :: IsSource(supplied, stage, added + {i}, after, path, k) {
      if path in supplied[i] {
        assert IsSource(supplied, stage, added + {i}, after, path, i);
      } else {
        var k :| IsSource(supplied, stage, added, m, path, k);
        assert IsSource(supplied, stage, added + {i}, after, path, k);
      }
    }
  }

  /** What each attestor supplies: nothing when it fails. */
  function SuppliedMaterials(c: Setup): (supplied: seq<map<string, DigestSet>>)
    ensures |supplied| == |c.outcomes|
  {
    seq(|c.outcomes|, i requires 0 <= i < |c.outcomes| =>
      if c.outcomes[i].ok then c.outcomes[i].materials.GetOr(map[]) else map[])
  }

  function SuppliedProducts(c: Setup): (supplied: seq<map<string, Product>>)
    ensures |supplied| == |c.outcomes|
  {
    seq(|c.outcomes|, i requires 0 <= i < |c.outcomes| =>
      if c.outcomes[i].ok then c.outcomes[i].products.GetOr(map[]) else map[])
  }

  function StageNumbers(c: Setup): (stage: seq<nat>)
    ensures |stage| == |c.runners|
  {
    seq(|c.runners|, i requires 0 <= i < |c.runners| => StageOf(c, i))
  }

  function AddedMaterials(c: Setup, s: State): set<nat>
    requires |s.workers| == |c.outcomes|
  {
    set i: nat | i < |s.workers| && c.outcomes[i].ok && (s.workers[i] == MaterialsAdded || s.workers[i] == Finished)
  }

  function AddedProducts(c: Setup, s: State): set<nat>
    requires |s.workers| == |c.outcomes|
  {
    set i: nat | i < |s.workers| && c.outcomes[i].ok && s.workers[i] == Finished
  }

  /** A failed attestor is never between recording and finishing. */
  ghost predicate AddersOk(c: Setup, s: State) {
    && |s.workers| == |c.outcomes| == |c.runners|
    && (forall i: nat :: i < |s.workers| && !c.outcomes[i].ok ==> s.workers[i] != Recorded && s.workers[i] != MaterialsAdded)
  }

  ghost predicate ValuesOk(c: Setup, s: State) {
    && AddersOk(c, s)
    && FromLatest(SuppliedMaterials(c), StageNumbers(c), AddedMaterials(c, s), s.shared.materials)
    && FromLatest(SuppliedProducts(c), StageNumbers(c), AddedProducts(c, s), s.shared.products)
  }

  /**
   * The map holds what all attestors of earlier stages and some of the same stage supplied, and on each path the value of
   * one of those of the latest stage that supplied it.
   */
  ghost predicate SeesLatest<V>(c: Setup, supplied: seq<map<string, V>>, m: map<string, V>, runner: nat)
    requires |supplied| == |c.outcomes| == |c.runners| && runner < |c.runners|
  {
    exists added: set<nat> :: HasEarlier(c, added, runner) && FromLatest(supplied, StageNumbers(c), added, m)
  }

  /** The successful attestors of all earlier stages, perhaps some of the same stage, and none of a later one. */
  ghost predicate HasEarlier(c: Setup, added: set<nat>, runner: nat)
    requires |c.outcomes| == |c.runners| && runner < |c.runners|
  {
    && (forall j: nat :: j in added ==> j < |c.runners| && c.outcomes[j].ok && StageOf(c, j) <= StageOf(c, runner))
    && (forall j: nat :: j < |c.runners| && c.outcomes[j].ok && StageOf(c, j) < StageOf(c, runner) ==> j in added)
  }

  /** What an attestor sees is what the earlier stages left, with additions of its own stage. */
  ghost predicate ViewOk(c: Setup, v: View) {
    && v.runner < |c.runners| == |c.outcomes|
    && SeesLatest(c, SuppliedMaterials(c), v.materials, v.runner)
    && SeesLatest(c, SuppliedProducts(c), v.products, v.runner)
  }

  lemma AddMaterialsPreservesValues(c: Setup, s: State, i: nat)
    requires StagesOk(c, s) && ValuesOk(c, s) && Enabled(c, s, AddMaterials(i))
    ensures ValuesOk(c, Apply(c, s, AddMaterials(i)))
  {
    CompletingIsLatest(c, s, i);
    var t := Apply(c, s, AddMaterials(i));
    AddingKeepsLatest(SuppliedMaterials(c), StageNumbers(c), AddedMaterials(c, s), s.shared.materials, i);
    assert AddedMaterials(c, t) == AddedMaterials(c, s) + {i};
    assert AddedProducts(c, t) == AddedProducts(c, s);
  }

  lemma AddProductsPreservesValues(c: Setup, s: State, i: nat)
    requires StagesOk(c, s) && ValuesOk(c, s) && Enabled(c, s, AddProducts(i))
    ensures ValuesOk(c, Apply(c, s, AddProducts(i)))
  {
    CompletingIsLatest(c, s, i);
    var t := Apply(c, s, AddProducts(i));
    AddingKeepsLatest(SuppliedProducts(c), StageNumbers(c), AddedProducts(c, s), s.shared.products, i);
    assert AddedMaterials(c, t) == AddedMaterials(c, s);
    assert AddedProducts(c, t) == AddedProducts(c, s) + {i};
  }

  lemma ValuesPreserved(c: Setup, s: State, step: Step)
    requires StagesOk(c, s) && ValuesOk(c, s) && Enabled(c, s, step)
    ensures ValuesOk(c, Apply(c, s, step))
  {
    if step.AddMaterials? {
      AddMaterialsPreservesValues(c, s, step.i);
    } else if step.AddProducts? {
      AddProductsPreservesValues(c, s, step.i);
    } else {
      var t := Apply(c, s, step);
      assert AddedMaterials(c, t) == AddedMaterials(c, s);
      assert AddedProducts(c, t) == AddedProducts(c, s);
    }
  }

  lemma LookSeesEarlierStages(c: Setup, s: State, i: nat)
    requires StagesOk(c, s) && ValuesOk(c, s) && Enabled(c, s, Look(i))
    ensures ViewOk(c, View(i, s.shared.materials, s.shared.products))
  {
    CompletingIsLatest(c, s, i);
    assert HasEarlier(c, AddedMaterials(c, s), i);
    assert HasEarlier(c, AddedProducts(c, s), i);
  }

  ghost predicate ViewsOk(c: Setup, s: State) {
    forall v :: v in s.views ==> ViewOk(c, v)
  }

  ghost predicate Inv(c: Setup, s: State) {
    StagesOk(c, s) && CompletedOk(c, s) && ValuesOk(c, s) && ViewsOk(c, s)
  }

  lemma StepPreserves(c: Setup, s: State, step: Step)
    requires Valid(c) && Inv(c, s) && Enabled(c, s, step)
    ensures Inv(c, Apply(c, s, step))
  {
    StagesPreserved(c, s, step);
    CompletedPreserved(c, s, step);
    ValuesPreserved(c, s, step);
    if step.Look? {
      LookSeesEarlierStages(c, s, step.i);
    }
  }

  lemma InitialInv(c: Setup, s: State)
    requires Valid(c) && Initial(c, s)
    ensures Inv(c, s)
  {
    assert AddedMaterials(c, s) == {} && AddedProducts(c, s) == {};
  }

  lemma Invariant(c: Setup, states: seq<State>, steps: seq<Step>, k: nat)
    requires IsExecution(c, states, steps) && k < |states|
    ensures Inv(c, states[k])
  {
    InitialInv(c, states[0]);
    for j := 0 to k
      invariant Inv(c, states[j])
    {
      assert Moves(c, states, steps, j);
      StepPreserves(c, states[j], steps[j]);
    }
  }

  // ---- what the barrier guarantees ------------------------------------------------------------

  /** `completed` records attestor `i` exactly once. */
  ghost predicate RecordedOnce(completed: seq<Completion>, i: nat, ok: bool) {
    exists j :: 0 <= j < |completed| && completed[j] == Completion(i, ok)
      && (forall l :: 0 <= l < |completed| && completed[l].runner == i ==> l == j)
  }

  /**
   * However the attestors of a stage interleave, after a nil return each attestor whose run type is among the stages has
   * completed exactly once, no other has run, and the completions are sorted by stage.
   */
  lemma EveryoneCompletesInOrder(c: Setup, states: seq<State>, steps: seq<Step>, k: nat)
    requires IsExecution(c, states, steps) && k < |states| && states[k].main == Returned(None)
    ensures |states[k].workers| == |c.runners|
    ensures forall i: nat :: i < |c.runners| && StageOf(c, i) < |c.order| ==>
      RecordedOnce(states[k].shared.completed, i, c.outcomes[i].ok)
    ensures forall i: nat :: i < |c.runners| && StageOf(c, i) == |c.order| ==> states[k].workers[i] == Idle
    ensures SortedOnce(c, states[k].shared.completed)
  {
    Invariant(c, states, steps, k);
    var s := states[k];
    forall i: nat | i < |c.runners|
      ensures StageOf(c, i) < |c.order| ==> RecordedOnce(s.shared.completed, i, c.outcomes[i].ok)
      ensures StageOf(c, i) == |c.order| ==> s.workers[i] == Idle
    {
      assert WorkerOk(c, s.main, i, s.workers[i]);
      if StageOf(c, i) < |c.order| {
        assert Completion(i, c.outcomes[i].ok) in s.shared.completed;
        var j :| 0 <= j < |s.shared.completed| && s.shared.completed[j] == Completion(i, c.outcomes[i].ok);
        assert RecordedOnce(s.shared.completed, i, c.outcomes[i].ok);
      }
    }
  }

  /** Materials are attested before the command runs, and products after it. */
  function Rank(runType: string): nat {
    if runType == "prematerial" then 0
    else if runType == "material" then 1
    else if runType == "execute" then 2
    else if runType == "product" then 3
    else if runType == "postproduct" then 4
    else 5
  }

  lemma PositionIsRank(t: string)
    ensures Position(RUN_TYPE_ORDER, t) == Rank(t)
  {
    var five := RUN_TYPE_ORDER;
    assert five[1..] == ["material", EXECUTE, "product", "postproduct"];
    assert five[1..][1..] == [EXECUTE, "product", "postproduct"];
    assert five[1..][1..][1..] == ["product", "postproduct"];
    assert five[1..][1..][1..][1..] == ["postproduct"] && ["postproduct"][1..] == [];
    assert Position(["postproduct"], t) == if t == "postproduct" then 0 else 1;
    assert Position(["product", "postproduct"], t) == if t == "product" then 0 else 1 + Position(["postproduct"], t);
    assert Position(five[1..][1..], t) == if t == EXECUTE then 0 else 1 + Position(["product", "postproduct"], t);
    assert Position(five[1..], t) == if t == "material" then 0 else 1 + Position(five[1..][1..], t);
  }

  /** Every attestor that has completed by the end did so before those of a later kind, whatever the interleaving. */
  lemma KindsCompleteInOrder(c: Setup, states: seq<State>, steps: seq<Step>, k: nat, j: nat, l: nat)
    requires Plans(c.runners, Ok(c.order)) && c.order != [VERIFY]
    requires IsExecution(c, states, steps) && k < |states|
    requires j < |states[k].shared.completed| && l < |states[k].shared.completed|
    ensures
      var first, second := states[k].shared.completed[j].runner, states[k].shared.completed[l].runner;
      && first < |c.runners| && second < |c.runners|
      && (Rank(c.runners[first].runType) < Rank(c.runners[second].runType) ==> j < l)
  {
    Invariant(c, states, steps, k);
    var completed := states[k].shared.completed;
    PositionIsRank(c.runners[completed[j].runner].runType);
    PositionIsRank(c.runners[completed[l].runner].runType);
    assert StageOf(c, completed[j].runner) == Rank(c.runners[completed[j].runner].runType);
    assert StageOf(c, completed[l].runner) == Rank(c.runners[completed[l].runner].runType);
    assert l < j ==> StageOf(c, completed[l].runner) <= StageOf(c, completed[j].runner);
  }

  /** Whatever an attestor looks at is what the stages before its own left, overlaid by some of its own stage only. */
  lemma EarlierStagesAreVisible(c: Setup, states: seq<State>, steps: seq<Step>, k: nat, v: View)
    requires IsExecution(c, states, steps) && k < |states| && v in states[k].views
    ensures ViewOk(c, v)
  {
    Invariant(c, states, steps, k);
  }

  /** Attestor `i` succeeded, was among the stages, and supplied the final value of the path. */
  ghost predicate Decides<V>(c: Setup, supplied: seq<map<string, V>>, m: map<string, V>, path: string, i: nat)
    requires |supplied| == |c.outcomes| == |c.runners| && path in m
  {
    && i < |c.runners| && c.outcomes[i].ok && StageOf(c, i) < |c.order|
    && path in supplied[i] && m[path] == supplied[i][path]
    && (forall j: nat :: j < |c.runners| && StageOf(c, j) < |c.order| && path in supplied[j] ==> StageOf(c, j) <= StageOf(c, i))
  }

  /** Every final value is decided by someone, and nothing that was supplied is lost. */
  ghost predicate AllDecided<V>(c: Setup, supplied: seq<map<string, V>>, m: map<string, V>)
    requires |supplied| == |c.outcomes| == |c.runners|
  {
    && (forall path :: path in m ==> exists i :: Decides(c, supplied, m, path, i))
    && (forall i: nat, path :: i < |c.runners| && StageOf(c, i) < |c.order| && path in supplied[i] ==> path in m)
  }

  /** `added` are the successful attestors among the stages. */
  ghost predicate EveryoneAdded(c: Setup, added: set<nat>)
    requires |c.outcomes| == |c.runners|
  {
    forall i: nat :: i in added <==> i < |c.runners| && c.outcomes[i].ok && StageOf(c, i) < |c.order|
  }

  lemma LatestDecides<V>(c: Setup, supplied: seq<map<string, V>>, added: set<nat>, m: map<string, V>)
    requires |supplied| == |c.outcomes| == |c.runners| && EveryoneAdded(c, added)
    requires FromLatest(supplied, StageNumbers(c), added, m)
    requires forall i :: 0 <= i < |supplied| && !c.outcomes[i].ok ==> supplied[i] == map[]
    ensures AllDecided(c, supplied, m)
  {
    forall path | path in m ensures exists i :: Decides(c, supplied, m, path, i) {
      var i :| IsSource(supplied, StageNumbers(c), added, m, path, i);
      forall j: nat | j < |c.runners| && StageOf(c, j) < |c.order| && path in supplied[j]
        ensures StageOf(c, j) <= StageOf(c, i)
      {
        assert j in added;
      }
      assert Decides(c, supplied, m, path, i);
    }
    forall i: nat, path | i < |c.runners| && StageOf(c, i) < |c.order| && path in supplied[i] ensures path in m {
      assert i in added;
    }
  }

  /** Every final value comes from a successful attestor in the latest stage that supplied its path, and none is lost. */
  lemma FinalValuesAreLatest(c: Setup, states: seq<State>, steps: seq<Step>, k: nat)
    requires IsExecution(c, states, steps) && k < |states| && states[k].main == Returned(None)
    ensures |c.outcomes| == |c.runners|
    ensures AllDecided(c, SuppliedMaterials(c), states[k].shared.materials)
    ensures AllDecided(c, SuppliedProducts(c), states[k].shared.products)
  {
    Invariant(c, states, steps, k);
    AddedAtEnd(c, states[k]);
    LatestDecides(c, SuppliedMaterials(c), AddedMaterials(c, states[k]), states[k].shared.materials);
    LatestDecides(c, SuppliedProducts(c), AddedProducts(c, states[k]), states[k].shared.products);
  }

  lemma AddedAtEnd(c: Setup, s: State)
    requires StagesOk(c, s) && AddersOk(c, s) && s.main == Returned(None)
    ensures EveryoneAdded(c, AddedMaterials(c, s)) && EveryoneAdded(c, AddedProducts(c, s))
  {
    forall i: nat | i < |c.runners| ensures s.workers[i] == Finished <==> StageOf(c, i) < |c.order| {
      assert WorkerOk(c, s.main, i, s.workers[i]);
    }
    forall i: nat | i < |c.runners| ensures s.workers[i] == Finished || s.workers[i] == Idle {
      assert WorkerOk(c, s.main, i, s.workers[i]);
    }
  }
}
