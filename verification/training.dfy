/** The training simulator: start, pause and reset buttons, an interval that
    advances the epoch counter (to 50) and the progress bar (by 2 to 100),
    and the choice of which model's accuracy is shown. */
module Training {
  import opened Wrappers

  const FinalEpoch: int := 50
  const FullProgress: int := 100

  datatype TrainState = TrainState(isTraining: bool, currentEpoch: int, trainingProgress: int)

  /** The three `useState` initial values. */
  const Initial: TrainState := TrainState(false, 0, 0)

  /** Epoch and progress move together: the progress is always twice the
      epoch, so the epoch stays in [0, 50] and the progress is even and in
      [0, 100]. */
  ghost predicate Inv(s: TrainState)
  {
    0 <= s.currentEpoch <= FinalEpoch && s.trainingProgress == 2 * s.currentEpoch
  }

  /** `startTraining` before it schedules the interval. */
  function Start(s: TrainState): (t: TrainState)
    ensures t.isTraining && t.currentEpoch == 0 && t.trainingProgress == 0
    ensures Inv(t)
  {
    TrainState(true, 0, 0)
  }

  /** `stopTraining` (the Pause button). */
  function Stop(s: TrainState): (t: TrainState)
    ensures !t.isTraining
    ensures t.currentEpoch == s.currentEpoch && t.trainingProgress == s.trainingProgress
    ensures Inv(s) ==> Inv(t)
  {
    s.(isTraining := false)
  }

  /** `resetTraining`. */
  function Reset(s: TrainState): (t: TrainState)
    ensures t == Initial && Inv(t)
  {
    TrainState(false, 0, 0)
  }

  /** The tick stops its interval exactly when it finds the last epoch done. */
  predicate StopsInterval(s: TrainState)
  {
    s.currentEpoch >= FinalEpoch
  }

  /** The `setCurrentEpoch` updater of one tick. */
  function EpochTick(s: TrainState): TrainState
  {
    if s.currentEpoch >= FinalEpoch then s.(isTraining := false, currentEpoch := FinalEpoch)
    else s.(currentEpoch := s.currentEpoch + 1)
  }

  /** The `setTrainingProgress` updater of one tick. */
  function ProgressTick(s: TrainState): TrainState
  {
    if s.trainingProgress >= FullProgress then s.(trainingProgress := FullProgress)
    else s.(trainingProgress := s.trainingProgress + 2)
  }

  /** One firing of the interval: both updaters, epoch first. */
  function Step(s: TrainState): (t: TrainState)
    ensures Inv(s) ==> Inv(t)
    ensures Inv(s) && s.currentEpoch < FinalEpoch ==>
      t == TrainState(s.isTraining, s.currentEpoch + 1, s.trainingProgress + 2)
    ensures Inv(s) && StopsInterval(s) ==> t == TrainState(false, FinalEpoch, FullProgress)
  {
    ProgressTick(EpochTick(s))
  }

  /** The state `n` ticks after Start. */
  function TicksAfterStart(n: nat): TrainState
  {
    if n == 0 then Start(Initial) else Step(TicksAfterStart(n - 1))
  }

  /** A training run: epoch n and progress 2n for the first 50 ticks, the
      flag up throughout; tick 51 drops the flag, and nothing moves after. */
  lemma {:induction false} TrainingSchedule(n: nat)
    ensures n <= 50 ==> TicksAfterStart(n) == TrainState(true, n, 2 * n)
    ensures n > 50 ==> TicksAfterStart(n) == TrainState(false, FinalEpoch, FullProgress)
  {
    if n > 0 {
      TrainingSchedule(n - 1);
    }
  }

  /** The state `n` ticks after `s`. */
  function StepN(s: TrainState, n: nat): TrainState
  {
    if n == 0 then s else Step(StepN(s, n - 1))
  }

  /** Pause and Reset leave the interval live: with the flag off, each tick
      still adds an epoch and two points of progress, until epoch 50. */
  lemma {:induction false} CountsOnWithFlagOff(s: TrainState, n: nat)
    requires Inv(s) && !s.isTraining
    ensures var e := if s.currentEpoch + n <= FinalEpoch then s.currentEpoch + n else FinalEpoch;
      StepN(s, n) == TrainState(false, e, 2 * e)
  {
    if n > 0 {
      CountsOnWithFlagOff(s, n - 1);
    }
  }

  /** After Pause, a live interval keeps training in all but the flag. */
  lemma {:induction false} TicksAfterPause(s: TrainState, n: nat)
    requires Inv(s)
    ensures var e := if s.currentEpoch + n <= FinalEpoch then s.currentEpoch + n else FinalEpoch;
      StepN(Stop(s), n) == TrainState(false, e, 2 * e)
  {
    CountsOnWithFlagOff(Stop(s), n);
  }

  /** After Reset, a live interval counts the epochs again from 0. */
  lemma {:induction false} TicksAfterReset(s: TrainState, n: nat)
    ensures var e := if n <= FinalEpoch then n else FinalEpoch;
      StepN(Reset(s), n) == TrainState(false, e, 2 * e)
  {
    CountsOnWithFlagOff(Reset(s), n);
  }

  // ---------------------------------------------------------------- the model table

  /** One entry of the model table; `accuracy` in tenths of a percent. */
  datatype ModelInfo = ModelInfo(id: string, accuracy: int)

  const Models: seq<ModelInfo> := [
    ModelInfo("svm", 842),
    ModelInfo("random_forest", 867),
    ModelInfo("neural_network", 883),
    ModelInfo("ensemble", 895)
  ]

  predicate IsModelId(id: string)
  {
    exists i :: 0 <= i < |Models| && Models[i].id == id
  }

  /** `ms.find(m => m.id === id)`: the first entry with that id, if any. */
  function Find(ms: seq<ModelInfo>, id: string): (r: Option<ModelInfo>)
    ensures r.Some? <==> exists i :: 0 <= i < |ms| && ms[i].id == id
    ensures r.Some? ==> r.value.id == id
    ensures r.Some? ==>
      exists i :: 0 <= i < |ms| && ms[i] == r.value && forall j :: 0 <= j < i ==> ms[j].id != id
  {
    if ms == [] then None
    else if ms[0].id == id then Some(ms[0])
    else Find(ms[1..], id)
  }

  /** The component. */
  class ModelTraining {
    var isTraining: bool
    var currentEpoch: int
    var trainingProgress: int
    var selectedModel: string

    function State(): TrainState
      reads this
    {
      TrainState(isTraining, currentEpoch, trainingProgress)
    }

    ghost predicate Valid()
      reads this
    {
      Inv(State()) && IsModelId(selectedModel)
    }

    constructor ()
      ensures Valid()
      ensures State() == Initial && selectedModel == "ensemble"
    {
      isTraining := false;
      currentEpoch := 0;
      trainingProgress := 0;
      selectedModel := "ensemble";
      assert Models[3].id == "ensemble";
    }

    /** The "Best Accuracy" figure: the accuracy of the selected model,
        which is always found. */
    function BestAccuracy(): (a: Option<int>)
      reads this
      ensures Valid() ==> a.Some? && ModelInfo(selectedModel, a.value) in Models
    {
      match Find(Models, selectedModel)
      case Some(m) => Some(m.accuracy)
      case None => None
    }

    /** Clicking a model card: `setSelectedModel(model.id)`. */
    method SelectModel(id: string)
      requires Valid()
      requires IsModelId(id)
      modifies this`selectedModel
      ensures Valid()
      ensures selectedModel == id
    {
      selectedModel := id;
    }

    method StartTraining()
      requires Valid()
      modifies this`isTraining, this`currentEpoch, this`trainingProgress
      ensures Valid()
      ensures State() == Start(old(State()))
    {
      isTraining := true;
      currentEpoch := 0;
      trainingProgress := 0;
    }

    method StopTraining()
      requires Valid()
      modifies this`isTraining
      ensures Valid()
      ensures State() == Stop(old(State()))
    {
      isTraining := false;
    }

    method ResetTraining()
      requires Valid()
      modifies this`isTraining, this`currentEpoch, this`trainingProgress
      ensures Valid()
      ensures State() == Reset(old(State()))
    {
      isTraining := false;
      currentEpoch := 0;
      trainingProgress := 0;
    }

    /** One firing of a training interval; `stop` tells whether it cleared
        its interval. */
    method Tick() returns (stop: bool)
      requires Valid()
      modifies this`isTraining, this`currentEpoch, this`trainingProgress
      ensures Valid()
      ensures State() == Step(old(State()))
      ensures stop == StopsInterval(old(State()))
    {
      stop := currentEpoch >= FinalEpoch;
      if stop {
        isTraining := false;
        currentEpoch := FinalEpoch;
      } else {
        currentEpoch := currentEpoch + 1;
      }
      if trainingProgress >= FullProgress {
        trainingProgress := FullProgress;
      } else {
        trainingProgress := trainingProgress + 2;
      }
    }
  }

  /** `startTraining` with its interval left to run until it clears itself:
      it fires 51 times and ends at epoch 50, progress 100, not training. */
  method TrainToCompletion() returns (trainer: ModelTraining, ticks: nat)
    ensures ticks == FinalEpoch + 1
    ensures trainer.State() == TrainState(false, FinalEpoch, FullProgress)
  {
    trainer := new ModelTraining();
    trainer.StartTraining();
    ticks := 0;
    var stop := false;
    while !stop
      invariant trainer.Valid()
      invariant ticks <= FinalEpoch + 1
      invariant trainer.State() == TicksAfterStart(ticks)
      invariant stop <==> ticks == FinalEpoch + 1
      decreases FinalEpoch + 1 - ticks
    {
      TrainingSchedule(ticks);
      stop := trainer.Tick();
      ticks := ticks + 1;
    }
    TrainingSchedule(ticks);
  }
}
