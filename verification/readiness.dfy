/** The simulated model loading of the dashboard page: every 200 ms the
    accuracy climbs by 2.5 points; the tick that finds it at 89.5 or above
    clamps it to 89.5, marks the model ready and stops the interval.
    Accuracy is counted in tenths of a percentage point (0, 25, 50, ...). */
module Readiness {

  const AccuracyStep: int := 25     // 2.5 %
  const ReadyAccuracy: int := 895   // 89.5 %

  datatype LoadState = LoadState(modelAccuracy: int, isModelReady: bool)

  /** `useState(0)`, `useState(false)` and the `setModelAccuracy(0)` that
      starts the load. */
  const Initial: LoadState := LoadState(0, false)

  /** The states the ramp can be in: a multiple of 2.5 up to 90 while
      loading, exactly 89.5 once ready. */
  ghost predicate Inv(s: LoadState)
  {
    0 <= s.modelAccuracy <= 900 &&
    (s.isModelReady ==> s.modelAccuracy == ReadyAccuracy) &&
    (!s.isModelReady ==> s.modelAccuracy % AccuracyStep == 0)
  }

  /** The tick stops the interval exactly when it finds the target reached. */
  predicate StopsInterval(s: LoadState)
  {
    s.modelAccuracy >= ReadyAccuracy
  }

  /** One interval tick of the `setModelAccuracy` updater. */
  function Advance(s: LoadState): (t: LoadState)
    ensures s.modelAccuracy < ReadyAccuracy ==>
      t.modelAccuracy == s.modelAccuracy + AccuracyStep && t.isModelReady == s.isModelReady
    ensures StopsInterval(s) ==> t.modelAccuracy == ReadyAccuracy && t.isModelReady
    ensures s.isModelReady ==> t.isModelReady
    ensures Inv(s) ==> Inv(t)
    ensures Inv(s) && s.isModelReady ==> t == s
  {
    if s.modelAccuracy >= ReadyAccuracy then LoadState(ReadyAccuracy, true)
    else LoadState(s.modelAccuracy + AccuracyStep, s.isModelReady)
  }

  /** The state after `n` ticks of the interval, had it kept running. */
  function AfterTicks(n: nat): LoadState
  {
    if n == 0 then Initial else Advance(AfterTicks(n - 1))
  }

  /** The whole ramp: 2.5 points a tick up to 90 at tick 36, then 89.5 and
      ready from tick 37 on. */
  lemma {:induction false} RampSchedule(n: nat)
    ensures n <= 36 ==> AfterTicks(n) == LoadState(AccuracyStep * n, false)
    ensures n >= 37 ==> AfterTicks(n) == LoadState(ReadyAccuracy, true)
  {
    if n > 0 {
      RampSchedule(n - 1);
    }
  }

  /** Readiness comes on tick 37 and not before; accuracy never passes 90
      and is 90 only on tick 36; every state reached is in `Inv`. */
  lemma {:induction false} RampBounds(n: nat)
    ensures AfterTicks(n).isModelReady <==> n >= 37
    ensures AfterTicks(n).modelAccuracy <= 900
    ensures AfterTicks(n).modelAccuracy == 900 <==> n == 36
    ensures Inv(AfterTicks(n))
  {
    RampSchedule(n);
  }

  /** The page's loading state. */
  class ModelLoader {
    var modelAccuracy: int
    var isModelReady: bool

    function State(): LoadState
      reads this
    {
      LoadState(modelAccuracy, isModelReady)
    }

    constructor ()
      ensures State() == Initial
    {
      modelAccuracy := 0;
      isModelReady := false;
    }

    /** One firing of the interval; `stop` tells whether it cleared the interval. */
    method Tick() returns (stop: bool)
      modifies this
      ensures State() == Advance(old(State()))
      ensures stop == StopsInterval(old(State()))
    {
      stop := modelAccuracy >= ReadyAccuracy;
      if stop {
        isModelReady := true;
        modelAccuracy := ReadyAccuracy;
      } else {
        modelAccuracy := modelAccuracy + AccuracyStep;
      }
    }
  }

  /** `loadModel`: start from zero and let the interval fire until it clears
      itself. It fires 37 times and leaves the model ready at 89.5. */
  method LoadModel() returns (loader: ModelLoader, ticks: nat)
    ensures ticks == 37
    ensures loader.modelAccuracy == ReadyAccuracy && loader.isModelReady
  {
    loader := new ModelLoader();
    ticks := 0;
    var stop := false;
    while !stop
      invariant ticks <= 37
      invariant loader.State() == AfterTicks(ticks)
      invariant stop <==> ticks == 37
      decreases 37 - ticks
    {
      RampSchedule(ticks);
      stop := loader.Tick();
      ticks := ticks + 1;
    }
    RampSchedule(ticks);
  }
}
