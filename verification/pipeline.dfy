/** The data-pipeline panel: a Run button and an interval that moves the
    progress bar by 5 every 200 ms until it reaches 100. */
module Pipeline {

  const ProgressStep: int := 5
  const FullProgress: int := 100

  datatype PipelineState = PipelineState(pipelineStep: int, isRunning: bool, progress: int)

  /** The three `useState` initial values. */
  const Initial: PipelineState := PipelineState(0, false, 0)

  /** Progress is a multiple of 5 in [0, 100]; the step index is only ever 0. */
  ghost predicate Inv(s: PipelineState)
  {
    0 <= s.progress <= FullProgress && s.progress % ProgressStep == 0 && s.pipelineStep == 0
  }

  /** `runPipeline` before it schedules the interval. */
  function Run(s: PipelineState): (t: PipelineState)
    ensures t.isRunning && t.progress == 0 && t.pipelineStep == 0
    ensures Inv(t)
  {
    PipelineState(0, true, 0)
  }

  /** The tick stops its interval exactly when it finds the bar full. */
  predicate StopsInterval(s: PipelineState)
  {
    s.progress >= FullProgress
  }

  /** One firing of the `setProgress` updater. */
  function Step(s: PipelineState): (t: PipelineState)
    ensures Inv(s) ==> Inv(t)
    ensures s.progress < FullProgress ==> t == s.(progress := s.progress + ProgressStep)
    ensures StopsInterval(s) ==> t.progress == FullProgress && !t.isRunning
    ensures t.pipelineStep == s.pipelineStep
  {
    if s.progress >= FullProgress then s.(isRunning := false, progress := FullProgress)
    else s.(progress := s.progress + ProgressStep)
  }

  /** Once a tick has found the bar full, further ticks change nothing. */
  lemma {:induction false} StaysComplete(s: PipelineState, n: nat)
    requires StopsInterval(s)
    ensures StepN(Step(s), n) == Step(s)
  {
    if n > 0 {
      StaysComplete(s, n - 1);
    }
  }

  function StepN(s: PipelineState, n: nat): PipelineState
  {
    if n == 0 then s else Step(StepN(s, n - 1))
  }

  /** The state `n` ticks after Run. */
  function TicksAfterRun(n: nat): PipelineState
  {
    if n == 0 then Run(Initial) else Step(TicksAfterRun(n - 1))
  }

  /** A run: progress 5n and running for the first 20 ticks; tick 21 stops
      it at 100, and nothing moves after. */
  lemma {:induction false} PipelineSchedule(n: nat)
    ensures n <= 20 ==> TicksAfterRun(n) == PipelineState(0, true, ProgressStep * n)
    ensures n > 20 ==> TicksAfterRun(n) == PipelineState(0, false, FullProgress)
  {
    if n > 0 {
      PipelineSchedule(n - 1);
    }
  }

  /** The component. */
  class DataPipeline {
    var pipelineStep: int
    var isRunning: bool
    var progress: int

    function State(): PipelineState
      reads this
    {
      PipelineState(pipelineStep, isRunning, progress)
    }

    ghost predicate Valid()
      reads this
    {
      Inv(State())
    }

    constructor ()
      ensures Valid()
      ensures State() == Initial
    {
      pipelineStep := 0;
      isRunning := false;
      progress := 0;
    }

    method RunPipeline()
      modifies this
      ensures Valid()
      ensures State() == Run(old(State()))
    {
      isRunning := true;
      progress := 0;
      pipelineStep := 0;
    }

    /** One firing of the interval; `stop` tells whether it cleared it. */
    method Tick() returns (stop: bool)
      requires Valid()
      modifies this`isRunning, this`progress
      ensures Valid()
      ensures State() == Step(old(State()))
      ensures stop == StopsInterval(old(State()))
    {
      stop := progress >= FullProgress;
      if stop {
        isRunning := false;
        progress := FullProgress;
      } else {
        progress := progress + ProgressStep;
      }
    }
  }

  /** `runPipeline` with its interval left to run until it clears itself:
      it fires 21 times and ends at 100 %, no longer running. */
  method RunToCompletion() returns (pipeline: DataPipeline, ticks: nat)
    ensures ticks == 21
    ensures pipeline.State() == PipelineState(0, false, FullProgress)
  {
    pipeline := new DataPipeline();
    pipeline.RunPipeline();
    ticks := 0;
    var stop := false;
    while !stop
      invariant pipeline.Valid()
      invariant ticks <= 21
      invariant pipeline.State() == TicksAfterRun(ticks)
      invariant stop <==> ticks == 21
      decreases 21 - ticks
    {
      PipelineSchedule(ticks);
      stop := pipeline.Tick();
      ticks := ticks + 1;
    }
    PipelineSchedule(ticks);
  }
}
