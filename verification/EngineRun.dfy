/**
 MatchingEngine::run on the command ring: whatever the interleaving and the batching,
 when it returns the engine has done exactly what processing the pushed commands one
 after the other does.
 */
module EngineRun {
  import opened Types
  import opened BookSpec
  import opened BookRuns
  import opened Engine
  import opened DrainProtocol

  datatype RunState = RunState(loop: Loop<Command>, engine: EngineState, events: seq<Event>)

  // Handling a command processes it and forwards its events to the sink.
  ghost function RunStep(r: RunState, a: LoopAction<Command>): RunState
    requires StateOk(r.engine.state)
  {
    var next := LoopStep(r.loop, a);
    if LoopPossible(r.loop, a) && a.HandleOne? then
      var cmd := r.loop.pc.batch[r.loop.pc.done];
      RunState(next, Process(r.engine, cmd), r.events + EventsOf(r.engine.state, OpOf(cmd)))
    else
      r.(loop := next)
  }

  ghost predicate RunOk(start: EngineState, r: RunState)
    requires StateOk(start.state)
  {
    && LoopOk(r.loop) && StateOk(r.engine.state)
    && r.engine == ProcessAll(start, r.loop.handled)
    && r.events == EmittedBy(start, r.loop.handled)
  }

  lemma RunStepOk(start: EngineState, r: RunState, a: LoopAction<Command>)
    requires StateOk(start.state) && RunOk(start, r)
    ensures RunOk(start, RunStep(r, a))
  {
    hide LoopOk, LoopDo, ProcessAll, EmittedBy, Process, EventsOf, StateOk;
    LoopStepOk(r.loop, a);
    if LoopPossible(r.loop, a) && a.HandleOne? {
      var cmd := r.loop.pc.batch[r.loop.pc.done];
      ProcessSnoc(start, r.loop.handled, cmd);
      ProcessOk(r.engine, cmd);
    }
  }

  ghost function RunSteps(start: EngineState, r: RunState, actions: seq<LoopAction<Command>>): RunState
    requires StateOk(start.state) && RunOk(start, r)
    decreases |actions|
  {
    if actions == [] then r
    else
      RunStepOk(start, r, actions[0]);
      RunSteps(start, RunStep(r, actions[0]), actions[1..])
  }

  function BeginRun(slots: seq<Command>, engine: EngineState): RunState {
    RunState(LoopStart(slots), engine, [])
  }

  lemma BeginOk(slots: seq<Command>, engine: EngineState)
    requires slots != [] && StateOk(engine.state)
    ensures RunOk(engine, BeginRun(slots, engine))
  {
    StartOk(slots);
  }

  lemma {:induction false} RunStepsOk(start: EngineState, r: RunState, actions: seq<LoopAction<Command>>)
    requires StateOk(start.state) && RunOk(start, r)
    ensures RunOk(start, RunSteps(start, r, actions))
    decreases |actions|
  {
    hide LoopOk, StateOk, ProcessAll, EmittedBy;
    if actions != [] {
      RunStepOk(start, r, actions[0]);
      RunStepsOk(start, RunStep(r, actions[0]), actions[1..]);
    }
  }

  // The shutdown contract, for every interleaving of producer and engine.
  lemma RunLosesNothing(slots: seq<Command>, engine: EngineState, actions: seq<LoopAction<Command>>)
    requires slots != [] && StateOk(engine.state)
    ensures RunOk(engine, BeginRun(slots, engine))
    ensures var r := RunSteps(engine, BeginRun(slots, engine), actions);
            r.loop.pc.Returned? ==>
              && r.loop.ring.head == r.loop.ring.tail
              && r.loop.counted == |r.loop.ring.pushed|
              && r.engine == ProcessAll(engine, r.loop.ring.pushed)
              && r.events == EmittedBy(engine, r.loop.ring.pushed)
  {
    hide LoopOk, StateOk, ProcessAll, EmittedBy;
    BeginOk(slots, engine);
    RunStepsOk(engine, BeginRun(slots, engine), actions);
    var r := RunSteps(engine, BeginRun(slots, engine), actions);
    if r.loop.pc.Returned? {
      ReturnedMeansDrained(r.loop);
    }
  }
}
