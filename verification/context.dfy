/** The per-message `PipelineContext`: the state `Begin` creates and
    attaches to a message, and that `Complete` finds again. */
module Context {
  import opened Base
  import opened Environment
  import opened Stages

  /** The three semaphores of a context (`PipelineToTrigger`, `TriggerRan`,
      `TriggerToPipeline`, each created with one permit) reduced to the state
      of the rendezvous they implement. */
  datatype Rendezvous =
      /** The chain is parked in the innermost continuation, waiting for
          `Complete` to release `TriggerRan`. */
    | WaitingForComplete
      /** The chain returned or threw while `Begin` was running and released
          both of its gates; one `TriggerToPipeline` permit is free. */
    | ChainFinished
      /** A `Complete` has taken the `TriggerToPipeline` permit; no permit is
          left for another one. */
    | Drained

  /** `Message`, `Enviorment` and `Result` are what stages see; `exception`
      is the fault captured from the chain (`IsFaulted` is whether there is
      one, so the two are set together by construction); `pipeline` is the
      stage list the chain was built from; `gates` is the rendezvous state. */
  datatype PipelineContext = PipelineContext(
    message: Message,
    environment: Env,
    result: Option<FunctionResult>,
    exception: Option<Fault>,
    pipeline: seq<Stage>,
    gates: Rendezvous)
  {
    predicate IsFaulted()
    {
      exception.Some?
    }
  }

  /** What the stages of this context see through `IPipelineContext`. */
  function View(c: PipelineContext): ContextView
  {
    ContextView(c.message, c.environment, c.result)
  }

  /** The context of a message `Begin` has processed: built from a non-empty
      stage list, and while the chain waits for `Complete` it has neither a
      result nor a fault. */
  predicate Valid(c: PipelineContext)
  {
    && |c.pipeline| > 0
    && (c.gates.WaitingForComplete? ==> !c.IsFaulted() && c.result.None?)
  }

  /** Records what the chain threw, if it threw; nothing but the captured
      exception changes. */
  function Capture(c: PipelineContext, fault: Option<Fault>): (r: PipelineContext)
    ensures r.message == c.message && r.environment == c.environment && r.result == c.result
    ensures r.pipeline == c.pipeline && r.gates == c.gates
  {
    if fault.Some? then c.(exception := fault) else c
  }
}
