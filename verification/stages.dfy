/** Stages and what they observe. A stage is the body of an
    `IMessageProcessor.Invoke` or of a registered delegate, reduced to the
    shape
        pre-writes; [throw]; if callsNext { await next(); } post-writes; [throw]
    which is all the chain and the rendezvous can tell apart. */
module Stages {
  import opened Base
  import opened Environment

  datatype Stage = Stage(
    pre: seq<Write>,           // environment writes before `next`
    preFault: Option<Fault>,   // thrown after `pre`, before `next` would be called
    callsNext: bool,           // whether the stage awaits its continuation
    post: seq<Write>,          // environment writes after `next` returns (or where it was skipped)
    postFault: Option<Fault>)  // thrown after `post`

  /** Whether the stage actually reaches its `await next()`. */
  predicate InvokesNext(s: Stage)
  {
    s.preFault.None? && s.callsNext
  }

  /** A stage registered by type: the reflected question "does it implement
      IMessageProcessor" and the behaviour of the instance the chain
      builder creates from it. */
  datatype StageType = StageType(implementsProcessor: bool, instance: Stage)

  /** Which half of a stage body ran. */
  datatype Phase = PrePhase | PostPhase

  /** What `IPipelineContext` exposes to a stage: the message, the
      environment and the function result. */
  datatype ContextView = ContextView(message: Message, environment: Env, result: Option<FunctionResult>)

  /** One half of one stage's body ran, and saw `view` when it started. */
  datatype Event = Event(stage: nat, phase: Phase, view: ContextView)

  /** The writes performed by the given half of a stage. */
  function Segment(s: Stage, phase: Phase): seq<Write>
  {
    match phase
    case PrePhase => s.pre
    case PostPhase => s.post
  }

  /** The view after a stage half performed its writes. */
  function Perform(v: ContextView, ws: seq<Write>): (r: ContextView)
    ensures r.message == v.message && r.result == v.result
  {
    v.(environment := Apply(v.environment, ws, v.message))
  }
}
