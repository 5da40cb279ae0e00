/** `PipelineProcessor`: stage registration, and the Begin/Complete pair the
    message pump calls around the triggered function. The message
    properties that carry each message's context are modelled as a map from
    message to context, threaded through both calls. */
module Processor {
  import opened Base
  import opened Environment
  import opened Stages
  import opened Chain
  import opened Context

  datatype PipelineProcessor = PipelineProcessor(options: MessageOptions, stages: seq<Stage>)

  /** `message.Properties["PipelineContext"]` for every message. */
  type ContextMap = map<Message, PipelineContext>

  // ---------------------------------------------------------------------------
  // Construction and registration

  /** The constructor: options are required; a new processor has no stages. */
  function New(options: Option<MessageOptions>): (r: Result<PipelineProcessor>)
    ensures options.None? <==> r.Err?
    ensures r.Err? ==> r.error == ArgumentNull("options")
    ensures r.Ok? ==> r.value.options == options.value && r.value.stages == []
  {
    if options.None? then Err(ArgumentNull("options"))
    else Ok(PipelineProcessor(options.value, []))
  }

  /** `Add<TStage>()`: the type constraint guarantees `TStage` implements
      the processor interface, so there is nothing to check. */
  function AddGeneric(p: PipelineProcessor, t: StageType): (r: PipelineProcessor)
    requires t.implementsProcessor
    ensures r.options == p.options
    ensures |r.stages| == |p.stages| + 1
    ensures r.stages[..|p.stages|] == p.stages && r.stages[|p.stages|] == t.instance
  {
    p.(stages := p.stages + [t.instance])
  }

  /** `Add(Type)`: rejects a missing type, then a type that does not
      implement the processor interface; otherwise appends it. */
  function AddType(p: PipelineProcessor, t: Option<StageType>): (r: Result<PipelineProcessor>)
    ensures r.Ok? <==> t.Some? && t.value.implementsProcessor
    ensures t.None? ==> r == Err(ArgumentNull("stage"))
    ensures t.Some? && !t.value.implementsProcessor ==> r == Err(Argument("stage"))
    ensures r.Ok? ==>
              && r.value.options == p.options
              && |r.value.stages| == |p.stages| + 1
              && r.value.stages[..|p.stages|] == p.stages
              && r.value.stages[|p.stages|] == t.value.instance
  {
    if t.None? then Err(ArgumentNull("stage"))
    else if !t.value.implementsProcessor then Err(Argument("stage"))
    else Ok(AddGeneric(p, t.value))
  }

  /** `Add(Func<...>)`: rejects a missing delegate; otherwise appends it. */
  function AddDelegate(p: PipelineProcessor, f: Option<Stage>): (r: Result<PipelineProcessor>)
    ensures r.Ok? <==> f.Some?
    ensures f.None? ==> r == Err(ArgumentNull("stage"))
    ensures r.Ok? ==>
              && r.value.options == p.options
              && |r.value.stages| == |p.stages| + 1
              && r.value.stages[..|p.stages|] == p.stages
              && r.value.stages[|p.stages|] == f.value
  {
    if f.None? then Err(ArgumentNull("stage"))
    else Ok(p.(stages := p.stages + [f.value]))
  }

  // ---------------------------------------------------------------------------
  // Begin

  /** What `BeginProcessingMessageAsync` leaves behind: the message
      properties, the stage code that ran, and its return value or the
      exception it raised. */
  datatype BeginOutcome = BeginOutcome(contexts: ContextMap, trace: seq<Event>, status: Result<bool>)

  /** The view a fresh context gives its stages: the message, an empty
      environment and no result. */
  function FreshView(m: Message): ContextView
  {
    ContextView(m, map[], None)
  }

  /** Builds a context for `m` over the stage list `stages`. */
  function Attach(m: Message, stages: seq<Stage>, env: Env, fault: Option<Fault>, gates: Rendezvous): PipelineContext
  {
    PipelineContext(m, env, None, fault, stages, gates)
  }

  /** `BeginProcessingMessageAsync`: with no stages, answers "run the
      function" at once; otherwise attaches a fresh context to the message,
      runs the chain's pre-phase, and answers whether the innermost
      continuation was reached. If the chain ended early (a stage did not
      call `next`), its unwinding has already run; a fault captured by then
      is raised. */
  function Begin(p: PipelineProcessor, contexts: ContextMap, message: Option<Message>): (o: BeginOutcome)
    ensures message.None? ==> o == BeginOutcome(contexts, [], Err(ArgumentNull("message")))
    ensures message.Some? && |p.stages| == 0 ==> o == BeginOutcome(contexts, [], Ok(true))
    ensures message.Some? && |p.stages| > 0 ==>
              var m := message.value;
              && m in o.contexts
              && o.contexts == contexts[m := o.contexts[m]]
              && Valid(o.contexts[m])
              && o.contexts[m].message == m
              && o.contexts[m].pipeline == p.stages
              && o.contexts[m].result.None?
              && (o.status == Ok(true) <==> AllInvokeNext(p.stages, 0, |p.stages|))
              && (o.status == Ok(true) <==> o.contexts[m].gates.WaitingForComplete?)
              && (o.status.Err? <==> o.contexts[m].IsFaulted())
              && (o.status.Err? ==> o.status.error == StageFault(o.contexts[m].exception.value))
  {
    if message.None? then BeginOutcome(contexts, [], Err(ArgumentNull("message")))
    else if |p.stages| == 0 then BeginOutcome(contexts, [], Ok(true))
    else
      var m := message.value;
      var d := Descend(p.stages, 0, FreshView(m));
      match d.stop
      case ReachedTrigger =>
        var c := Attach(m, p.stages, d.view.environment, None, WaitingForComplete);
        BeginOutcome(contexts[m := c], d.trace, Ok(true))
      case ShortCircuited(k) =>
        var u := Unwind(p.stages, 0, k + 1, d.view);
        var c := Attach(m, p.stages, u.view.environment, u.fault, ChainFinished);
        BeginOutcome(contexts[m := c], d.trace + u.trace,
                     if u.fault.Some? then Err(StageFault(u.fault.value)) else Ok(false))
      case FaultedBefore(_, f) =>
        var c := Attach(m, p.stages, d.view.environment, Some(f), ChainFinished);
        BeginOutcome(contexts[m := c], d.trace, Err(StageFault(f)))
  }

  // ---------------------------------------------------------------------------
  // Complete

  /** The Service Bus call the cleanup makes on the message. */
  datatype TransportCall = CompleteAsync | AbandonAsync

  /** `MessageCleanupAsync`: a successful result is committed unless the
      pump auto-completes, in which case nothing is done; an unsuccessful
      one is abandoned. The cancellation token is checked only right before
      a call is made. */
  function MessageCleanup(succeeded: bool, autoComplete: bool, cancellationRequested: bool): (r: Result<Option<TransportCall>>)
    ensures r == Ok(Some(CompleteAsync)) <==> succeeded && !autoComplete && !cancellationRequested
    ensures r == Ok(None) <==> succeeded && autoComplete
    ensures r == Ok(Some(AbandonAsync)) <==> !succeeded && !cancellationRequested
    ensures r.Err? <==> cancellationRequested && !(succeeded && autoComplete)
    ensures r.Err? ==> r.error == Cancelled
  {
    if succeeded then
      if !autoComplete then
        if cancellationRequested then Err(Cancelled) else Ok(Some(CompleteAsync))
      else Ok(None)
    else if cancellationRequested then Err(Cancelled)
    else Ok(Some(AbandonAsync))
  }

  /** How `CompleteProcessingMessageAsync` ends: it returns, raises, or
      waits forever on a gate nobody will release. */
  datatype CompletionStatus = Completed | Threw(error: Error) | NeverReturns

  datatype CompleteOutcome = CompleteOutcome(
    contexts: ContextMap,
    call: Option<TransportCall>,
    trace: seq<Event>,
    status: CompletionStatus)

  /** Raises the captured fault, if any. */
  function Rethrow(c: PipelineContext): CompletionStatus
  {
    if c.IsFaulted() then Threw(StageFault(c.exception.value)) else Completed
  }

  /** `CompleteProcessingMessageAsync`: checks its arguments, settles the
      message, finds the context, records the result and lets the chain's
      post-phase run, then raises whatever the chain captured. */
  function Complete(p: PipelineProcessor, contexts: ContextMap, message: Option<Message>,
                    result: Option<FunctionResult>, cancellationRequested: bool): (o: CompleteOutcome)
    ensures message.None? ==> o == CompleteOutcome(contexts, None, [], Threw(ArgumentNull("message")))
    ensures message.Some? && result.None? ==>
              o == CompleteOutcome(contexts, None, [], Threw(ArgumentNull("result")))
    ensures message.Some? && result.Some? ==>
              var m, r := message.value, result.value;
              var cleanup := MessageCleanup(r.succeeded, p.options.autoComplete, cancellationRequested);
              && (cleanup.Err? ==> o == CompleteOutcome(contexts, None, [], Threw(Cancelled)))
              && (cleanup.Ok? ==> o.call == cleanup.value)
              && (cleanup.Ok? && m !in contexts ==> o == CompleteOutcome(contexts, cleanup.value, [], Threw(LostContext)))
              && (cleanup.Ok? && m in contexts ==>
                    && m in o.contexts
                    && o.contexts == contexts[m := o.contexts[m]]
                    && o.contexts[m].result == Some(r)
                    && o.contexts[m].message == contexts[m].message
                    && o.contexts[m].pipeline == contexts[m].pipeline
                    && o.contexts[m].gates == Drained
                    && Sees(o.trace, contexts[m].message, Some(r))
                    && (o.trace != [] ==> contexts[m].gates.WaitingForComplete?)
                    && (contexts[m].gates.Drained? <==> o.status == NeverReturns)
                    && (!contexts[m].gates.Drained? ==> o.status == Rethrow(o.contexts[m])))
  {
    if message.None? then CompleteOutcome(contexts, None, [], Threw(ArgumentNull("message")))
    else if result.None? then CompleteOutcome(contexts, None, [], Threw(ArgumentNull("result")))
    else
      var m, r := message.value, result.value;
      var cleanup := MessageCleanup(r.succeeded, p.options.autoComplete, cancellationRequested);
      if cleanup.Err? then CompleteOutcome(contexts, None, [], Threw(cleanup.error))
      else if m !in contexts then CompleteOutcome(contexts, cleanup.value, [], Threw(LostContext))
      else
        var c := contexts[m].(result := Some(r));
        match c.gates
        case WaitingForComplete =>
          var u := Unwind(c.pipeline, 0, |c.pipeline|, View(c));
          UnwindTrace(c.pipeline, 0, |c.pipeline|, View(c));
          var c' := Capture(c.(environment := u.view.environment, gates := Drained), u.fault);
          CompleteOutcome(contexts[m := c'], cleanup.value, u.trace, Rethrow(c'))
        case ChainFinished =>
          var c' := c.(gates := Drained);
          CompleteOutcome(contexts[m := c'], cleanup.value, [], Rethrow(c'))
        case Drained =>
          CompleteOutcome(contexts[m := c], cleanup.value, [], NeverReturns)
  }
}
