# PipelineCore in Dafny

A model of the Pandora WebJobs `PipelineProcessor`. The processor lets middleware stages
("do X, `await next()`, do Y") wrap a Service Bus triggered function. The function does not
run inside the chain. The message pump calls `BeginProcessingMessageAsync` before it and
`CompleteProcessingMessageAsync` after it. So the chain must stop at its innermost point
during `Begin` and pick up again during `Complete`.

The model is functional and has no concurrency:

- A **stage** (`Stages.Stage`) is an abstract descriptor. It lists the environment writes made
  before `next`, an optional exception thrown before `next`, whether it calls `next`, the writes
  made after `next`, and an optional exception thrown after them. A stage registered by type is
  a `StageType`: a boolean for "implements `IMessageProcessor`" plus the behaviour of its
  instance.
- The **chain** (`Chain`) runs in two halves. `Descend` is the pre-phase that `Begin` drives.
  `Unwind` is the post-phase that `Complete` resumes. `RunOnion` runs the `Pipeline` that
  `ConstructPipeline` nests as ordinary synchronous middleware. It is the reference semantics.
- The **context** (`Context.PipelineContext`) holds the message, the environment, the result
  and the captured exception. It also holds the stage list the chain was built from. Its three
  semaphores become one `Rendezvous` state: waiting for `Complete`, chain finished, or permit
  drained.
- **`message.Properties`** becomes a map from message to context. `Begin` and `Complete` take
  that map and return a new one. They also return the stage code that ran, as a trace of
  events, and their answer or the error they raised.

Stage code is recorded as `Event`s. Each event records the stage index, whether it was the
pre- or post-half, and what the stage saw through `IPipelineContext`: the message, the
environment and the result.

Three behaviours of the code are easy to miss:

- When a stage short-circuits, the post-code of the stages outside it runs during `Begin`,
  with `Result` still unset.
- `Complete` after a `Begin` that ended early writes `Result` and runs no stage code. It
  re-raises the fault `Begin` raised, whether from the pre-phase or from a short-circuit's
  unwinding. Otherwise it returns.
- A second `Complete` for the same message waits forever: the `TriggerToPipeline` permit is
  gone (`SecondCompleteNeverReturns`).

`Complete` tests for a null context at PipelineProcessor.cs:103 to raise `LostContext`. For a
message without the property, the indexer at line 101 throws `KeyNotFoundException` first.
The model reports both as `LostContext`. Because a zero-stage `Begin` attaches nothing, the
matching `Complete` ends that way whenever the cleanup goes ahead
(`EmptyPipelineLosesContext`). When cancellation is requested and a transport call is due, it
raises `Cancelled` before the lookup.

## Model

| member | source | states |
|---|---|---|
| Processor.New | Pandora.Azure.WebJobs.PipelineCore/PipelineProcessor.cs:24-31 | Missing options raise ArgumentNull("options"). Otherwise the processor keeps the options and starts with no stages. |
| Processor.AddGeneric | Pandora.Azure.WebJobs.PipelineCore/PipelineProcessor.cs:35-38 | A type that satisfies the generic constraint is appended as the last stage. The earlier stages and the options are unchanged. |
| Processor.AddType | Pandora.Azure.WebJobs.PipelineCore/PipelineProcessor.cs:39-49 | A null type raises ArgumentNull. A type that does not implement the processor interface raises Argument. Only a type that passes both checks is appended, once, at the end, leaving everything else unchanged. |
| Processor.AddDelegate | Pandora.Azure.WebJobs.PipelineCore/PipelineProcessor.cs:50-56 | A null delegate raises ArgumentNull. Otherwise the delegate is appended as the last stage and nothing else changes. |
| Processor.Begin | Pandora.Azure.WebJobs.PipelineCore/PipelineProcessor.cs:60-87 | A null message raises ArgumentNull. With no stages, Begin answers true and the properties are unchanged. Otherwise a context for that message only replaces the message's entry. The answer is true iff every stage reaches `next`, and iff the context is left waiting for Complete. Begin raises exactly when the context captured a fault, and raises that fault. |
| Processor.MessageCleanup | Pandora.Azure.WebJobs.PipelineCore/PipelineProcessor.cs:116-131 | Decision table, each row an iff: succeeded and not auto-complete gives commit; succeeded and auto-complete gives no call; not succeeded gives abandon. A cancellation request raises Cancelled instead of making a call, and only when a call would be made. |
| Processor.Complete | Pandora.Azure.WebJobs.PipelineCore/PipelineProcessor.cs:88-112 | A null message or result raises ArgumentNull. Cleanup runs before the context lookup, so cancellation leaves everything untouched. A missing context raises LostContext after the transport call. Otherwise Result is written first, so every post-phase event sees it along with the same message. Stage code runs only for a context waiting at the trigger. The permit is then drained. Complete raises the captured fault, or never returns if the permit was already gone. |
| Chain.ConstructPipeline | Pandora.Azure.WebJobs.PipelineCore/PipelineProcessor.cs:161-185 | Folding the stages in reverse registration order builds the outside-in nesting `Nest(stages, 0)`, with the first stage outermost and one wrapper per stage. |
| Chain.Descend | Pandora.Azure.WebJobs.PipelineCore/PipelineProcessor.cs:132-185 | The pre-phase runs through the nested chain and stops where the innermost continuation releases its gate. It reaches the innermost continuation iff every stage reaches `next`. Otherwise it stops at stage `at`, after exactly `at + 1` pre-halves, all stages before `at` having called `next`. It short-circuits iff that stage did not call `next` without throwing, and is faulted iff the stage threw. |
| Chain.DescendTrace | Pandora.Azure.WebJobs.PipelineCore/PipelineProcessor.cs:161-185 | The pre-phase runs pre-halves in registration order. Each sees the message and result the chain started with, and the environment its predecessor left. |
| Chain.Unwind | Pandora.Azure.WebJobs.PipelineCore/PipelineProcessor.cs:146-185 | Unwinding without a fault runs every post-half and no stage there throws. A fault ends it at the throwing stage, which is the only one in the unwound range that threw. The stages outside that stage run no post-code. |
| Chain.UnwindTrace | Pandora.Azure.WebJobs.PipelineCore/PipelineProcessor.cs:161-185 | The post-phase runs post-halves innermost first. Each sees the environment its predecessor left. |
| Chain.SplitMatchesOnion | Pandora.Azure.WebJobs.PipelineCore/PipelineProcessor.cs:132-185 | Stopping the chain at the innermost continuation and resuming it later gives exactly the synchronous onion run of the nested pipeline: same trace, environment, fault and reached flag. |
| Environment.Apply | Pandora.Azure.WebJobs.PipelineCore/PipelineContext.cs:15 | Indexer writes never remove keys and add exactly the keys written. |
| Environment.LastWriteWins | Pandora.Azure.WebJobs.PipelineCore/PipelineContext.cs:15 | After a series of writes, a key holds the value of its last write. A key nobody wrote keeps its earlier value or stays absent. |
| Properties.BeginObservations | Pandora.Azure.WebJobs.PipelineCore.Tests/PipelineProcessorTest.cs:406-457 | Every stage half Begin runs sees the same message and no Result. The first sees an empty environment. The environment is threaded from stage to stage into the attached context. |
| Properties.CompleteThreadsEnvironment | Pandora.Azure.WebJobs.PipelineCore/PipelineProcessor.cs:101-108 | The post-phase continues from the environment the context holds and leaves its final environment in the context. |
| Properties.BeginCompleteIsOnion | Pandora.Azure.WebJobs.PipelineCore/PipelineProcessor.cs:60-112 | Begin's trace followed by Complete's trace equals the synchronous onion run of `Nest(stages, 0)`. Begin answers true iff the onion reaches its innermost continuation. The final environment matches, and Complete raises exactly the onion's fault. |
| Properties.OnionOrder | Pandora.Azure.WebJobs.PipelineCore.Tests/PipelineProcessorTest.cs:267-291 | When every stage calls `next` and none throws: Begin answers true after the pre-halves of stages 1..N in order. Complete runs the post-halves N..1 and returns. |
| Properties.ShortCircuitAt | Pandora.Azure.WebJobs.PipelineCore.Tests/PipelineProcessorTest.cs:293-339 | If stage k is the first not to call `next`, stage k does not throw before `next`, and no post-half in 0..k throws, then Begin answers false. It has run pre-halves 0..k and then post-halves k..0, all without a Result. No stage after k runs. |
| Properties.ShortCircuitFaultAt | Pandora.Azure.WebJobs.PipelineCore/PipelineProcessor.cs:78-81 | If stage k is the first not to call `next` without throwing, and stage j <= k is the innermost whose post-half throws f, Begin raises f and the context holds it. Before that it has run pre-halves 0..k and post-halves k..j, all without a Result. No stage after k runs and no stage outside j runs post-code. |
| Properties.PreFaultAt | Pandora.Azure.WebJobs.PipelineCore.Tests/PipelineProcessorTest.cs:96-141 | A throw in stage k before `next` is raised by Begin after exactly the pre-halves 0..k, with no post-code. A later Complete raises it again without running stage code. |
| Properties.PostFaultAt | Pandora.Azure.WebJobs.PipelineCore.Tests/PipelineProcessorTest.cs:142-251 | A throw in stage i after `next`: Begin still answers true. Complete runs the post-halves N..i, none of those outside i, and raises the fault. |
| Properties.CompleteAfterEarlyEnd | Pandora.Azure.WebJobs.PipelineCore/PipelineProcessor.cs:106-111 | After a Begin that did not answer true, the matching Complete writes Result and runs no stage code. It re-raises exactly the fault Begin raised, from either phase, and returns when Begin answered false. |
| Properties.ContextsStayAttached | Pandora.Azure.WebJobs.PipelineCore/PipelineContext.cs:12-25 | Begin and Complete keep every context well formed and stored under its own message. A context waiting for Complete has no result and no fault. |
| Properties.EmptyPipelineLosesContext | Pandora.Azure.WebJobs.PipelineCore/PipelineProcessor.cs:85-104 | With no stages, Begin answers true but attaches nothing. The matching Complete makes its transport call and then raises LostContext. |
| Properties.SecondCompleteNeverReturns | Pandora.Azure.WebJobs.PipelineCore/PipelineProcessor.cs:106-108 | A second Complete for a message writes its Result but never returns, and runs no stage code. |
| Properties.CompleteIsLocal | Pandora.Azure.WebJobs.PipelineCore/PipelineProcessor.cs:101-111 | Complete reads and writes only its own message's context. On two property maps that agree about that message, it behaves identically. |
| Properties.BeginIsLocal | Pandora.Azure.WebJobs.PipelineCore/PipelineProcessor.cs:65-68 | Begin's behaviour and the context it attaches do not depend on other messages' contexts, and it leaves those contexts alone. |
| Properties.CompletionOrderIrrelevant | Pandora.Azure.WebJobs.PipelineCore.Tests/PipelineProcessorTest.cs:491-520 | Two in-flight messages completed in either order run the same stage code, end the same way and leave the same contexts. |
| Properties.MessagesDoNotMix | Pandora.Azure.WebJobs.PipelineCore.Tests/PipelineProcessorTest.cs:461-520 | Two messages share a stage that stores their own id. Whichever completes first, each one's post-code reads back its own id. |
| Properties.EnvironmentFlowsForward | Pandora.Azure.WebJobs.PipelineCore.Tests/PipelineProcessorTest.cs:343-373 | A value the first stage stores before `next` is found by the second stage's pre-code. |
| Properties.EnvironmentFlowsBackward | Pandora.Azure.WebJobs.PipelineCore.Tests/PipelineProcessorTest.cs:374-405 | A value the second stage stores after `next` is found by the first stage's post-code. |
| Properties.SharedKeyAcrossPhases | Pandora.Azure.WebJobs.PipelineCore/PipelineContext.cs:15 | Two stages share one key. The inner stage reads the outer's pre-phase value before the trigger, and the outer stage reads the inner's post-phase overwrite after Complete. |

## Left out

- Semaphores, `Task.WhenAny` and the `t1` waiter left pending after a short-circuit are not modelled. They become the per-context `Rendezvous` state. `Begin` and `Complete` are atomic steps, so a `Complete` that overlaps a `Begin` still running for the same message is not modelled.
- `Activator.CreateInstance` and the interface reflection are not modelled. A type stage is its "implements `IMessageProcessor`" flag plus its instance's behaviour.
- Service Bus `CompleteAsync`/`AbandonAsync` are recorded as the call made and nothing more. Their own failures, which propagate out of `Complete` uncaught, are not modelled.
- Tracing, the string constants, assembly attributes and the bare interface declarations are left out. They carry no behaviour.
- The .NET exception types are collapsed into `Base.Error`. A missing `PipelineContext` property key (`KeyNotFoundException`) is reported as `LostContext`. A property holding an object that is not a context (the `as` cast yielding null) is not modelled separately.
- Stages are fixed descriptors. A stage whose control flow depends on what it reads is not modelled: one that calls `next` only when a key is present, for example. Neither is one that catches an exception thrown from `next`, calls `next` twice, or reads the cancellation token. Stored values are constants or the message's own id.
- Stage writes to the message itself (a post-code that sets `MessageId`) are not modelled. What stages read is recorded in the trace instead.
- A message is identified by its whole record, handle and `MessageId` together, not by object identity alone. The model assumes the `MessageId` is unchanged between `Begin` and `Complete`. A caller that changes it in between would still find the context in the code, but gets `LostContext` in the model.
- `IsFaulted` is derived from the captured exception rather than stored separately, so the two are set together by construction.
- Processor.AddGeneric: the generic constraint `where TStage : IMessageProcessor` is a compile-time requirement, so it is stated as a precondition.
