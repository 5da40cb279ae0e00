/** Properties of the Begin/Complete protocol: the onion order of stage code,
    short-circuiting, where faults surface, what stages observe, and the
    independence of messages in flight. */
module Properties {
  import opened Base
  import opened Environment
  import opened Stages
  import opened Chain
  import opened Context
  import opened Processor

  /** The cleanup of `Complete` goes ahead (it raises only on cancellation). */
  predicate Settles(p: PipelineProcessor, r: FunctionResult, cancellationRequested: bool)
  {
    MessageCleanup(r.succeeded, p.options.autoComplete, cancellationRequested).Ok?
  }

  // ---------------------------------------------------------------------------
  // What stages observe

  /** Every piece of stage code `Begin` runs sees the message handed to
      `Begin` and no result; the first one sees an empty environment; the
      environment is threaded from stage to stage and ends up in the
      attached context. */
  lemma {:induction false} BeginObservations(p: PipelineProcessor, contexts: ContextMap, m: Message)
    requires |p.stages| > 0
    ensures var b := Begin(p, contexts, Some(m));
            && |b.trace| > 0
            && b.trace[0] == Event(0, PrePhase, FreshView(m))
            && Sees(b.trace, m, None)
            && Threads(p.stages, b.trace, map[], b.contexts[m].environment, m)
  {
    var v := FreshView(m);
    var d := Descend(p.stages, 0, v);
    DescendTrace(p.stages, 0, v);
    match d.stop
    case ReachedTrigger =>
    case FaultedBefore(_, _) =>
    case ShortCircuited(k) =>
      var u := Unwind(p.stages, 0, k + 1, d.view);
      UnwindTrace(p.stages, 0, k + 1, d.view);
      ThreadsAppend(p.stages, d.trace, u.trace, map[], d.view.environment, u.view.environment, m);
      SeesAppend(d.trace, u.trace, m, None);
  }

  /** `Complete` resumes the post-phase from the environment the pre-phase
      left: the stage code it runs continues the environment of its context
      and leaves the result in it. */
  lemma CompleteThreadsEnvironment(p: PipelineProcessor, contexts: ContextMap, m: Message,
                                   r: FunctionResult, cancellationRequested: bool)
    requires Settles(p, r, cancellationRequested) && m in contexts
    ensures var c := Complete(p, contexts, Some(m), Some(r), cancellationRequested);
            Threads(contexts[m].pipeline, c.trace, contexts[m].environment, c.contexts[m].environment, contexts[m].message)
  {
    var ctx := contexts[m].(result := Some(r));
    if ctx.gates.WaitingForComplete? {
      UnwindTrace(ctx.pipeline, 0, |ctx.pipeline|, View(ctx));
    }
  }

  // ---------------------------------------------------------------------------
  // Begin followed by Complete is ordinary middleware

  /** A `Begin` and its `Complete` together run exactly the stage code, in
      exactly the order, of the synchronous onion built by the chain
      builder, with the result recorded at the innermost point; `Begin`
      answers true iff that onion reaches its innermost continuation, the
      environment ends where the onion leaves it, and `Complete` raises
      exactly the fault the onion raises. */
  lemma {:induction false} BeginCompleteIsOnion(p: PipelineProcessor, contexts: ContextMap, m: Message,
                                                r: FunctionResult, cancellationRequested: bool)
    requires |p.stages| > 0 && Settles(p, r, cancellationRequested)
    ensures var b := Begin(p, contexts, Some(m));
            var c := Complete(p, b.contexts, Some(m), Some(r), cancellationRequested);
            var run := RunOnion(Nest(p.stages, 0), FreshView(m), r);
            && b.trace + c.trace == run.trace
            && (b.status == Ok(true) <==> run.reached)
            && c.contexts[m].environment == run.view.environment
            && (run.fault.None? <==> c.status == Completed)
            && (run.fault.Some? ==> c.status == Threw(StageFault(run.fault.value)))
  {
    var v := FreshView(m);
    SplitMatchesOnion(p.stages, 0, v, r);
    var b := Begin(p, contexts, Some(m));
    var d := Descend(p.stages, 0, v);
    match d.stop
    case ReachedTrigger =>
      var w := View(b.contexts[m].(result := Some(r)));
      assert w == d.view.(result := Some(r));
      var c := Complete(p, b.contexts, Some(m), Some(r), cancellationRequested);
      assert c.trace == Unwind(p.stages, 0, |p.stages|, w).trace;
    case ShortCircuited(k) =>
      assert b.trace + [] == b.trace;
    case FaultedBefore(_, _) =>
      assert b.trace + [] == b.trace;
  }

  /** Onion order: when every stage calls `next` and none throws, `Begin`
      runs the pre-code of stages 1..N in registration order and answers
      true, and `Complete` runs their post-code in reverse order, N..1, and
      returns. No post-code runs before `Complete`. */
  lemma OnionOrder(p: PipelineProcessor, contexts: ContextMap, m: Message,
                   r: FunctionResult, cancellationRequested: bool)
    requires |p.stages| > 0 && Settles(p, r, cancellationRequested)
    requires AllInvokeNext(p.stages, 0, |p.stages|)
    requires forall j | 0 <= j < |p.stages| :: p.stages[j].postFault.None?
    ensures var b := Begin(p, contexts, Some(m));
            var c := Complete(p, b.contexts, Some(m), Some(r), cancellationRequested);
            && b.status == Ok(true)
            && |b.trace| == |p.stages| && PreOrder(b.trace, 0)
            && |c.trace| == |p.stages| && PostOrder(c.trace, |p.stages|)
            && c.status == Completed
  {
    var v := FreshView(m);
    DescendTrace(p.stages, 0, v);
    var b := Begin(p, contexts, Some(m));
    var w := View(b.contexts[m].(result := Some(r)));
    UnwindTrace(p.stages, 0, |p.stages|, w);
  }

  /** Short-circuit: if stage `k` is the first that does not call `next`
      (and none throws), `Begin` answers false after running the pre-code of
      stages 0..k, stage `k`'s remaining code, and the post-code of stages
      k-1..0, all without a result; no stage after `k` runs. */
  lemma ShortCircuitAt(p: PipelineProcessor, contexts: ContextMap, m: Message, k: nat)
    requires k < |p.stages| && AllInvokeNext(p.stages, 0, k)
    requires p.stages[k].preFault.None? && !p.stages[k].callsNext
    requires forall j | 0 <= j <= k :: p.stages[j].postFault.None?
    ensures var b := Begin(p, contexts, Some(m));
            && b.status == Ok(false)
            && |b.trace| == 2 * (k + 1)
            && PreOrder(b.trace[..k + 1], 0)
            && PostOrder(b.trace[k + 1..], k + 1)
            && (forall j | 0 <= j < |b.trace| :: b.trace[j].stage <= k && b.trace[j].view.result.None?)
  {
    var v := FreshView(m);
    DescendStopsAt(p.stages, k, v);
    var d := Descend(p.stages, 0, v);
    DescendTrace(p.stages, 0, v);
    var u := Unwind(p.stages, 0, k + 1, d.view);
    UnwindTrace(p.stages, 0, k + 1, d.view);
    var t := d.trace + u.trace;
    assert t[..k + 1] == d.trace;
    assert t[k + 1..] == u.trace;
  }

  /** The shape of a short-circuited `Begin`: the pre-phase up to stage `k`,
      then the unwinding from `k` outwards, both without a result; whatever
      the unwinding throws is captured and raised. */
  lemma BeginShortCircuits(p: PipelineProcessor, contexts: ContextMap, m: Message, k: nat)
    requires k < |p.stages| && AllInvokeNext(p.stages, 0, k)
    requires p.stages[k].preFault.None? && !p.stages[k].callsNext
    ensures var d := Descend(p.stages, 0, FreshView(m));
            var u := Unwind(p.stages, 0, k + 1, d.view);
            var b := Begin(p, contexts, Some(m));
            && b.trace == d.trace + u.trace
            && |d.trace| == k + 1 && PreOrder(d.trace, 0) && Sees(d.trace, m, None)
            && PostOrder(u.trace, k + 1) && Sees(u.trace, m, None)
            && b.contexts[m].exception == u.fault
            && b.status == if u.fault.Some? then Err(StageFault(u.fault.value)) else Ok(false)
  {
    var v := FreshView(m);
    DescendStopsAt(p.stages, k, v);
    DescendTrace(p.stages, 0, v);
    UnwindTrace(p.stages, 0, k + 1, Descend(p.stages, 0, v).view);
  }

  /** Short-circuit whose unwinding throws: if stage `k` is the first that
      does not call `next` and stage `j <= k` is the innermost whose post-code
      throws `f`, the fault is caught around the chain and `Begin` raises it.
      By then the pre-code of stages 0..k and the post-code of stages k..j
      have run, all without a result, and no stage outside `j` runs post-code. */
  lemma ShortCircuitFaultAt(p: PipelineProcessor, contexts: ContextMap, m: Message, k: nat, j: nat, f: Fault)
    requires k < |p.stages| && AllInvokeNext(p.stages, 0, k)
    requires p.stages[k].preFault.None? && !p.stages[k].callsNext
    requires j <= k && p.stages[j].postFault == Some(f)
    requires forall i | j < i <= k :: p.stages[i].postFault.None?
    ensures var b := Begin(p, contexts, Some(m));
            && b.status == Err(StageFault(f))
            && b.contexts[m].exception == Some(f)
            && |b.trace| == (k + 1) + (k + 1 - j)
            && PreOrder(b.trace[..k + 1], 0)
            && PostOrder(b.trace[k + 1..], k + 1)
            && (forall i | k + 1 <= i < |b.trace| :: j <= b.trace[i].stage)
            && (forall i | 0 <= i < |b.trace| :: b.trace[i].stage <= k && b.trace[i].view.result.None?)
  {
    BeginShortCircuits(p, contexts, m, k);
    var d := Descend(p.stages, 0, FreshView(m));
    var u := Unwind(p.stages, 0, k + 1, d.view);
    UnwindStopsAt(p.stages, 0, k + 1, d.view, j);
    var b := Begin(p, contexts, Some(m));
    assert b.trace[..k + 1] == d.trace;
    assert b.trace[k + 1..] == u.trace;
  }

  /** A fault thrown by stage `k` before it calls `next` is raised by
      `Begin`; the stages before `k` have run their pre-code, no stage after
      `k` runs, and no post-code runs at all. A later `Complete` raises the
      same fault again without running any stage code. */
  lemma PreFaultAt(p: PipelineProcessor, contexts: ContextMap, m: Message, k: nat, f: Fault,
                   r: FunctionResult, cancellationRequested: bool)
    requires k < |p.stages| && AllInvokeNext(p.stages, 0, k)
    requires p.stages[k].preFault == Some(f)
    requires Settles(p, r, cancellationRequested)
    ensures var b := Begin(p, contexts, Some(m));
            var c := Complete(p, b.contexts, Some(m), Some(r), cancellationRequested);
            && b.status == Err(StageFault(f))
            && |b.trace| == k + 1 && PreOrder(b.trace, 0)
            && c.trace == [] && c.status == Threw(StageFault(f))
  {
    var v := FreshView(m);
    DescendStopsAt(p.stages, k, v);
    DescendTrace(p.stages, 0, v);
  }

  /** A fault thrown by stage `i` after its `next` returned: `Begin` still
      answers true; `Complete` runs the post-code of the stages inside `i`
      (innermost first) and of `i` itself, none of the stages outside it,
      and raises the fault. */
  lemma PostFaultAt(p: PipelineProcessor, contexts: ContextMap, m: Message, i: nat, f: Fault,
                    r: FunctionResult, cancellationRequested: bool)
    requires i < |p.stages| && AllInvokeNext(p.stages, 0, |p.stages|)
    requires p.stages[i].postFault == Some(f)
    requires forall j | i < j < |p.stages| :: p.stages[j].postFault.None?
    requires Settles(p, r, cancellationRequested)
    ensures var b := Begin(p, contexts, Some(m));
            var c := Complete(p, b.contexts, Some(m), Some(r), cancellationRequested);
            && b.status == Ok(true)
            && |c.trace| == |p.stages| - i && PostOrder(c.trace, |p.stages|)
            && c.status == Threw(StageFault(f))
  {
    var b := Begin(p, contexts, Some(m));
    var w := View(b.contexts[m].(result := Some(r)));
    var u := Unwind(p.stages, 0, |p.stages|, w);
    UnwindTrace(p.stages, 0, |p.stages|, w);
  }

  /** `Complete` after a `Begin` that ended early (a short-circuit, or a
      fault in either phase) runs no stage code: it re-raises whatever
      `Begin` raised, and otherwise returns. */
  lemma CompleteAfterEarlyEnd(p: PipelineProcessor, contexts: ContextMap, m: Message,
                              r: FunctionResult, cancellationRequested: bool)
    requires |p.stages| > 0 && Settles(p, r, cancellationRequested)
    requires Begin(p, contexts, Some(m)).status != Ok(true)
    ensures var b := Begin(p, contexts, Some(m));
            var c := Complete(p, b.contexts, Some(m), Some(r), cancellationRequested);
            && c.trace == []
            && c.contexts[m].result == Some(r)
            && (b.status.Err? ==> c.status == Threw(b.status.error))
            && (b.status == Ok(false) ==> c.status == Completed)
  {
  }

  // ---------------------------------------------------------------------------
  // The context life cycle

  /** Every message's property bag holds a well-formed context that belongs
      to that very message. */
  predicate WellAttached(contexts: ContextMap)
  {
    forall n | n in contexts :: Valid(contexts[n]) && contexts[n].message == n
  }

  /** `Begin` and `Complete` keep every context well formed and attached to
      its own message. */
  lemma ContextsStayAttached(p: PipelineProcessor, contexts: ContextMap, m: Option<Message>,
                             r: Option<FunctionResult>, cancellationRequested: bool)
    requires WellAttached(contexts)
    ensures WellAttached(Begin(p, contexts, m).contexts)
    ensures WellAttached(Complete(p, contexts, m, r, cancellationRequested).contexts)
  {
  }

  /** With no stages registered, `Begin` attaches nothing, so the matching
      `Complete` settles the message and then finds no context. */
  lemma EmptyPipelineLosesContext(p: PipelineProcessor, contexts: ContextMap, m: Message,
                                  r: FunctionResult, cancellationRequested: bool)
    requires |p.stages| == 0 && m !in contexts && Settles(p, r, cancellationRequested)
    ensures var b := Begin(p, contexts, Some(m));
            var c := Complete(p, b.contexts, Some(m), Some(r), cancellationRequested);
            && b.status == Ok(true)
            && c.call == MessageCleanup(r.succeeded, p.options.autoComplete, cancellationRequested).value
            && c.status == Threw(LostContext)
  {
  }

  /** Once a `Complete` has got past the context lookup, the context's
      `TriggerToPipeline` permit is gone: another `Complete` for the same
      message never returns. */
  lemma SecondCompleteNeverReturns(p: PipelineProcessor, contexts: ContextMap, m: Message,
                                   r1: FunctionResult, r2: FunctionResult, cancel1: bool, cancel2: bool)
    requires m in contexts && Settles(p, r1, cancel1) && Settles(p, r2, cancel2)
    ensures var c1 := Complete(p, contexts, Some(m), Some(r1), cancel1);
            var c2 := Complete(p, c1.contexts, Some(m), Some(r2), cancel2);
            c2.status == NeverReturns && c2.trace == [] && c2.contexts[m].result == Some(r2)
  {
  }

  // ---------------------------------------------------------------------------
  // Messages in flight do not mix

  /** `Complete` for one message reads and writes only that message's
      context: run on two context maps that agree about that message, it
      does the same thing. */
  lemma CompleteIsLocal(p: PipelineProcessor, c1: ContextMap, c2: ContextMap, m: Message,
                        r: FunctionResult, cancellationRequested: bool)
    requires (m in c1 <==> m in c2) && (m in c1 ==> c1[m] == c2[m])
    ensures var o1 := Complete(p, c1, Some(m), Some(r), cancellationRequested);
            var o2 := Complete(p, c2, Some(m), Some(r), cancellationRequested);
            && o1.trace == o2.trace && o1.status == o2.status && o1.call == o2.call
            && (m in o1.contexts <==> m in o2.contexts)
            && (m in o1.contexts ==> o1.contexts[m] == o2.contexts[m])
  {
  }

  /** Two messages in flight can be completed in either order: each
      `Complete` runs the same stage code, ends the same way and leaves the
      same contexts behind. */
  lemma CompletionOrderIrrelevant(p: PipelineProcessor, contexts: ContextMap, m1: Message, m2: Message,
                                  r1: FunctionResult, r2: FunctionResult, cancel1: bool, cancel2: bool)
    requires m1 != m2 && m1 in contexts && m2 in contexts
    requires Settles(p, r1, cancel1) && Settles(p, r2, cancel2)
    ensures var a1 := Complete(p, contexts, Some(m1), Some(r1), cancel1);
            var a2 := Complete(p, a1.contexts, Some(m2), Some(r2), cancel2);
            var b2 := Complete(p, contexts, Some(m2), Some(r2), cancel2);
            var b1 := Complete(p, b2.contexts, Some(m1), Some(r1), cancel1);
            && a1.trace == b1.trace && a1.status == b1.status
            && a2.trace == b2.trace && a2.status == b2.status
            && a2.contexts == b1.contexts
  {
    var a1 := Complete(p, contexts, Some(m1), Some(r1), cancel1);
    var b2 := Complete(p, contexts, Some(m2), Some(r2), cancel2);
    CompleteIsLocal(p, contexts, b2.contexts, m1, r1, cancel1);
    CompleteIsLocal(p, contexts, a1.contexts, m2, r2, cancel2);
    var a2 := Complete(p, a1.contexts, Some(m2), Some(r2), cancel2);
    var b1 := Complete(p, b2.contexts, Some(m1), Some(r1), cancel1);
    assert a2.contexts == contexts[m1 := a1.contexts[m1]][m2 := b2.contexts[m2]];
    assert b1.contexts == contexts[m2 := b2.contexts[m2]][m1 := a1.contexts[m1]];
  }

  /** `Begin` for one message does not look at other messages' contexts and
      leaves them alone. */
  lemma BeginIsLocal(p: PipelineProcessor, c1: ContextMap, c2: ContextMap, m: Message, n: Message)
    requires n != m
    ensures var o1 := Begin(p, c1, Some(m));
            var o2 := Begin(p, c2, Some(m));
            && o1.trace == o2.trace && o1.status == o2.status
            && (|p.stages| > 0 ==> m in o1.contexts && m in o2.contexts && o1.contexts[m] == o2.contexts[m])
            && (n in o1.contexts <==> n in c1)
            && (n in c1 ==> o1.contexts[n] == c1[n])
  {
  }

  // ---------------------------------------------------------------------------
  // Scenarios

  /** A stage that only calls `next`. */
  const PassThrough: Stage := Stage([], None, true, [], None)

  /** A value the first stage stores before `next` is what the second stage
      finds under that key in its pre-code. */
  lemma EnvironmentFlowsForward(options: MessageOptions, m: Message, key: string, value: string)
    ensures var first := Stage([Write(key, Literal(value))], None, true, [], None);
            var p := PipelineProcessor(options, [first, PassThrough]);
            var b := Begin(p, map[], Some(m));
            && b.status == Ok(true)
            && |b.trace| == 2 && b.trace[1].stage == 1
            && key in b.trace[1].view.environment && b.trace[1].view.environment[key] == value
  {
    var first := Stage([Write(key, Literal(value))], None, true, [], None);
    var chain := [first, PassThrough];
    var v1 := Perform(FreshView(m), first.pre);
    ApplySnoc(map[], [], Write(key, Literal(value)), m);
    assert [] + first.pre == first.pre;
    assert v1.environment == map[key := value];
    var d1 := Descend(chain, 1, v1);
    assert d1.trace == [Event(1, PrePhase, v1)] + Descend(chain, 2, v1).trace;
    assert Descend(chain, 0, FreshView(m)).trace == [Event(0, PrePhase, FreshView(m))] + d1.trace;
  }

  /** A value the second stage stores after `next` returns is what the
      first stage finds under that key in its post-code. */
  lemma EnvironmentFlowsBackward(options: MessageOptions, m: Message, key: string, value: string,
                                 r: FunctionResult, cancellationRequested: bool)
    requires MessageCleanup(r.succeeded, options.autoComplete, cancellationRequested).Ok?
    ensures var second := Stage([], None, true, [Write(key, Literal(value))], None);
            var p := PipelineProcessor(options, [PassThrough, second]);
            var b := Begin(p, map[], Some(m));
            var c := Complete(p, b.contexts, Some(m), Some(r), cancellationRequested);
            && b.status == Ok(true) && c.status == Completed
            && |c.trace| == 2 && c.trace[1].stage == 0
            && key in c.trace[1].view.environment && c.trace[1].view.environment[key] == value
  {
    var second := Stage([], None, true, [Write(key, Literal(value))], None);
    var chain := [PassThrough, second];
    var p := PipelineProcessor(options, chain);
    var b := Begin(p, map[], Some(m));
    var w := View(b.contexts[m].(result := Some(r)));
    var w1 := Perform(w, second.post);
    ApplySnoc(w.environment, [], Write(key, Literal(value)), m);
    assert [] + second.post == second.post;
    assert w1.environment == w.environment[key := value];
    assert Unwind(chain, 0, 2, w).trace == [Event(1, PostPhase, w)] + Unwind(chain, 0, 1, w1).trace;
    assert Unwind(chain, 0, 1, w1).trace == [Event(0, PostPhase, w1)] + Unwind(chain, 0, 0, Perform(w1, [])).trace;
  }

  /** Two stages sharing a key: A stores "1" and calls `next`; B reads the
      key, calls `next`, then stores "2"; A's post-code reads the key. B sees
      "1" before the trigger and A sees "2" after `Complete`. */
  lemma SharedKeyAcrossPhases(options: MessageOptions, m: Message, r: FunctionResult, cancellationRequested: bool)
    requires MessageCleanup(r.succeeded, options.autoComplete, cancellationRequested).Ok?
    ensures var a := Stage([Write("k", Literal("1"))], None, true, [], None);
            var b := Stage([], None, true, [Write("k", Literal("2"))], None);
            var p := PipelineProcessor(options, [a, b]);
            var o := Begin(p, map[], Some(m));
            var c := Complete(p, o.contexts, Some(m), Some(r), cancellationRequested);
            && o.status == Ok(true)
            && |o.trace| == 2 && o.trace[1].stage == 1 && o.trace[1].view.environment == map["k" := "1"]
            && |c.trace| == 2 && c.trace[1].stage == 0 && c.trace[1].view.environment == map["k" := "2"]
  {
  }

  /** Two messages begun one after the other, whose single stage stores the
      message's own id before `next`: whichever is completed first, each
      message's post-code finds its own id under the shared key. */
  lemma MessagesDoNotMix(options: MessageOptions, m1: Message, m2: Message, r: FunctionResult,
                         cancellationRequested: bool, firstCompletesFirst: bool)
    requires m1 != m2
    requires MessageCleanup(r.succeeded, options.autoComplete, cancellationRequested).Ok?
    ensures var p := PipelineProcessor(options, [Stage([Write("id", OwnMessageId)], None, true, [], None)]);
            var b1 := Begin(p, map[], Some(m1));
            var b2 := Begin(p, b1.contexts, Some(m2));
            var x := if firstCompletesFirst then m1 else m2;
            var y := if firstCompletesFirst then m2 else m1;
            var cx := Complete(p, b2.contexts, Some(x), Some(r), cancellationRequested);
            var cy := Complete(p, cx.contexts, Some(y), Some(r), cancellationRequested);
            && b1.status == Ok(true) && b2.status == Ok(true)
            && |cx.trace| == 1 && cx.trace[0].view.environment["id"] == x.messageId
            && |cy.trace| == 1 && cy.trace[0].view.environment["id"] == y.messageId
  {
  }
}
