/** The stage chain: how `ConstructPipeline` nests the registered stages
    around the innermost continuation, and how the resulting onion runs.

    The chain runs in two halves separated by the external trigger: `Descend`
    is the pre-phase (stage 0's code up to `next`, then stage 1's, ...) that
    `Begin` drives; `Unwind` is the post-phase (innermost stage first) that
    `Complete` resumes. `RunOnion` is the reference: ordinary synchronous
    middleware composition over the nested `Pipeline`, and `SplitMatchesOnion`
    proves that the two halves together behave exactly like it. */
module Chain {
  import opened Base
  import opened Environment
  import opened Stages

  /** The nested continuation: `Wrap(i, s, next)` is stage `i` bound to its
      `next` continuation; `Innermost` is the continuation at the trigger. */
  datatype Pipeline = Innermost | Wrap(index: nat, stage: Stage, next: Pipeline)

  /** Onion composition read outside in: stage `i` wraps everything built
      from the stages after it. */
  function Nest(chain: seq<Stage>, i: nat): Pipeline
    decreases |chain| - i
  {
    if i >= |chain| then Innermost else Wrap(i, chain[i], Nest(chain, i + 1))
  }

  /** The number of stages wrapped around the innermost continuation. */
  function Depth(p: Pipeline): nat
  {
    match p
    case Innermost => 0
    case Wrap(_, _, next) => 1 + Depth(next)
  }

  /** The chain builder: walks the stages in reverse registration order and
      wraps each one around the continuation built so far. The result is the
      outside-in nesting, with the first registered stage outermost. */
  method ConstructPipeline(stages: seq<Stage>) returns (p: Pipeline)
    ensures p == Nest(stages, 0)
    ensures Depth(p) == |stages|
  {
    p := Innermost;
    var i := |stages|;
    while i > 0
      invariant 0 <= i <= |stages|
      invariant p == Nest(stages, i)
      invariant Depth(p) == |stages| - i
    {
      i := i - 1;
      p := Wrap(i, stages[i], p);
    }
  }

  // ---------------------------------------------------------------------------
  // Shapes of event traces

  /** Every stage in `lo..hi` reaches its `await next()`. */
  predicate AllInvokeNext(chain: seq<Stage>, lo: nat, hi: nat)
    requires lo <= hi <= |chain|
  {
    forall j | lo <= j < hi :: InvokesNext(chain[j])
  }

  /** The trace is the pre-phases of stages `from`, `from + 1`, ... in order. */
  predicate PreOrder(trace: seq<Event>, from: nat)
  {
    forall j | 0 <= j < |trace| :: trace[j].stage == from + j && trace[j].phase == PrePhase
  }

  /** The trace is the post-phases of stages `top - 1`, `top - 2`, ... in order. */
  predicate PostOrder(trace: seq<Event>, top: nat)
  {
    forall j | 0 <= j < |trace| :: trace[j].stage + j + 1 == top && trace[j].phase == PostPhase
  }

  /** Every event of the trace saw message `m` and function result `result`. */
  predicate Sees(trace: seq<Event>, m: Message, result: Option<FunctionResult>)
  {
    forall j | 0 <= j < |trace| :: trace[j].view.message == m && trace[j].view.result == result
  }

  /** The environment is threaded through the trace: each stage half starts
      from the dictionary its predecessor left behind, beginning at `from`,
      and the last one leaves `to`. */
  predicate Threads(chain: seq<Stage>, trace: seq<Event>, from: Env, to: Env, m: Message)
    decreases |trace|
  {
    if |trace| == 0 then from == to
    else
      && trace[0].stage < |chain|
      && trace[0].view.environment == from
      && Threads(chain, trace[1..], Apply(from, Segment(chain[trace[0].stage], trace[0].phase), m), to, m)
  }

  lemma {:induction false} ThreadsAppend(chain: seq<Stage>, t1: seq<Event>, t2: seq<Event>, a: Env, b: Env, c: Env, m: Message)
    requires Threads(chain, t1, a, b, m) && Threads(chain, t2, b, c, m)
    ensures Threads(chain, t1 + t2, a, c, m)
    decreases |t1|
  {
    if |t1| > 0 {
      assert (t1 + t2)[0] == t1[0];
      assert (t1 + t2)[1..] == t1[1..] + t2;
      ThreadsAppend(chain, t1[1..], t2, Apply(a, Segment(chain[t1[0].stage], t1[0].phase), m), b, c, m);
    } else {
      assert t1 + t2 == t2;
    }
  }

  /** Two traces that each saw `m` and `result` saw them together. */
  lemma SeesAppend(t1: seq<Event>, t2: seq<Event>, m: Message, result: Option<FunctionResult>)
    requires Sees(t1, m, result) && Sees(t2, m, result)
    ensures Sees(t1 + t2, m, result)
  {
  }

  // ---------------------------------------------------------------------------
  // The pre-phase

  /** Why the pre-phase ended: the innermost continuation was reached, stage
      `at` did not call `next`, or stage `at` threw before calling it. */
  datatype Stop = ReachedTrigger | ShortCircuited(at: nat) | FaultedBefore(at: nat, fault: Fault)

  datatype Descent = Descent(trace: seq<Event>, view: ContextView, stop: Stop)

  /** Runs the pre-phase from stage `i` on: each stage's code up to its
      `next`, until the trigger, a stage that does not call `next`, or a
      stage that throws. */
  function Descend(chain: seq<Stage>, i: nat, v: ContextView): (d: Descent)
    requires i <= |chain|
    ensures d.view.message == v.message && d.view.result == v.result
    ensures d.stop.ReachedTrigger? <==> AllInvokeNext(chain, i, |chain|)
    ensures d.stop.ReachedTrigger? ==> |d.trace| == |chain| - i
    ensures !d.stop.ReachedTrigger? ==>
              && i <= d.stop.at < |chain|
              && |d.trace| == d.stop.at - i + 1
              && AllInvokeNext(chain, i, d.stop.at)
    ensures d.stop.ShortCircuited? ==>
              chain[d.stop.at].preFault.None? && !chain[d.stop.at].callsNext
    ensures d.stop.FaultedBefore? ==> chain[d.stop.at].preFault == Some(d.stop.fault)
    decreases |chain| - i
  {
    if i == |chain| then Descent([], v, ReachedTrigger)
    else
      var s := chain[i];
      var e := Event(i, PrePhase, v);
      var v1 := Perform(v, s.pre);
      if s.preFault.Some? then Descent([e], v1, FaultedBefore(i, s.preFault.value))
      else if !s.callsNext then Descent([e], v1, ShortCircuited(i))
      else
        var d := Descend(chain, i + 1, v1);
        Descent([e] + d.trace, d.view, d.stop)
  }

  /** The pre-phase runs stages `i`, `i + 1`, ... in registration order, each
      seeing the message and result it started with. */
  lemma {:induction false} DescendOrder(chain: seq<Stage>, i: nat, v: ContextView)
    requires i <= |chain|
    ensures var d := Descend(chain, i, v);
            PreOrder(d.trace, i) && Sees(d.trace, v.message, v.result)
    decreases |chain| - i
  {
    if i < |chain| && InvokesNext(chain[i]) {
      var v1 := Perform(v, chain[i].pre);
      var d := Descend(chain, i + 1, v1);
      DescendOrder(chain, i + 1, v1);
      var t := [Event(i, PrePhase, v)] + d.trace;
      forall j | 0 <= j < |t|
        ensures t[j].stage == i + j && t[j].phase == PrePhase
        ensures t[j].view.message == v.message && t[j].view.result == v.result
      {
        if j > 0 { assert t[j] == d.trace[j - 1]; }
      }
    }
  }

  /** Each pre-phase stage starts from the environment its predecessor left. */
  lemma {:induction false} DescendThreads(chain: seq<Stage>, i: nat, v: ContextView)
    requires i <= |chain|
    ensures var d := Descend(chain, i, v);
            Threads(chain, d.trace, v.environment, d.view.environment, v.message)
    decreases |chain| - i
  {
    if i < |chain| {
      var s := chain[i];
      var e := Event(i, PrePhase, v);
      var v1 := Perform(v, s.pre);
      assert Threads(chain, [e], v.environment, v1.environment, v.message) by {
        assert [e][1..] == [];
      }
      if InvokesNext(s) {
        var d := Descend(chain, i + 1, v1);
        DescendThreads(chain, i + 1, v1);
        ThreadsAppend(chain, [e], d.trace, v.environment, v1.environment, d.view.environment, v.message);
      }
    }
  }

  /** The pre-phase runs stages `i`, `i + 1`, ... in registration order, each
      seeing the message and result it started with and the environment its
      predecessor left. */
  lemma {:induction false} DescendTrace(chain: seq<Stage>, i: nat, v: ContextView)
    requires i <= |chain|
    ensures var d := Descend(chain, i, v);
            && PreOrder(d.trace, i) && Sees(d.trace, v.message, v.result)
            && Threads(chain, d.trace, v.environment, d.view.environment, v.message)
  {
    DescendOrder(chain, i, v);
    DescendThreads(chain, i, v);
  }

  /** The first stage that does not reach `next` decides where the pre-phase stops. */
  lemma DescendStopsAt(chain: seq<Stage>, k: nat, v: ContextView)
    requires k < |chain| && AllInvokeNext(chain, 0, k) && !InvokesNext(chain[k])
    ensures !Descend(chain, 0, v).stop.ReachedTrigger?
    ensures Descend(chain, 0, v).stop.at == k
  {
  }

  // ---------------------------------------------------------------------------
  // The post-phase

  datatype Unwinding = Unwinding(trace: seq<Event>, view: ContextView, fault: Option<Fault>)

  /** Unwinds the stages `d - 1` down to `lo`: each runs its code after
      `next`. A stage that throws ends the unwinding: the exception passes
      through every enclosing stage without running its post-code. */
  function Unwind(chain: seq<Stage>, lo: nat, d: nat, v: ContextView): (u: Unwinding)
    requires lo <= d <= |chain|
    ensures u.view.message == v.message && u.view.result == v.result
    ensures u.fault.None? ==>
              |u.trace| == d - lo && forall j | lo <= j < d :: chain[j].postFault.None?
    ensures u.fault.Some? ==>
              && 1 <= |u.trace| <= d - lo
              && chain[d - |u.trace|].postFault == u.fault
              && forall j | d - |u.trace| < j < d :: chain[j].postFault.None?
    decreases d - lo
  {
    if d == lo then Unwinding([], v, None)
    else
      var s := chain[d - 1];
      var e := Event(d - 1, PostPhase, v);
      var v1 := Perform(v, s.post);
      if s.postFault.Some? then Unwinding([e], v1, s.postFault)
      else
        var u := Unwind(chain, lo, d - 1, v1);
        Unwinding([e] + u.trace, u.view, u.fault)
  }

  /** The post-phase runs stages `d - 1`, `d - 2`, ... innermost first, each
      seeing the message and result it started with. */
  lemma {:induction false} UnwindOrder(chain: seq<Stage>, lo: nat, d: nat, v: ContextView)
    requires lo <= d <= |chain|
    ensures var u := Unwind(chain, lo, d, v);
            PostOrder(u.trace, d) && Sees(u.trace, v.message, v.result)
    decreases d - lo
  {
    if d > lo && chain[d - 1].postFault.None? {
      var v1 := Perform(v, chain[d - 1].post);
      var u := Unwind(chain, lo, d - 1, v1);
      UnwindOrder(chain, lo, d - 1, v1);
      var t := [Event(d - 1, PostPhase, v)] + u.trace;
      forall j | 0 <= j < |t|
        ensures t[j].stage + j + 1 == d && t[j].phase == PostPhase
        ensures t[j].view.message == v.message && t[j].view.result == v.result
      {
        if j > 0 { assert t[j] == u.trace[j - 1]; }
      }
    }
  }

  /** Each post-phase stage starts from the environment its predecessor left. */
  lemma {:induction false} UnwindThreads(chain: seq<Stage>, lo: nat, d: nat, v: ContextView)
    requires lo <= d <= |chain|
    ensures var u := Unwind(chain, lo, d, v);
            Threads(chain, u.trace, v.environment, u.view.environment, v.message)
    decreases d - lo
  {
    if d > lo {
      var s := chain[d - 1];
      var e := Event(d - 1, PostPhase, v);
      var v1 := Perform(v, s.post);
      assert Threads(chain, [e], v.environment, v1.environment, v.message) by {
        assert [e][1..] == [];
      }
      if s.postFault.None? {
        var u := Unwind(chain, lo, d - 1, v1);
        UnwindThreads(chain, lo, d - 1, v1);
        ThreadsAppend(chain, [e], u.trace, v.environment, v1.environment, u.view.environment, v.message);
      }
    }
  }

  /** The post-phase runs stages `d - 1`, `d - 2`, ... innermost first, each
      seeing the message and result it started with and the environment its
      predecessor left. */
  lemma {:induction false} UnwindTrace(chain: seq<Stage>, lo: nat, d: nat, v: ContextView)
    requires lo <= d <= |chain|
    ensures var u := Unwind(chain, lo, d, v);
            && PostOrder(u.trace, d) && Sees(u.trace, v.message, v.result)
            && Threads(chain, u.trace, v.environment, u.view.environment, v.message)
  {
    UnwindOrder(chain, lo, d, v);
    UnwindThreads(chain, lo, d, v);
  }

  /** The unwinding ends exactly at the innermost stage whose post-code throws. */
  lemma UnwindStopsAt(chain: seq<Stage>, lo: nat, d: nat, v: ContextView, j: nat)
    requires lo <= j < d <= |chain| && chain[j].postFault.Some?
    requires forall i | j < i < d :: chain[i].postFault.None?
    ensures var u := Unwind(chain, lo, d, v);
            u.fault == chain[j].postFault && |u.trace| == d - j
  {
  }

  /** Unwinding down to `lo` is unwinding down to `lo + 1` followed, unless
      that faulted, by stage `lo`'s own post-code. */
  lemma {:induction false} UnwindPeel(chain: seq<Stage>, lo: nat, d: nat, v: ContextView)
    requires lo < d <= |chain|
    ensures var u := Unwind(chain, lo + 1, d, v);
            Unwind(chain, lo, d, v) ==
              if u.fault.Some? then u
              else Unwinding(u.trace + [Event(lo, PostPhase, u.view)],
                             Perform(u.view, chain[lo].post), chain[lo].postFault)
    decreases d - lo
  {
    if d > lo + 1 {
      var s := chain[d - 1];
      var v1 := Perform(v, s.post);
      if s.postFault.None? {
        UnwindPeel(chain, lo, d - 1, v1);
        var u := Unwind(chain, lo + 1, d - 1, v1);
        assert [Event(d - 1, PostPhase, v)] + (u.trace + [Event(lo, PostPhase, u.view)])
            == ([Event(d - 1, PostPhase, v)] + u.trace) + [Event(lo, PostPhase, u.view)];
      }
    }
  }

  // ---------------------------------------------------------------------------
  // The reference: synchronous onion composition

  datatype Run = Run(trace: seq<Event>, view: ContextView, fault: Option<Fault>, reached: bool)

  /** One stage's body around the outcome `inner` of its continuation: its
      pre-code, then (unless it threw) whatever `next` did, then (unless that
      threw) its own post-code. An exception from `inner` passes straight
      through the stage. */
  function Around(i: nat, s: Stage, v: ContextView, inner: Run): Run
  {
    var e := Event(i, PrePhase, v);
    if s.preFault.Some? then Run([e], Perform(v, s.pre), s.preFault, false)
    else if inner.fault.Some? then Run([e] + inner.trace, inner.view, inner.fault, inner.reached)
    else Run([e] + inner.trace + [Event(i, PostPhase, inner.view)],
             Perform(inner.view, s.post), s.postFault, inner.reached)
  }

  /** What `next` does for a stage that does not call it: nothing. */
  function Skipped(v: ContextView): Run
  {
    Run([], v, None, false)
  }

  /** Runs the nested pipeline as ordinary middleware, the innermost
      continuation recording the function result `r` when it is reached. */
  function RunOnion(p: Pipeline, v: ContextView, r: FunctionResult): Run
  {
    match p
    case Innermost => Run([], v.(result := Some(r)), None, true)
    case Wrap(i, s, next) =>
      var v1 := Perform(v, s.pre);
      Around(i, s, v, if InvokesNext(s) then RunOnion(next, v1, r) else Skipped(v1))
  }

  /** The two halves of the split execution from stage `i`, glued together:
      the pre-phase, then, if it reached the trigger, the post-phase with the
      result recorded; if a stage short-circuited, the unwinding from that
      stage's own post-code; if a stage threw, nothing more. */
  function SplitRun(chain: seq<Stage>, i: nat, v: ContextView, r: FunctionResult): Run
    requires i <= |chain|
  {
    var d := Descend(chain, i, v);
    match d.stop
    case ReachedTrigger =>
      var u := Unwind(chain, i, |chain|, d.view.(result := Some(r)));
      Run(d.trace + u.trace, u.view, u.fault, true)
    case ShortCircuited(k) =>
      var u := Unwind(chain, i, k + 1, d.view);
      Run(d.trace + u.trace, u.view, u.fault, false)
    case FaultedBefore(_, f) => Run(d.trace, d.view, Some(f), false)
  }

  /** The split execution from a stage that calls `next` is that stage's
      body around the split execution of the stages inside it. */
  lemma SplitStepCalls(chain: seq<Stage>, i: nat, v: ContextView, r: FunctionResult)
    requires i < |chain| && InvokesNext(chain[i])
    ensures SplitRun(chain, i, v, r)
         == Around(i, chain[i], v, SplitRun(chain, i + 1, Perform(v, chain[i].pre), r))
  {
    var v1 := Perform(v, chain[i].pre);
    var d := Descend(chain, i + 1, v1);
    assert Descend(chain, i, v) == Descent([Event(i, PrePhase, v)] + d.trace, d.view, d.stop);
    match d.stop
    case ReachedTrigger => SplitStepReached(chain, i, v, r, d);
    case ShortCircuited(k) => SplitStepShort(chain, i, v, r, d);
    case FaultedBefore(_, _) =>
  }

  /** Gluing stage `i`'s pre-event in front of a pre-phase trace and its
      post-event behind the inner unwinding is running its body around them. */
  lemma GlueAround(i: nat, s: Stage, v: ContextView, pre: seq<Event>, u: Unwinding, outer: Unwinding, reached: bool)
    requires InvokesNext(s)
    requires outer == if u.fault.Some? then u
                      else Unwinding(u.trace + [Event(i, PostPhase, u.view)], Perform(u.view, s.post), s.postFault)
    ensures Run([Event(i, PrePhase, v)] + pre + outer.trace, outer.view, outer.fault, reached)
         == Around(i, s, v, Run(pre + u.trace, u.view, u.fault, reached))
  {
  }

  lemma SplitStepReached(chain: seq<Stage>, i: nat, v: ContextView, r: FunctionResult, d: Descent)
    requires i < |chain| && InvokesNext(chain[i])
    requires d == Descend(chain, i + 1, Perform(v, chain[i].pre)) && d.stop.ReachedTrigger?
    requires Descend(chain, i, v) == Descent([Event(i, PrePhase, v)] + d.trace, d.view, d.stop)
    ensures SplitRun(chain, i, v, r)
         == Around(i, chain[i], v, SplitRun(chain, i + 1, Perform(v, chain[i].pre), r))
  {
    var w := d.view.(result := Some(r));
    UnwindPeel(chain, i, |chain|, w);
    var u := Unwind(chain, i + 1, |chain|, w);
    var outer := Unwind(chain, i, |chain|, w);
    GlueAround(i, chain[i], v, d.trace, u, outer, true);
  }

  lemma SplitStepShort(chain: seq<Stage>, i: nat, v: ContextView, r: FunctionResult, d: Descent)
    requires i < |chain| && InvokesNext(chain[i])
    requires d == Descend(chain, i + 1, Perform(v, chain[i].pre)) && d.stop.ShortCircuited?
    requires Descend(chain, i, v) == Descent([Event(i, PrePhase, v)] + d.trace, d.view, d.stop)
    ensures SplitRun(chain, i, v, r)
         == Around(i, chain[i], v, SplitRun(chain, i + 1, Perform(v, chain[i].pre), r))
  {
    var k := d.stop.at;
    UnwindPeel(chain, i, k + 1, d.view);
    var u := Unwind(chain, i + 1, k + 1, d.view);
    var outer := Unwind(chain, i, k + 1, d.view);
    GlueAround(i, chain[i], v, d.trace, u, outer, false);
  }

  /** The split execution from a stage that does not reach `next`. */
  lemma SplitStepStops(chain: seq<Stage>, i: nat, v: ContextView, r: FunctionResult)
    requires i < |chain| && !InvokesNext(chain[i])
    ensures SplitRun(chain, i, v, r) == Around(i, chain[i], v, Skipped(Perform(v, chain[i].pre)))
  {
    if chain[i].preFault.None? {
      UnwindPeel(chain, i, i + 1, Perform(v, chain[i].pre));
    }
  }

  /** Suspending the chain at the trigger and resuming it later changes
      nothing: the split execution is the onion composition of the nested
      pipeline. */
  lemma {:induction false} SplitMatchesOnion(chain: seq<Stage>, i: nat, v: ContextView, r: FunctionResult)
    requires i <= |chain|
    ensures RunOnion(Nest(chain, i), v, r) == SplitRun(chain, i, v, r)
    decreases |chain| - i
  {
    if i < |chain| {
      if InvokesNext(chain[i]) {
        SplitMatchesOnion(chain, i + 1, Perform(v, chain[i].pre), r);
        SplitStepCalls(chain, i, v, r);
      } else {
        SplitStepStops(chain, i, v, r);
      }
    }
  }
}
