/** `swapCtx`: drawing goes to the module-level context `g_ctx`; the
    image export swaps in another context, runs a drawing callback and
    puts the saved context back. The context is a field of one `Painter`
    object, and a callback is a script of draw steps that may itself swap. */
module Context {
  /** A canvas context, by identity. */
  type ContextId = nat

  /** A drawing call, by what it draws (left abstract). */
  type DrawOp = nat

  /** A callback: draw calls and nested swaps, in the order they run. */
  datatype Step = Draw(op: DrawOp) | Swap(target: ContextId, body: seq<Step>)

  /** A draw call as it lands: on the context current at the time. */
  datatype Landed = Landed(ctx: ContextId, op: DrawOp)

  function StepsSize(steps: seq<Step>): nat
  {
    if steps == [] then 0 else StepSize(steps[0]) + StepsSize(steps[1..])
  }

  function StepSize(step: Step): nat
  {
    match step
    case Draw(_) => 1
    case Swap(_, body) => 1 + StepsSize(body)
  }

  /** Where the draw calls of `steps` land when run with `ctx` current. */
  function Trace(ctx: ContextId, steps: seq<Step>): seq<Landed>
    decreases StepsSize(steps), 1
  {
    if steps == [] then []
    else StepTrace(ctx, steps[0]) + Trace(ctx, steps[1..])
  }

  function StepTrace(ctx: ContextId, step: Step): seq<Landed>
    decreases StepSize(step), 0
  {
    match step
    case Draw(op) => [Landed(ctx, op)]
    case Swap(target, body) => Trace(target, body)
  }

  /** Number of draw calls in a script, nested ones included. */
  function DrawCount(steps: seq<Step>): nat
    decreases StepsSize(steps), 1
  {
    if steps == [] then 0 else StepDrawCount(steps[0]) + DrawCount(steps[1..])
  }

  function StepDrawCount(step: Step): nat
    decreases StepSize(step), 0
  {
    match step
    case Draw(_) => 1
    case Swap(_, body) => DrawCount(body)
  }

  /** A script made of draw calls only, with no swap at any depth. */
  predicate SwapFree(steps: seq<Step>)
  {
    forall i :: 0 <= i < |steps| ==> steps[i].Draw?
  }

  class Painter {
    /** `g_ctx`. */
    var ctx: ContextId
    /** Every draw call so far, with the context it went to. */
    var drawn: seq<Landed>

    constructor(initial: ContextId)
      ensures ctx == initial && drawn == []
    {
      ctx := initial;
      drawn := [];
    }

    method DrawOn(op: DrawOp)
      modifies this
      ensures ctx == old(ctx)
      ensures drawn == old(drawn) + [Landed(ctx, op)]
    {
      drawn := drawn + [Landed(ctx, op)];
    }

    /** Run a callback's steps in order. */
    method Run(steps: seq<Step>)
      modifies this
      ensures ctx == old(ctx)
      ensures drawn == old(drawn) + Trace(old(ctx), steps)
      decreases StepsSize(steps), 1
    {
      var i := 0;
      while i < |steps|
        invariant 0 <= i <= |steps|
        invariant ctx == old(ctx)
        invariant drawn == old(drawn) + Trace(old(ctx), steps[..i])
        decreases |steps| - i
      {
        TraceSnoc(old(ctx), steps[..i], steps[i]);
        assert steps[..i + 1] == steps[..i] + [steps[i]];
        SizeOfElement(steps, i);
        match steps[i] {
          case Draw(op) =>
            DrawOn(op);
          case Swap(target, body) =>
            SwapCtx(target, body);
        }
        i := i + 1;
      }
      assert steps[..i] == steps;
    }

    /** `swapCtx`: save `g_ctx`, make `target` current, run the callback,
        and restore the saved context. */
    method SwapCtx(target: ContextId, callback: seq<Step>)
      modifies this
      ensures ctx == old(ctx)
      ensures drawn == old(drawn) + Trace(target, callback)
      decreases StepsSize(callback), 2
    {
      var saved := ctx;
      ctx := target;
      Run(callback);
      ctx := saved;
    }
  }

  lemma {:induction false} SizeOfElement(steps: seq<Step>, i: nat)
    requires i < |steps|
    ensures StepSize(steps[i]) <= StepsSize(steps)
    decreases i
  {
    if i > 0 {
      SizeOfElement(steps[1..], i - 1);
    }
  }

  lemma {:induction false} TraceAppend(ctx: ContextId, a: seq<Step>, b: seq<Step>)
    ensures Trace(ctx, a + b) == Trace(ctx, a) + Trace(ctx, b)
    decreases |a|
  {
    if a != [] {
      assert (a + b)[1..] == a[1..] + b;
      TraceAppend(ctx, a[1..], b);
    } else {
      assert a + b == b;
    }
  }

  lemma TraceSnoc(ctx: ContextId, a: seq<Step>, s: Step)
    ensures Trace(ctx, a + [s]) == Trace(ctx, a) + StepTrace(ctx, s)
  {
    TraceAppend(ctx, a, [s]);
    assert [s][1..] == [];
  }

  /** Every draw call of a callback lands somewhere: the trace has one
      entry per draw call, nested ones included. */
  lemma {:induction false} TraceCountsDraws(ctx: ContextId, steps: seq<Step>)
    ensures |Trace(ctx, steps)| == DrawCount(steps)
    decreases StepsSize(steps), 1
  {
    if steps != [] {
      StepTraceCountsDraws(ctx, steps[0]);
      TraceCountsDraws(ctx, steps[1..]);
    }
  }

  lemma {:induction false} StepTraceCountsDraws(ctx: ContextId, step: Step)
    ensures |StepTrace(ctx, step)| == StepDrawCount(step)
    decreases StepSize(step), 0
  {
    match step
    case Draw(_) =>
    case Swap(target, body) => TraceCountsDraws(target, body);
  }

  /** A callback that does not swap again draws everything on the
      swapped-in context, in order. */
  lemma {:induction false} FlatCallbackLandsOnTarget(target: ContextId, steps: seq<Step>)
    requires SwapFree(steps)
    ensures |Trace(target, steps)| == |steps|
    ensures forall i :: 0 <= i < |steps| ==> Trace(target, steps)[i] == Landed(target, steps[i].op)
  {
    if steps != [] {
      FlatCallbackLandsOnTarget(target, steps[1..]);
      assert Trace(target, steps) == [Landed(target, steps[0].op)] + Trace(target, steps[1..]);
    }
  }

  /** Swaps nest: after an inner swap the outer target is current again,
      so a draw after the inner swap lands on the outer target. */
  lemma SwapRestoresOuter(outer: ContextId, inner: ContextId, innerBody: seq<Step>, op: DrawOp)
    ensures var t := Trace(outer, [Swap(inner, innerBody), Draw(op)]);
            t == Trace(inner, innerBody) + [Landed(outer, op)]
  {
    TraceSnoc(outer, [Swap(inner, innerBody)], Draw(op));
    TraceSnoc(outer, [], Swap(inner, innerBody));
    assert [Swap(inner, innerBody), Draw(op)] == [Swap(inner, innerBody)] + [Draw(op)];
    assert [] + [Swap(inner, innerBody)] == [Swap(inner, innerBody)];
  }
}
