/**
 * The handler chain of a router: its middleware run in order, the chain stops
 * right after a step that leaves the request halted, and the final handler is
 * reached only when no step halted.
 */
module Chain {
  import opened Options
  import opened Contexts

  /** The identity of a handler function; what its body does is given by an effect on the context. */
  type HandlerId = nat

  /**
   * A step of the chain: a middleware function, or the step that stores the
   * matched URL parameters in the request's context.
   */
  datatype Step = Call(fn: HandlerId) | BindParams(params: map<string, string>)

  /** What a middleware function does to the request's context (it may bind values or halt). */
  type Effect = (HandlerId, Context) -> Context

  /**
   * The request's context after one step. The binding step (setURLParams)
   * makes exactly its parameters visible, keeps every other value and does
   * not halt the request.
   */
  function Apply(step: Step, c: Context, effect: Effect): (r: Context)
    ensures step.BindParams? ==> Params(r) == step.params && Halted(r) == Halted(c)
    ensures step.BindParams? ==> forall k :: k != ParamsKey ==> Lookup(r, k) == Lookup(c, k)
  {
    match step
    case Call(h) => effect(h, c)
    case BindParams(p) =>
      ParamsRoundTrip(c, p, "");
      WithValue(c, ParamsKey, ParamMap(p))
  }

  /** The context after the given steps, run one after the other. */
  function ApplyAll(steps: seq<Step>, c: Context, effect: Effect): Context
    decreases |steps|
  {
    if steps == [] then c else ApplyAll(steps[1..], Apply(steps[0], c, effect), effect)
  }

  /**
   * The outcome of running a chain: the steps that ran, in order, the
   * request's context afterwards, and whether the final handler was reached.
   */
  datatype RunResult = RunResult(ran: seq<Step>, ctx: Context, reachedLast: bool)

  /**
   * run: every step in order; after each one, a halted request ends the run.
   * The steps that ran are a prefix of the chain, the whole chain when the
   * final handler is reached; a run that stops early stops on a halted request.
   */
  function RunChain(chain: seq<Step>, c: Context, effect: Effect): (r: RunResult)
    ensures r.ran <= chain
    ensures r.reachedLast ==> r.ran == chain
    ensures !r.reachedLast ==> r.ran != [] && Halted(r.ctx)
    decreases |chain|
  {
    if chain == [] then RunResult([], c, true)
    else
      var c' := Apply(chain[0], c, effect);
      if Halted(c') then RunResult([chain[0]], c', false)
      else
        var rest := RunChain(chain[1..], c', effect);
        RunResult([chain[0]] + rest.ran, rest.ctx, rest.reachedLast)
  }

  /** No prefix of the first n steps of a chain leaves the request halted. */
  predicate NoHaltWithin(chain: seq<Step>, c: Context, effect: Effect, n: nat)
    requires n <= |chain|
  {
    forall k :: 1 <= k <= n ==> !Halted(ApplyAll(chain[..k], c, effect))
  }

  lemma ApplyAllStep(chain: seq<Step>, c: Context, effect: Effect, k: nat)
    requires 1 <= k <= |chain|
    ensures ApplyAll(chain[..k], c, effect) == ApplyAll(chain[1..][..k - 1], Apply(chain[0], c, effect), effect)
  {
    assert chain[..k][1..] == chain[1..][..k - 1];
  }

  /**
   * The run stops exactly after the first step that halts: the context it ends
   * with is the one the steps that ran produce, none of the earlier steps
   * halted, and the final handler is reached exactly when no step of the chain
   * halts.
   */
  lemma {:induction false} RunStopsAtFirstHalt(chain: seq<Step>, c: Context, effect: Effect)
    ensures var r := RunChain(chain, c, effect);
      r.ctx == ApplyAll(r.ran, c, effect) &&
      NoHaltWithin(chain, c, effect, if r.reachedLast then |chain| else |r.ran| - 1) &&
      (r.reachedLast <==> NoHaltWithin(chain, c, effect, |chain|))
    decreases |chain|
  {
    var r := RunChain(chain, c, effect);
    if chain != [] {
      var c' := Apply(chain[0], c, effect);
      assert ApplyAll(chain[..1], c, effect) == c' by {
        ApplyAllStep(chain, c, effect, 1);
      }
      if !Halted(c') {
        var tail := chain[1..];
        RunStopsAtFirstHalt(tail, c', effect);
        var rest := RunChain(tail, c', effect);
        assert r.ran == [chain[0]] + rest.ran;
        assert ([chain[0]] + rest.ran)[1..] == rest.ran;
        forall k | 2 <= k <= |chain|
          ensures ApplyAll(chain[..k], c, effect) == ApplyAll(tail[..k - 1], c', effect)
        {
          ApplyAllStep(chain, c, effect, k);
        }
        if !NoHaltWithin(tail, c', effect, |tail|) {
          var k :| 1 <= k <= |tail| && Halted(ApplyAll(tail[..k], c', effect));
          assert Halted(ApplyAll(chain[..k + 1], c, effect));
        }
      }
    }
  }

  /**
   * A step that halts the request stops the chain at once: when the first
   * middleware halts, only it runs and the final handler is not reached.
   */
  lemma HaltingStepStops(chain: seq<Step>, c: Context, effect: Effect)
    requires chain != [] && Halted(Apply(chain[0], c, effect))
    ensures RunChain(chain, c, effect) == RunResult(chain[..1], Apply(chain[0], c, effect), false)
  {
  }

  /**
   * The chain a dispatch runs ends with the parameter-binding step, so when
   * the final handler is reached it sees exactly the matched parameters.
   */
  lemma {:induction false} HandlerSeesParams(mw: seq<Step>, p: map<string, string>, c: Context, effect: Effect)
    ensures var r := RunChain(mw + [BindParams(p)], c, effect);
      r.reachedLast ==> Params(r.ctx) == p
    decreases |mw|
  {
    var chain := mw + [BindParams(p)];
    if mw == [] {
      assert chain[1..] == [];
      ParamsRoundTrip(c, p, "");
    } else {
      var c' := Apply(mw[0], c, effect);
      assert chain[0] == mw[0] && chain[1..] == mw[1..] + [BindParams(p)];
      if !Halted(c') {
        HandlerSeesParams(mw[1..], p, c', effect);
      }
    }
  }

  /**
   * The middleware unit tests: a value bound by a middleware function reaches
   * the final handler; a middleware function that halts keeps every later
   * function and the final handler from running.
   */
  lemma MiddlewareExamples(effect: Effect, tag: Key)
    requires effect(1, Background) == WithValue(Background, tag, Text("bar"))
    requires effect(2, Background) == Cancel(Background)
    ensures var r := RunChain([Call(1)], Background, effect);
      r.reachedLast && r.ran == [Call(1)] && Lookup(r.ctx, tag) == Some(Text("bar"))
    ensures RunChain([Call(2), Call(3)], Background, effect) == RunResult([Call(2)], Cancel(Background), false)
  {
    var chain := [Call(1)];
    assert chain[1..] == [];
  }

  /** The steps a router's middleware list contributes to its chain. */
  function Calls(mw: seq<HandlerId>): (steps: seq<Step>)
    ensures |steps| == |mw|
    ensures forall i :: 0 <= i < |mw| ==> steps[i] == Call(mw[i])
  {
    seq(|mw|, i requires 0 <= i < |mw| => Call(mw[i]))
  }

  /** A run preceded by steps that ran without halting. */
  function Prepend(steps: seq<Step>, r: RunResult): RunResult
  {
    RunResult(steps + r.ran, r.ctx, r.reachedLast)
  }

  lemma PrependStep(prefix: seq<Step>, s: Step, r: RunResult)
    ensures Prepend(prefix, Prepend([s], r)) == Prepend(prefix + [s], r)
  {
    assert prefix + ([s] + r.ran) == (prefix + [s]) + r.ran;
  }

  /** One step of the run on the suffix of the chain that starts at index i. */
  lemma RunFrom(chain: seq<Step>, i: nat, c: Context, effect: Effect)
    requires i < |chain|
    ensures var c' := Apply(chain[i], c, effect);
      (Halted(c') ==> RunChain(chain[i..], c, effect) == RunResult([chain[i]], c', false)) &&
      (!Halted(c') ==> RunChain(chain[i..], c, effect) == Prepend([chain[i]], RunChain(chain[i + 1..], c', effect)))
  {
    assert chain[i..][0] == chain[i];
    assert chain[i..][1..] == chain[i + 1..];
  }

  /**
   * The run of the whole chain, once the first i steps ran without halting
   * and left context c, after step i: it ends there when step i halts and
   * otherwise goes on from step i + 1.
   */
  lemma RunStep(chain: seq<Step>, i: nat, c0: Context, c: Context, effect: Effect)
    requires i < |chain|
    requires RunChain(chain, c0, effect) == Prepend(chain[..i], RunChain(chain[i..], c, effect))
    ensures var c' := Apply(chain[i], c, effect);
      (Halted(c') ==> RunChain(chain, c0, effect) == RunResult(chain[..i + 1], c', false)) &&
      (!Halted(c') ==> RunChain(chain, c0, effect) == Prepend(chain[..i + 1], RunChain(chain[i + 1..], c', effect)))
  {
    var c' := Apply(chain[i], c, effect);
    RunFrom(chain, i, c, effect);
    assert chain[..i + 1] == chain[..i] + [chain[i]];
    if !Halted(c') {
      PrependStep(chain[..i], chain[i], RunChain(chain[i + 1..], c', effect));
    }
  }

  /**
   * run, on the request itself: each step replaces the request's context, and
   * a halted context ends the loop.
   */
  method Run(chain: seq<Step>, req: Request, effect: Effect) returns (r: RunResult)
    modifies req
    ensures r == RunChain(chain, old(req.ctx), effect)
    ensures req.ctx == r.ctx
  {
    ghost var c0 := req.ctx;
    var i := 0;
    assert chain[..0] == [] && chain[0..] == chain;
    assert Prepend([], RunChain(chain, c0, effect)) == RunChain(chain, c0, effect);
    while i < |chain|
      invariant 0 <= i <= |chain|
      invariant RunChain(chain, c0, effect) == Prepend(chain[..i], RunChain(chain[i..], req.ctx, effect))
    {
      RunStep(chain, i, c0, req.ctx, effect);
      req.BindContext(Apply(chain[i], req.ctx, effect));
      if Halted(req.ctx) {
        return RunResult(chain[..i + 1], req.ctx, false);
      }
      i := i + 1;
    }
    assert chain[..i] == chain && chain[i..] == [];
    return RunResult(chain, req.ctx, true);
  }
}
