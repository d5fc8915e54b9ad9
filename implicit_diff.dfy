/** The hypergradient estimator: stage 1 (the outer gradient dL_val/dW) comes
    from the differentiation engine, stage 2 is the truncated Neumann loop,
    stage 3 is the mixed vector-Jacobian product at the stage-2 result,
    negated. The engine's two products are given as functions: `hvp` is the
    product of `grad_train` with respect to the shared parameters and `mixed`
    the product of `grad_train` with respect to the auxiliary parameters, each
    taking the cotangent list and returning one gradient per parameter. */
module ImplicitDiff {
  import opened Gradients
  import opened Neumann

  /** What `grad` returns: the mixed product with the stage-2 estimate as
      cotangent, every entry negated. */
  function Hypergradient(lr: real, truncateIter: int, dlossValDparams: Grads,
                         hvp: Grads -> Grads, mixed: Grads -> Grads): Result<Grads>
  {
    match Estimate(lr, truncateIter, hvp, dlossValDparams)
    case TypeError(op) => TypeError(op)
    case Ok(p) => NegateAll(mixed(p))
  }

  class Hypergrad {
    /** Scale applied to every Hessian-vector product inside the loop. */
    const learningRate: real
    /** Number of passes of the loop: the number of Neumann terms after the first. */
    const truncateIter: int

    constructor (learningRate: real := 0.1, truncateIter: int := 3)
      ensures this.learningRate == learningRate && this.truncateIter == truncateIter
    {
      this.learningRate := learningRate;
      this.truncateIter := truncateIter;
    }

    /** Stage 2. Returns the partial sum `p`, and (ghost) the cotangent of
        every Hessian-vector product the loop asked for, in order: one per
        pass, the residual `v` at the start of that pass. A pass that raises
        has made its product first. */
    method ApproxInverseHvp(dlossValDparams: Grads, hvp: Grads -> Grads)
      returns (r: Result<Grads>, ghost cotangents: seq<Grads>)
      ensures r == Estimate(learningRate, truncateIter, hvp, dlossValDparams)
      ensures truncateIter <= 0 ==> r == Ok(dlossValDparams)
      ensures cotangents == Cotangents(learningRate, hvp, dlossValDparams, |cotangents|)
      ensures r.Ok? ==> |cotangents| == Iterations(truncateIter)
      ensures r.TypeError? ==> 1 <= |cotangents| <= Iterations(truncateIter)
      ensures r.TypeError? ==> Iterate(learningRate, hvp, dlossValDparams, |cotangents|) == TypeError(r.op)
    {
      var p, v := dlossValDparams, dlossValDparams;
      cotangents := [];
      var k := 0;
      while k < truncateIter
        invariant 0 <= k <= Iterations(truncateIter)
        invariant Iterate(learningRate, hvp, dlossValDparams, k) == Ok(State(v, p))
        invariant cotangents == Cotangents(learningRate, hvp, dlossValDparams, k) && |cotangents| == k
      {
        NextPass(learningRate, hvp, dlossValDparams, k, State(v, p));
        cotangents := cotangents + [v];
        var next := Step(learningRate, hvp, State(v, p));
        if next.TypeError? {
          RaisesInPass(learningRate, truncateIter, hvp, dlossValDparams, k, State(v, p));
          return TypeError(next.op), cotangents;
        }
        v, p := next.value.v, next.value.p;
        k := k + 1;
      }
      r := Ok(p);
    }

    /** The three stages; `dlossValDparams` is the engine's stage-1 result. */
    method Grad(dlossValDparams: Grads, hvp: Grads -> Grads, mixed: Grads -> Grads) returns (r: Result<Grads>)
      ensures r == Hypergradient(learningRate, truncateIter, dlossValDparams, hvp, mixed)
    {
      var v2: Result<Grads>;
      ghost var cotangents: seq<Grads>;
      v2, cotangents := ApproxInverseHvp(dlossValDparams, hvp);
      if v2.TypeError? {
        return TypeError(v2.op);
      }
      var v3 := mixed(v2.value);
      r := NegateAll(v3);
    }
  }

  /** The result is the negated mixed product and nothing else: a stage-2
      exception propagates, a `None` in the mixed product raises in the
      negation, and otherwise there is one entry per entry of the mixed
      product, each its negation. */
  lemma HypergradientIsNegatedMixedProduct(lr: real, truncateIter: int, v0: Grads, hvp: Grads -> Grads, mixed: Grads -> Grads)
    ensures var e := Estimate(lr, truncateIter, hvp, v0);
      e.TypeError? ==> Hypergradient(lr, truncateIter, v0, hvp, mixed) == TypeError(e.op)
    ensures var e, r := Estimate(lr, truncateIter, hvp, v0), Hypergradient(lr, truncateIter, v0, hvp, mixed);
      e.Ok? ==>
        && (r.Ok? <==> Present(mixed(e.value)))
        && (r.TypeError? ==> r.op == Negate)
        && (r.Ok? ==> |r.value| == |mixed(e.value)|
                      && forall i | 0 <= i < |r.value| :: r.value[i].value == -mixed(e.value)[i].value)
  {
  }

  /** On a present outer gradient `x` and engine products that agree with
      real maps `h` and `m`, `grad` succeeds with `-m(Σ_{k=0..n} (I - lr·h)^k x)`
      for `n = max(truncate_iter, 0)`. */
  lemma {:induction false} HypergradientClosedForm(lr: real, truncateIter: int, x: seq<real>,
                                                   hvp: Grads -> Grads, h: seq<real> -> seq<real>,
                                                   mixed: Grads -> Grads, m: seq<real> -> seq<real>)
    requires KeepsLength(h) && Agrees(hvp, h) && Agrees(mixed, m)
    ensures Hypergradient(lr, truncateIter, Lift(x), hvp, mixed)
         == Ok(Lift(Times(-1.0, m(NeumannSum(lr, h, x, Iterations(truncateIter))))))
  {
    var p := NeumannSum(lr, h, x, Iterations(truncateIter));
    IterateIsNeumannSum(lr, hvp, h, x, Iterations(truncateIter));
    assert mixed(Lift(p)) == Lift(m(p));
    NegateAllLift(m(p));
  }

  /** A test product for an output that is `c` times its input in every
      coordinate. Its `None` branch is an arbitrary choice for this test
      product, not the engine's behaviour; the scenario below only applies it
      to lists without `None`. */
  function Linear(c: real): Grads -> Grads
  {
    (g: Grads) => seq(|g|, i requires 0 <= i < |g| => if g[i].Some? then Some(c * g[i].value) else None)
  }

  lemma LinearAgrees(c: real)
    ensures Agrees(Linear(c), Scaling(c))
  {
    forall x ensures Linear(c)(Lift(x)) == Lift(Scaling(c)(x)) {
      SameValues(Linear(c)(Lift(x)), Lift(Scaling(c)(x)));
    }
  }

  /** One shared parameter `w`, `grad_train = 0.5·w + 2.0·phi`, outer
      gradient `w0`, learning rate 0.1 and three passes: the estimate is
      `(1 + 0.95 + 0.95² + 0.95³)·w0 = 3.709875·w0`. */
  lemma ScenarioEstimate(w0: real)
    ensures KeepsLength(Scaling(0.5))
    ensures NeumannSum(0.1, Scaling(0.5), [w0], 3) == [3.709875 * w0]
    ensures Estimate(0.1, 3, Linear(0.5), [Some(w0)]) == Ok([Some(3.709875 * w0)])
  {
    LinearAgrees(0.5);
    ScalarResidual(0.1, 0.5, [w0], 3);
    var p := NeumannSum(0.1, Scaling(0.5), [w0], 3);
    assert Power(0.95, 4) == 0.81450625;
    assert Times(0.1 * 0.5, p)[0] == Times(1.0 - Power(0.95, 4), [w0])[0];
    assert p == [3.709875 * w0];
    assert Lift([w0]) == [Some(w0)];
    IterateIsNeumannSum(0.1, Linear(0.5), Scaling(0.5), [w0], 3);
    assert Lift(p) == [Some(3.709875 * w0)];
  }

  /** The same scenario end to end: with the mixed product `2.0·p` the
      hypergradient is `-2.0·3.709875·w0 = -7.41975·w0`. */
  lemma Scenario(w0: real)
    ensures Hypergradient(0.1, 3, [Some(w0)], Linear(0.5), Linear(2.0)) == Ok([Some(-7.41975 * w0)])
  {
    ScenarioEstimate(w0);
    LinearAgrees(2.0);
    var m := Linear(2.0)([Some(3.709875 * w0)]);
    assert m == [Some(7.41975 * w0)] && m[1..] == [];
    SameValues(NegateAll(m).value, [Some(-7.41975 * w0)]);
  }
}
