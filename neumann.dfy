/** The truncated Neumann-series iteration of `_approx_inverse_hvp`: its loop
    as a recursive specification on gradient lists, the same series on exact
    real vectors, and what the iteration computes. */
module Neumann {
  import opened Gradients

  /** The two accumulators of the loop: the residual `v` and the partial sum `p`. */
  datatype State = State(v: Grads, p: Grads)

  /** One pass of the loop body: the Hessian-vector product with cotangent
      `v`, scaled by the learning rate, subtracted from `v`; the updated `v`
      is then added to `p`. Each comprehension raises on a `None` operand. */
  function Step(lr: real, hvp: Grads -> Grads, s: State): Result<State>
  {
    match ScaleAll(hvp(s.v), lr)
    case TypeError(op) => TypeError(op)
    case Ok(g) =>
      match Pairwise(Subtract, s.v, g)
      case TypeError(op) => TypeError(op)
      case Ok(v) =>
        match Pairwise(Accumulate, s.p, v)
        case TypeError(op) => TypeError(op)
        case Ok(p) => Ok(State(v, p))
  }

  /** The state after `n` passes, starting from `p = v = v0`; the first
      exception ends the loop. */
  function Iterate(lr: real, hvp: Grads -> Grads, v0: Grads, n: nat): Result<State>
  {
    if n == 0 then Ok(State(v0, v0))
    else match Iterate(lr, hvp, v0, n - 1)
      case TypeError(op) => TypeError(op)
      case Ok(s) => Step(lr, hvp, s)
  }

  /** How many times `range(truncate_iter)` runs: never for a count below one. */
  function Iterations(truncateIter: int): nat
  {
    if truncateIter <= 0 then 0 else truncateIter
  }

  /** What `_approx_inverse_hvp` returns: the partial sum `p` after
      `truncate_iter` passes. */
  function Estimate(lr: real, truncateIter: int, hvp: Grads -> Grads, v0: Grads): Result<Grads>
  {
    match Iterate(lr, hvp, v0, Iterations(truncateIter))
    case TypeError(op) => TypeError(op)
    case Ok(s) => Ok(s.p)
  }

  /** The cotangents of the Hessian-vector products that the first `n`
      passes ask for: the residual `v` at the start of each pass that runs. */
  function Cotangents(lr: real, hvp: Grads -> Grads, v0: Grads, n: nat): (c: seq<Grads>)
    ensures |c| <= n
  {
    if n == 0 then []
    else match Iterate(lr, hvp, v0, n - 1)
      case TypeError(_) => Cotangents(lr, hvp, v0, n - 1)
      case Ok(s) => Cotangents(lr, hvp, v0, n - 1) + [s.v]
  }

  /** Up to a pass that raises, there is one product per pass, and the k-th
      has the residual after k passes as its cotangent. */
  lemma {:induction false} CotangentsAreResiduals(lr: real, hvp: Grads -> Grads, v0: Grads, n: nat, k: nat)
    requires k < n
    requires Iterate(lr, hvp, v0, n - 1).Ok?
    ensures |Cotangents(lr, hvp, v0, n)| == n
    ensures Iterate(lr, hvp, v0, k).Ok? && Cotangents(lr, hvp, v0, n)[k] == Iterate(lr, hvp, v0, k).value.v
  {
    if k < n - 1 {
      PrefixSucceeds(lr, hvp, v0, n - 2, n - 1);
      CotangentsAreResiduals(lr, hvp, v0, n - 1, k);
    } else if n > 1 {
      PrefixSucceeds(lr, hvp, v0, n - 2, n - 1);
      CotangentsAreResiduals(lr, hvp, v0, n - 1, 0);
    }
  }

  /** A pass from a reachable state asks for one product, with the current
      residual as cotangent, and its outcome is the next state or exception. */
  lemma NextPass(lr: real, hvp: Grads -> Grads, v0: Grads, k: nat, s: State)
    requires Iterate(lr, hvp, v0, k) == Ok(s)
    ensures Iterate(lr, hvp, v0, k + 1) == Step(lr, hvp, s)
    ensures Cotangents(lr, hvp, v0, k + 1) == Cotangents(lr, hvp, v0, k) + [s.v]
  {
  }

  /** A pass that raises ends the loop with that exception. */
  lemma RaisesInPass(lr: real, truncateIter: int, hvp: Grads -> Grads, v0: Grads, k: nat, s: State)
    requires k < Iterations(truncateIter)
    requires Iterate(lr, hvp, v0, k) == Ok(s) && Step(lr, hvp, s).TypeError?
    ensures Estimate(lr, truncateIter, hvp, v0) == TypeError(Step(lr, hvp, s).op)
  {
    FailureIsFinal(lr, hvp, v0, k + 1, Iterations(truncateIter));
  }

  // What one pass does.

  /** A pass from a state whose accumulators have equal lengths scales first
      and then subtracts, `v'[i] = v[i] - H(v)[i]·lr`, and adds the UPDATED
      residual to the sum, `p'[i] = p[i] + v'[i]`; `zip` cuts both to the
      shorter of `v` and `H(v)`, and nothing `None` is left. */
  lemma StepUpdates(lr: real, hvp: Grads -> Grads, s: State)
    requires |s.p| == |s.v|
    requires Step(lr, hvp, s).Ok?
    ensures var t := Step(lr, hvp, s).value;
      && |t.v| == |t.p| == Min(|s.v|, |hvp(s.v)|)
      && Present(t.v) && Present(t.p)
      && (forall i | 0 <= i < |t.v| :: t.v[i].value == s.v[i].value - hvp(s.v)[i].value * lr)
      && (forall i | 0 <= i < |t.p| :: t.p[i].value == s.p[i].value + t.v[i].value)
  {
  }

  /** The accumulators keep equal lengths, never grow, and after at least one
      pass hold no `None`. */
  lemma {:induction false} IterateShape(lr: real, hvp: Grads -> Grads, v0: Grads, n: nat)
    requires Iterate(lr, hvp, v0, n).Ok?
    ensures var s := Iterate(lr, hvp, v0, n).value;
      && |s.p| == |s.v| <= |v0|
      && (n > 0 ==> Present(s.v) && Present(s.p))
  {
    if n > 0 {
      IterateShape(lr, hvp, v0, n - 1);
      StepUpdates(lr, hvp, Iterate(lr, hvp, v0, n - 1).value);
    }
  }

  /** When every Hessian-vector product is as long as its cotangent, the
      estimate has one entry per shared parameter. */
  lemma {:induction false} IterateKeepsLength(lr: real, hvp: Grads -> Grads, v0: Grads, n: nat)
    requires forall g :: |hvp(g)| == |g|
    requires Iterate(lr, hvp, v0, n).Ok?
    ensures |Iterate(lr, hvp, v0, n).value.v| == |v0|
    ensures |Iterate(lr, hvp, v0, n).value.p| == |v0|
  {
    if n > 0 {
      IterateKeepsLength(lr, hvp, v0, n - 1);
      StepUpdates(lr, hvp, Iterate(lr, hvp, v0, n - 1).value);
    }
  }

  /** Once a pass raises, every longer loop raises the same exception. */
  lemma {:induction false} FailureIsFinal(lr: real, hvp: Grads -> Grads, v0: Grads, k: nat, n: nat)
    requires k <= n
    requires Iterate(lr, hvp, v0, k).TypeError?
    ensures Iterate(lr, hvp, v0, n) == Iterate(lr, hvp, v0, k)
    decreases n - k
  {
    if k < n {
      FailureIsFinal(lr, hvp, v0, k, n - 1);
    }
  }

  /** Every shorter loop of a loop that succeeds succeeds too. */
  lemma PrefixSucceeds(lr: real, hvp: Grads -> Grads, v0: Grads, k: nat, n: nat)
    requires k <= n
    requires Iterate(lr, hvp, v0, n).Ok?
    ensures Iterate(lr, hvp, v0, k).Ok?
  {
    if Iterate(lr, hvp, v0, k).TypeError? {
      FailureIsFinal(lr, hvp, v0, k, n);
    }
  }

  /** `p + v` at line 68 never raises: the partial sum is present wherever
      the residual was before the subtraction succeeded. */
  lemma {:induction false} AccumulateNeverRaises(lr: real, hvp: Grads -> Grads, v0: Grads, n: nat)
    ensures Iterate(lr, hvp, v0, n) != TypeError(Accumulate)
    ensures Iterate(lr, hvp, v0, n).Ok? ==> var s := Iterate(lr, hvp, v0, n).value;
      s.p == s.v || Present(s.p)
  {
    if n > 0 {
      AccumulateNeverRaises(lr, hvp, v0, n - 1);
      var prev := Iterate(lr, hvp, v0, n - 1);
      if prev.Ok? {
        IterateShape(lr, hvp, v0, n - 1);
        var s := prev.value;
        var h := ScaleAll(hvp(s.v), lr);
        if h.Ok? {
          var sub := Pairwise(Subtract, s.v, h.value);
          if sub.Ok? {
            assert forall i | 0 <= i < Min(|s.p|, |sub.value|) :: s.p[i].Some? && sub.value[i].Some?;
          }
        }
      }
    }
  }

  /** A parameter that the outer gradient leaves `None` is not treated as
      zero: if the Hessian-vector product covers its position, the first pass
      raises, in the subtraction when the product itself has no `None` and in
      the scaling otherwise. */
  lemma UnusedParameterRaises(lr: real, hvp: Grads -> Grads, v0: Grads, n: nat, i: nat)
    requires n >= 1
    requires i < |v0| && i < |hvp(v0)| && v0[i].None?
    ensures Iterate(lr, hvp, v0, n) == TypeError(if Present(hvp(v0)) then Subtract else Scale)
  {
    assert Iterate(lr, hvp, v0, 1) == Step(lr, hvp, State(v0, v0));
    FailureIsFinal(lr, hvp, v0, 1, n);
  }

  // The same iteration on exact real vectors.

  /** The Hessian-vector product maps a vector to one of the same length. */
  ghost predicate KeepsLength(h: seq<real> -> seq<real>)
  {
    forall x :: |h(x)| == |x|
  }

  /** `hvp` is the real map `h` on gradient lists without `None`. */
  ghost predicate Agrees(hvp: Grads -> Grads, h: seq<real> -> seq<real>)
  {
    forall x :: hvp(Lift(x)) == Lift(h(x))
  }

  /** `h` distributes over vector addition. */
  ghost predicate Additive(h: seq<real> -> seq<real>)
  {
    KeepsLength(h) && forall x, y | |x| == |y| :: h(Add(x, y)) == Add(h(x), h(y))
  }

  /** `(I - lr·H)^k x`: the k-th term of the Neumann series. */
  function Term(lr: real, h: seq<real> -> seq<real>, x: seq<real>, k: nat): (t: seq<real>)
    requires KeepsLength(h)
    ensures |t| == |x|
  {
    if k == 0 then x
    else
      var y := Term(lr, h, x, k - 1);
      Sub(y, Times(lr, h(y)))
  }

  /** `Σ_{k=0..n} (I - lr·H)^k x`: the Neumann series truncated after `n + 1` terms. */
  function NeumannSum(lr: real, h: seq<real> -> seq<real>, x: seq<real>, n: nat): (s: seq<real>)
    requires KeepsLength(h)
    ensures |s| == |x|
  {
    if n == 0 then Term(lr, h, x, 0)
    else Add(NeumannSum(lr, h, x, n - 1), Term(lr, h, x, n))
  }

  /** On a present outer gradient and an engine that agrees with a real map,
      the loop succeeds, `v` is the n-th term and `p` the sum of terms 0 to n:
      the first term is counted once and the last one is the updated residual. */
  lemma {:induction false} IterateIsNeumannSum(lr: real, hvp: Grads -> Grads, h: seq<real> -> seq<real>, x: seq<real>, n: nat)
    requires KeepsLength(h) && Agrees(hvp, h)
    ensures Iterate(lr, hvp, Lift(x), n) == Ok(State(Lift(Term(lr, h, x, n)), Lift(NeumannSum(lr, h, x, n))))
  {
    if n > 0 {
      IterateIsNeumannSum(lr, hvp, h, x, n - 1);
      var t := Term(lr, h, x, n - 1);
      var s := NeumannSum(lr, h, x, n - 1);
      assert hvp(Lift(t)) == Lift(h(t));
      ScaleAllLift(h(t), lr);
      assert Times(lr, h(t)) == seq(|t|, i requires 0 <= i < |t| => h(t)[i] * lr) by {
        assert forall i | 0 <= i < |t| :: lr * h(t)[i] == h(t)[i] * lr;
      }
      PairwiseLift(Subtract, t, Times(lr, h(t)));
      PairwiseLift(Accumulate, s, Term(lr, h, x, n));
    }
  }

  /** With an additive `H`, `lr·H` applied to the partial sum telescopes to
      the outer gradient minus the next term: the truncated series solves
      `lr·H p = x` up to the residual `(I - lr·H)^(n+1) x`. */
  lemma {:induction false} Telescoping(lr: real, h: seq<real> -> seq<real>, x: seq<real>, n: nat)
    requires Additive(h)
    ensures Times(lr, h(NeumannSum(lr, h, x, n))) == Sub(x, Term(lr, h, x, n + 1))
  {
    if n == 0 {
      TelescopingFirst(lr, h, x);
    } else {
      Telescoping(lr, h, x, n - 1);
      TelescopingNext(lr, h, x, n);
    }
  }

  lemma TelescopingFirst(lr: real, h: seq<real> -> seq<real>, x: seq<real>)
    requires KeepsLength(h)
    ensures Times(lr, h(NeumannSum(lr, h, x, 0))) == Sub(x, Term(lr, h, x, 1))
  {
    SubSub(x, Times(lr, h(x)));
  }

  lemma TelescopingNext(lr: real, h: seq<real> -> seq<real>, x: seq<real>, n: nat)
    requires Additive(h) && n > 0
    requires Times(lr, h(NeumannSum(lr, h, x, n - 1))) == Sub(x, Term(lr, h, x, n))
    ensures Times(lr, h(NeumannSum(lr, h, x, n))) == Sub(x, Term(lr, h, x, n + 1))
  {
    var t := Term(lr, h, x, n);
    var s := NeumannSum(lr, h, x, n - 1);
    assert h(NeumannSum(lr, h, x, n)) == Add(h(s), h(t));
    TelescopeStep(lr, x, t, h(s), h(t));
  }

  lemma SubSub(x: seq<real>, y: seq<real>)
    requires |x| == |y|
    ensures Sub(x, Sub(x, y)) == y
  {
    assert forall i | 0 <= i < |x| :: Sub(x, Sub(x, y))[i] == y[i];
  }

  /** The algebra of one telescoping step: if `lr·hs = x - t`, then
      `lr·(hs + ht) = x - (t - lr·ht)`. */
  lemma TelescopeStep(lr: real, x: seq<real>, t: seq<real>, hs: seq<real>, ht: seq<real>)
    requires |x| == |t| == |hs| == |ht|
    requires Times(lr, hs) == Sub(x, t)
    ensures Times(lr, Add(hs, ht)) == Sub(x, Sub(t, Times(lr, ht)))
  {
    forall i | 0 <= i < |x|
      ensures Times(lr, Add(hs, ht))[i] == Sub(x, Sub(t, Times(lr, ht)))[i]
    {
      assert lr * hs[i] == x[i] - t[i] by {
        assert Times(lr, hs)[i] == Sub(x, t)[i];
      }
    }
  }

  /** All-zero vector of length `n`. */
  function Zeros(n: nat): (z: seq<real>)
    ensures |z| == n
  {
    seq(n, _ => 0.0)
  }

  /** One more pass changes the estimate by exactly the new term, so it leaves
      the estimate unchanged only when that term is zero. */
  lemma MorePassesChange(lr: real, h: seq<real> -> seq<real>, x: seq<real>, n: nat)
    requires KeepsLength(h)
    ensures NeumannSum(lr, h, x, n + 1) == NeumannSum(lr, h, x, n) <==> Term(lr, h, x, n + 1) == Zeros(|x|)
  {
    var s, s', t := NeumannSum(lr, h, x, n), NeumannSum(lr, h, x, n + 1), Term(lr, h, x, n + 1);
    assert s' == Add(s, t);
    if t == Zeros(|x|) {
      assert forall i | 0 <= i < |x| :: s'[i] == s[i] + t[i] == s[i];
    }
    if s' == s {
      assert forall i | 0 <= i < |x| :: t[i] == s'[i] - s[i] == Zeros(|x|)[i];
    }
  }

  // The scalar case `H(v) = a·v`.

  /** The Hessian-vector product of a quadratic loss with curvature `a` in every coordinate. */
  function Scaling(a: real): seq<real> -> seq<real>
  {
    y => Times(a, y)
  }

  lemma ScalingIsAdditive(a: real)
    ensures Additive(Scaling(a))
  {
    forall y, z | |y| == |z| ensures Scaling(a)(Add(y, z)) == Add(Scaling(a)(y), Scaling(a)(z)) {
      var l, r := Scaling(a)(Add(y, z)), Add(Scaling(a)(y), Scaling(a)(z));
      assert l == Times(a, Add(y, z));
      assert forall i | 0 <= i < |y| :: l[i] == a * (y[i] + z[i]) == a * y[i] + a * z[i] == r[i];
    }
  }

  function Power(q: real, n: nat): real
  {
    if n == 0 then 1.0 else q * Power(q, n - 1)
  }

  /** For `H(v) = a·v` the k-th term is `(1 - lr·a)^k x`. */
  lemma {:induction false} ScalarTerm(lr: real, a: real, x: seq<real>, k: nat)
    ensures KeepsLength(Scaling(a))
    ensures Term(lr, Scaling(a), x, k) == Times(Power(1.0 - lr * a, k), x)
  {
    ScalingIsAdditive(a);
    if k > 0 {
      ScalarTerm(lr, a, x, k - 1);
      ScalarTermNext(lr, a, x, k);
    }
  }

  lemma ScalarTermNext(lr: real, a: real, x: seq<real>, k: nat)
    requires KeepsLength(Scaling(a)) && k > 0
    requires Term(lr, Scaling(a), x, k - 1) == Times(Power(1.0 - lr * a, k - 1), x)
    ensures Term(lr, Scaling(a), x, k) == Times(Power(1.0 - lr * a, k), x)
  {
    var q := 1.0 - lr * a;
    var c := Power(q, k - 1);
    var y := Term(lr, Scaling(a), x, k - 1);
    var l, r := Term(lr, Scaling(a), x, k), Times(Power(q, k), x);
    assert l == Sub(y, Times(lr, Times(a, y)));
    forall i | 0 <= i < |x|
      ensures l[i] == r[i]
    {
      assert Times(lr, Times(a, y))[i] == lr * (a * y[i]);
      calc {
        l[i];
        y[i] - lr * (a * y[i]);
        q * y[i];
        q * (c * x[i]);
        (q * c) * x[i];
      }
    }
  }

  /** With `0 < |1 - lr·a| < 1`, each added term shrinks the error of the
      truncated series: `lr·a·p_n` misses `x` by `(1 - lr·a)^(n+1) x`, and that
      factor decreases strictly in absolute value as `n` grows. (With
      `lr·a = 1` the first term is already exact.) */
  lemma ScalarErrorShrinks(lr: real, a: real, x: seq<real>, n: nat)
    requires -1.0 < 1.0 - lr * a < 1.0 && 1.0 - lr * a != 0.0
    ensures Abs(Power(1.0 - lr * a, n + 2)) < Abs(Power(1.0 - lr * a, n + 1))
  {
    var q := 1.0 - lr * a;
    PowerNonZero(q, n + 1);
    var r := Power(q, n + 1);
    assert Power(q, n + 2) == q * r;
    AbsMul(q, r);
    assert Abs(q) * Abs(r) < 1.0 * Abs(r);
  }

  /** For `H(v) = a·v`, `lr·a·p_n = (1 - (1 - lr·a)^(n+1)) x`. */
  lemma ScalarResidual(lr: real, a: real, x: seq<real>, n: nat)
    ensures KeepsLength(Scaling(a))
    ensures Times(lr * a, NeumannSum(lr, Scaling(a), x, n)) == Times(1.0 - Power(1.0 - lr * a, n + 1), x)
  {
    ScalarTerm(lr, a, x, n + 1);
    ScalarTelescoping(lr, a, x, n);
    ResidualAlgebra(lr, a, x, NeumannSum(lr, Scaling(a), x, n), Term(lr, Scaling(a), x, n + 1), Power(1.0 - lr * a, n + 1));
  }

  lemma ScalarTelescoping(lr: real, a: real, x: seq<real>, n: nat)
    ensures KeepsLength(Scaling(a))
    ensures Times(lr, Times(a, NeumannSum(lr, Scaling(a), x, n))) == Sub(x, Term(lr, Scaling(a), x, n + 1))
  {
    ScalingIsAdditive(a);
    Telescoping(lr, Scaling(a), x, n);
    assert Scaling(a)(NeumannSum(lr, Scaling(a), x, n)) == Times(a, NeumannSum(lr, Scaling(a), x, n));
  }

  lemma ResidualAlgebra(lr: real, a: real, x: seq<real>, s: seq<real>, t: seq<real>, c: real)
    requires |x| == |s|
    requires t == Times(c, x)
    requires Times(lr, Times(a, s)) == Sub(x, t)
    ensures Times(lr * a, s) == Times(1.0 - c, x)
  {
    var l, r := Times(lr * a, s), Times(1.0 - c, x);
    forall i | 0 <= i < |x|
      ensures l[i] == r[i]
    {
      assert Times(lr, Times(a, s))[i] == Sub(x, t)[i];
      assert (lr * a) * s[i] == lr * (a * s[i]);
    }
  }

  function Abs(r: real): real
  {
    if r < 0.0 then -r else r
  }

  lemma AbsMul(q: real, r: real)
    ensures Abs(q * r) == Abs(q) * Abs(r)
  {
    if q < 0.0 && r < 0.0 {
      assert q * r == (-q) * (-r);
    } else if q < 0.0 {
      assert -(q * r) == (-q) * r;
    } else if r < 0.0 {
      assert -(q * r) == q * (-r);
    }
  }

  lemma {:induction false} PowerNonZero(q: real, n: nat)
    requires q != 0.0
    ensures Power(q, n) != 0.0
  {
    if n > 0 {
      PowerNonZero(q, n - 1);
    }
  }
}
