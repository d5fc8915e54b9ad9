/** Gradient lists as the automatic-differentiation engine returns them, the
    elementwise Python arithmetic the estimator applies to them, and the exact
    real vectors that the lemmas about the Neumann series speak of. */
module Gradients {

  datatype Option<+T> = None | Some(value: T)

  /** One gradient per parameter, in parameter order, as `torch.autograd.grad`
      returns it with `allow_unused=True`: an entry is `None` when the
      differentiated output does not depend on that parameter. Each tensor is
      modelled as one exact real. */
  type Grads = seq<Option<real>>

  /** The Python expression that raised `TypeError` because an operand was `None`. */
  datatype Op =
    | Scale       // `g * self.learning_rate`
    | Subtract    // `curr_v - curr_g`
    | Accumulate  // `curr_p + curr_v`
    | Negate      // `-g`

  /** A value, or the exception that stopped the computation. */
  datatype Result<+T> = Ok(value: T) | TypeError(op: Op)

  /** No entry is `None`. */
  predicate Present(g: Grads)
  {
    forall i | 0 <= i < |g| :: g[i].Some?
  }

  function Min(a: int, b: int): int
  {
    if a <= b then a else b
  }

  /** `[g * c for g in grads]`: the comprehension walks the list in order
      and the first `None` raises. */
  function ScaleAll(g: Grads, c: real): (r: Result<Grads>)
    ensures r.Ok? <==> Present(g)
    ensures r.TypeError? ==> r.op == Scale
    ensures r.Ok? ==> |r.value| == |g| && Present(r.value)
    ensures r.Ok? ==> forall i | 0 <= i < |g| :: r.value[i].value == g[i].value * c
  {
    if g == [] then Ok([])
    else if g[0].None? then TypeError(Scale)
    else match ScaleAll(g[1..], c)
      case TypeError(op) => TypeError(op)
      case Ok(rest) => Ok([Some(g[0].value * c)] + rest)
  }

  /** The operator of a zipped comprehension on one pair of present operands:
      `-` for `Subtract`, `+` for `Accumulate`. */
  function Combine(op: Op, a: real, b: real): real
    requires op.Subtract? || op.Accumulate?
  {
    if op.Subtract? then a - b else a + b
  }

  /** `[a - b for (a, b) in zip(x, y)]` or `[a + b for (a, b) in zip(x, y)]`:
      `zip` stops at the end of the shorter list, and the first pair with a
      `None` operand raises. */
  function Pairwise(op: Op, x: Grads, y: Grads): (r: Result<Grads>)
    requires op.Subtract? || op.Accumulate?
    ensures r.Ok? <==> forall i | 0 <= i < Min(|x|, |y|) :: x[i].Some? && y[i].Some?
    ensures r.TypeError? ==> r.op == op
    ensures r.Ok? ==> |r.value| == Min(|x|, |y|) && Present(r.value)
    ensures r.Ok? ==> forall i | 0 <= i < |r.value| :: r.value[i].value == Combine(op, x[i].value, y[i].value)
    decreases |x|
  {
    if x == [] || y == [] then Ok([])
    else if x[0].None? || y[0].None? then TypeError(op)
    else match Pairwise(op, x[1..], y[1..])
      case TypeError(e) => TypeError(e)
      case Ok(rest) => Ok([Some(Combine(op, x[0].value, y[0].value))] + rest)
  }

  /** `[-g for g in grads]`: the first `None` raises. */
  function NegateAll(g: Grads): (r: Result<Grads>)
    ensures r.Ok? <==> Present(g)
    ensures r.TypeError? ==> r.op == Negate
    ensures r.Ok? ==> |r.value| == |g| && Present(r.value)
    ensures r.Ok? ==> forall i | 0 <= i < |g| :: r.value[i].value == -g[i].value
  {
    if g == [] then Ok([])
    else if g[0].None? then TypeError(Negate)
    else match NegateAll(g[1..])
      case TypeError(op) => TypeError(op)
      case Ok(rest) => Ok([Some(-g[0].value)] + rest)
  }

  // Exact real vectors, one entry per parameter.

  /** The gradient list whose every entry is present and carries `x`'s value. */
  function Lift(x: seq<real>): (g: Grads)
    ensures |g| == |x| && Present(g)
    ensures forall i | 0 <= i < |x| :: g[i].value == x[i]
  {
    seq(|x|, i requires 0 <= i < |x| => Some(x[i]))
  }

  function Add(x: seq<real>, y: seq<real>): (r: seq<real>)
    requires |x| == |y|
    ensures |r| == |x|
  {
    seq(|x|, i requires 0 <= i < |x| => x[i] + y[i])
  }

  function Sub(x: seq<real>, y: seq<real>): (r: seq<real>)
    requires |x| == |y|
    ensures |r| == |x|
  {
    seq(|x|, i requires 0 <= i < |x| => x[i] - y[i])
  }

  function Times(c: real, x: seq<real>): (r: seq<real>)
    ensures |r| == |x|
  {
    seq(|x|, i requires 0 <= i < |x| => c * x[i])
  }

  /** Two gradient lists are equal when they have the same length and the same
      entries; for lists without `None`, the same values suffice. */
  lemma SameValues(g: Grads, h: Grads)
    requires |g| == |h| && Present(g) && Present(h)
    requires forall i | 0 <= i < |g| :: g[i].value == h[i].value
    ensures g == h
  {
    assert forall i | 0 <= i < |g| :: g[i] == Some(g[i].value) == h[i];
  }

  /** Scaling a list without `None` succeeds and scales every value. */
  lemma ScaleAllLift(x: seq<real>, c: real)
    ensures ScaleAll(Lift(x), c) == Ok(Lift(Times(c, x)))
  {
    SameValues(ScaleAll(Lift(x), c).value, Lift(Times(c, x)));
  }

  /** The zipped arithmetic on two lists of equal length without `None`
      succeeds and is vector addition or subtraction. */
  lemma PairwiseLift(op: Op, x: seq<real>, y: seq<real>)
    requires op.Subtract? || op.Accumulate?
    requires |x| == |y|
    ensures Pairwise(op, Lift(x), Lift(y)) == Ok(Lift(if op.Subtract? then Sub(x, y) else Add(x, y)))
  {
    SameValues(Pairwise(op, Lift(x), Lift(y)).value, Lift(if op.Subtract? then Sub(x, y) else Add(x, y)));
  }

  /** Negating a list without `None` succeeds and negates every value. */
  lemma NegateAllLift(x: seq<real>)
    ensures NegateAll(Lift(x)) == Ok(Lift(Times(-1.0, x)))
  {
    SameValues(NegateAll(Lift(x)).value, Lift(Times(-1.0, x)));
  }
}
