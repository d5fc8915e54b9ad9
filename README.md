# Hypergrad: implicit-differentiation hypergradient, modelled in Dafny

`Hypergrad` (gauxlearn/implicit_diff.py) computes the gradient of a validation
loss with respect to auxiliary parameters φ. These parameters influence
training only through the shared weights W. The computation has three stages:

1. The outer gradient dL_val/dW comes from the differentiation engine.
2. `_approx_inverse_hvp` runs a truncated Neumann-series loop from
   `p = v = dL_val/dW`. Each of `truncate_iter` passes asks the engine for the
   Hessian-vector product H(v) of `grad_train` with respect to W, with `v` as
   cotangent. It scales the product by `learning_rate` and subtracts it from
   `v`. It then adds the updated `v` to `p`.
3. `grad` asks the engine for the mixed vector-Jacobian product of
   `grad_train` with respect to φ, with `p` as cotangent. It returns that
   product with every entry negated.

The model keeps this arithmetic skeleton exact:

- `gradients.dfy` (module `Gradients`): gradient lists as the engine returns
  them with `allow_unused=True`. A list holds one `Option<real>` per
  parameter, and `None` marks a parameter the output does not depend on.
  The module also has the three Python comprehensions (scale, zipped
  subtract/add, negate). Each raises `TypeError` on a `None` operand, and
  `zip` stops at the shorter list.
- `neumann.dfy` (module `Neumann`): the loop as a recursive specification
  (`Step`, `Iterate`, `Estimate`) and the same series on exact real vectors
  (`Term`, `NeumannSum`). Lemmas state what one pass does, which exceptions
  can occur, and what the loop computes.
- `implicit_diff.dfy` (module `ImplicitDiff`): class `Hypergrad` with its two
  configuration fields as constants. `ApproxInverseHvp` is a method with a
  `while` loop whose invariants tie `v`, `p` and the list of requested
  products to `Iterate` and `Cotangents`. `Grad` composes the stages and is
  proved against the function `Hypergradient`. The file also checks the
  scalar scenario by hand.

Interfaces taken as parameters:

- The engine's stage-1 result `dloss_val_dparams` is an input list.
- The two engine products are function parameters of type
  `Grads -> Grads`: `hvp` for the product with respect to the shared
  parameters and `mixed` for the product with respect to the auxiliary
  parameters.
- Where a lemma needs the engine to be an ordinary real map, it assumes
  `Agrees(hvp, h)`: on lists without `None`, `hvp` is a real map `h`.
  `Telescoping` also needs `h` to be additive (`Additive`).

Three points about the code that the model follows:

- Unused parameters. The code passes `allow_unused=True` and never replaces
  a `None` entry with zero. A `None` that reaches `g * self.learning_rate`
  (line 65), `curr_v - curr_g` (line 66) or `-g` (line 44) raises
  `TypeError`, and the model raises exactly there. See
  `UnusedParameterRaises` and `HypergradientIsNegatedMixedProduct`.
- What the loop approximates. The loop computes
  `Σ_{k=0..n} (I - lr·H)^k x`. That is the truncated Neumann series of
  `(lr·H)^{-1} x`: `Telescoping` proves `lr·H(p_n) = x - (I - lr·H)^(n+1) x`.
- `truncate_iter`. The code accepts any integer, and `range` of a
  non-positive count runs no pass. The function `Iterations` gives the
  number of passes, and the contract of `ApproxInverseHvp` states it.

The rows below are stated about four definitions: `Neumann.Step` (one pass
of the loop body, lines 57-68), `Neumann.Iterate` (the loop after `n`
passes, lines 54-68), `Neumann.Estimate` (what `_approx_inverse_hvp`
returns, lines 46-70) and `ImplicitDiff.Hypergradient` (what `grad`
returns, lines 16-44). `Neumann.NextPass` is a one-step unfolding of
`Iterate` and `Cotangents` used by the loop's proof.

## Model

| member | source | states |
|---|---|---|
| `ImplicitDiff.Hypergrad.constructor` | gauxlearn/implicit_diff.py:11-13 | the two settings are stored as given, with defaults 0.1 and 3, and are constants afterwards |
| `ImplicitDiff.Hypergrad.ApproxInverseHvp` | gauxlearn/implicit_diff.py:46-70 | returns `Estimate`, which is the input list unchanged when `truncate_iter <= 0`. The ghost list of requested products is `Cotangents`. There are exactly `truncate_iter` requests when the loop finishes. When it raises, the pass that raised made the last request |
| `ImplicitDiff.Hypergrad.Grad` | gauxlearn/implicit_diff.py:16-44 | returns `Hypergradient`: stage 2, then the mixed product at its result, negated |
| `ImplicitDiff.HypergradientIsNegatedMixedProduct` | gauxlearn/implicit_diff.py:36-44 | a stage-2 exception propagates unchanged. Otherwise the result succeeds exactly when the mixed product has no `None`, in which case it has one entry per entry of the mixed product, each the negation. A failure there is the negation's `TypeError`. No dL_val/dφ term is added |
| `ImplicitDiff.HypergradientClosedForm` | gauxlearn/implicit_diff.py:27-44 | on a present outer gradient x, with products that agree with real maps h and m, `grad` returns `-m(Σ_{k=0..n} (I - lr·h)^k x)` with `n = max(truncate_iter, 0)` |
| `ImplicitDiff.ScenarioEstimate` | gauxlearn/implicit_diff.py:54-68 | with H(v) = 0.5·v, lr = 0.1 and 3 passes, the loop returns `3.709875·w0` for the outer gradient `w0` |
| `ImplicitDiff.Scenario` | gauxlearn/implicit_diff.py:34-44 | with the same engine and the mixed product 2.0·p, `grad` returns `-7.41975·w0` |
| `Gradients.ScaleAll` | gauxlearn/implicit_diff.py:65 | raises `TypeError` exactly when some entry of the product is `None`. Otherwise it keeps the length and scales each entry by lr |
| `Gradients.Pairwise` | gauxlearn/implicit_diff.py:66-68 | the zipped result has the length of the shorter list. It raises exactly when a pair within that length has a `None`. Otherwise each entry is the difference (line 66) or the sum (line 68) of the pair |
| `Gradients.NegateAll` | gauxlearn/implicit_diff.py:44 | raises exactly when some entry is `None`. Otherwise it keeps the length and negates each entry |
| `Neumann.StepUpdates` | gauxlearn/implicit_diff.py:57-68 | a pass computes `v'[i] = v[i] - H(v)[i]·lr`, scaling first. It then computes `p'[i] = p[i] + v'[i]` with the updated residual. Both lists are cut to the shorter of `v` and `H(v)`, and no `None` is left |
| `Neumann.IterateShape` | gauxlearn/implicit_diff.py:54-68 | `p` and `v` always have equal length, never longer than the outer gradient. After at least one pass neither holds a `None` |
| `Neumann.IterateKeepsLength` | gauxlearn/implicit_diff.py:66-70 | if every Hessian-vector product is as long as its cotangent, the returned `p` has one entry per entry of `dloss_val_dparams` |
| `Neumann.FailureIsFinal` | gauxlearn/implicit_diff.py:56-68 | once a pass raises, the loop's outcome is that exception however many passes were asked for |
| `Neumann.PrefixSucceeds` | gauxlearn/implicit_diff.py:56-68 | if the loop finishes n passes, every earlier pass finished |
| `Neumann.CotangentsAreResiduals` | gauxlearn/implicit_diff.py:56-63 | up to the pass that raises, there is one product request per pass, and the k-th request has the residual after k passes as cotangent |
| `Neumann.RaisesInPass` | gauxlearn/implicit_diff.py:56-70 | an exception in any pass is what `_approx_inverse_hvp` raises |
| `Neumann.AccumulateNeverRaises` | gauxlearn/implicit_diff.py:54-68 | the addition at line 68 never raises. `p` is present wherever the subtraction just succeeded |
| `Neumann.UnusedParameterRaises` | gauxlearn/implicit_diff.py:54-66 | a `None` in the outer gradient, at a position the product covers, is not treated as zero. The first pass raises, in the subtraction if the product has no `None` and in the scaling otherwise |
| `Neumann.IterateIsNeumannSum` | gauxlearn/implicit_diff.py:54-70 | on a present outer gradient x and a product that agrees with a real map h, the loop succeeds with `v = (I - lr·h)^n x` and `p = Σ_{k=0..n} (I - lr·h)^k x`. The first term counts once and the last is the updated residual |
| `Neumann.Telescoping` | gauxlearn/implicit_diff.py:54-70 | for additive h, `lr·h(p_n) = x - (I - lr·h)^(n+1) x`, so `p_n` solves `lr·h(p) = x` up to the next term |
| `Neumann.MorePassesChange` | gauxlearn/implicit_diff.py:56-68 | one more pass leaves `p` unchanged exactly when the new term `(I - lr·h)^(n+1) x` is zero |
| `Neumann.ScalarTerm` | gauxlearn/implicit_diff.py:65-66 | for H(v) = a·v the n-th residual is `(1 - lr·a)^n x` |
| `Neumann.ScalarResidual` | gauxlearn/implicit_diff.py:54-68 | for H(v) = a·v, `lr·a·p_n = (1 - (1 - lr·a)^(n+1))·x` |
| `Neumann.ScalarErrorShrinks` | gauxlearn/implicit_diff.py:54-68 | with `0 < abs(1 - lr·a) < 1`, the residual factor `(1 - lr·a)^(n+1)` strictly decreases in absolute value with every added pass |

## Left out

- `torch.autograd.grad` (lines 27-32, 36-41, 57-63) is not part of this model. Its three calls are an input list and two function parameters, and graph building and differentiation are not modelled. What the engine does with a `None` cotangent is part of the given function.
- `retain_graph`, and the engine freeing graphs (lines 30, 61), concern engine resources and do not affect the values computed.
- Floating point and tensor shapes are not modelled. Each tensor is one exact `real`, and the results hold in exact arithmetic only.
- Convergence for general H, in terms of Hessian eigenvalues, needs linear-algebra theory beyond the code. Only the scalar case H(v) = a·v is covered (`ScalarErrorShrinks`). There are no limits, only the exact residual and its strict decrease.
- The commented-out debug print (line 64) is omitted.
- `list(pp for pp in p)` (line 70) copies the list. The model returns the same value, and list identity is not modelled.
- Exceptions raised by `torch.autograd.grad` itself are not modelled: the products `hvp` and `mixed` are total functions, so `Result` has only the `TypeError` case of the arithmetic. In the code such an exception, for example the engine rejecting a `grad_outputs` list shorter than `grad_train` after `zip` at line 66 has cut `v`, ends the loop at that request and propagates out of `grad`. Where `StepUpdates` and `IterateShape` describe passes on shortened lists, they describe what the code would compute if the engine accepted them.
- Neumann.Cotangents: its own contract states only `|c| <= n`. What the trace holds is stated by `CotangentsAreResiduals` and by the contract of `Hypergrad.ApproxInverseHvp`.
