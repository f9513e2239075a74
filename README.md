# Dual-number forward-mode differentiation, modelled in Dafny

This project models the dual-number engine that the `make_dual!` macro of the
`epsilon` crate generates (src/lib.rs). A family is declared with a list of named
axes. Each value of the family holds a `real` part and one derivative slot
`eps_<axis>` per axis. Arithmetic and the elementary functions carry the slots
along by the sum, product, power and chain rules.

The model is generic over the axis list. A value is `Dual(re: real, eps: seq<real>)`;
axis `c` of a family with `n` axes is slot `c < n`. Two values belong to the same
family when they have the same number of slots, and every binary operation
requires that. Scalars are Dafny's exact `real` rather than `f64`.

The host's `powf`, `sin` and `cos` are the three fields of a `Host` value. Every
function that needs them takes a `Host` as a parameter. Nothing is assumed about
them. A lemma that needs one of their values, such as `sin 0 = 0` or
`10^2 = 100`, states it in its own `requires`.

Modules:

- `DualValue` (dual_value.dfy): the value type, the constructors `From<f64>`,
  `eps_c` and `c`, and the ordering `partial_cmp`.
- `Arithmetic` (arithmetic.dfy): the ring operators with scalars on either side, and
  the ring laws they satisfy.
  - `Add<f64>`, `Add<Self>` and `Mul<f64>` update a by-value copy of their receiver
    field by field. They are also written as imperative methods, each proved
    equal to its function.
- `Elementary` (elementary.dfy): `pow`, `invert`, `sin`, `cos`, `tan`, and the
  division operators. Division lives here because it goes through `invert`.
- `CompoundAssign` (compound_assign.dfy): `+=`, `-=`, `*=` and `/=`, as methods
  of a class holding one dual value.
- `SampleXYZ` (sample_xyz.dfy): the crate's three-axis sample family and the
  concrete identities its tests check. It also holds one end-to-end scenario
  on a two-axis family, `SampleXYZ.PolynomialAndSine`, which is not one of
  the crate's tests.

Ordering compares real parts only, while the derived `PartialEq` compares every
slot. So `x(5)` and `from(5)` compare `Equal` yet are different values
(`DualValue.CompareEqualDoesNotMeanEqual`). This is how the source is written,
and the model keeps it.

## Model

| member | source | states |
|---|---|---|
| `DualValue.Constant` | src/lib.rs:49-58 | the lifted scalar keeps its value as the real part and depends on no axis: all n slots are 0 |
| `DualValue.WithSlot` | src/lib.rs:62-67 | `eps_c(r, e)` has real part r, slot c equal to e, and every other slot 0 |
| `DualValue.Seed` | src/lib.rs:70-72 | the variable of axis c has derivative 1 with respect to itself and 0 with respect to every other axis |
| `DualValue.Compare` | src/lib.rs:43-47 | the result is Less, Equal or Greater exactly when the real parts are <, == or > |
| `DualValue.CompareIgnoresSlots` | src/lib.rs:43-47 | replacing the derivative slots of either operand never changes the comparison |
| `DualValue.CompareAntisymmetric` | src/lib.rs:43-47 | swapping the operands turns Less into Greater and keeps Equal |
| `DualValue.CompareEqualDoesNotMeanEqual` | src/lib.rs:35-47 | a variable and a constant with the same real part compare Equal but are unequal values |
| `Arithmetic.AddScalar` | src/lib.rs:118-125 | adding a scalar moves only the real part; every slot is kept |
| `Arithmetic.Add` | src/lib.rs:127-137 | sum rule: real parts add, and each slot of the sum is the sum of the operands' slots |
| `Arithmetic.MulScalar` | src/lib.rs:139-149 | multiplying by a scalar scales the real part and every slot by it |
| `Arithmetic.Mul` | src/lib.rs:159-170 | product rule: real parts multiply; slot i is `a'_i*b + b'_i*a` from the operands' original real parts |
| `Arithmetic.Neg` | src/lib.rs:151-157 | negation, defined as multiplying by -1, negates the real part and every slot |
| `Arithmetic.SubScalar` | src/lib.rs:180-186 | subtracting a scalar moves only the real part, through adding its negation |
| `Arithmetic.Sub` | src/lib.rs:188-194 | difference, defined as adding the negation, subtracts real parts and each slot independently |
| `Arithmetic.ScalarAdd` | src/lib.rs:204 | `s + d` lifts s to a constant; it moves only the real part of d |
| `Arithmetic.ScalarSub` | src/lib.rs:205 | `s - d` lifts s to a constant; its real part is s - d.re and every slot is negated |
| `Arithmetic.ScalarMul` | src/lib.rs:206 | `s * d` lifts s to a constant; it scales the real part and every slot of d by s |
| `Arithmetic.ComputeAddScalar` | src/lib.rs:121-124 | the in-place update of the receiver copy yields `AddScalar` |
| `Arithmetic.ComputeAdd` | src/lib.rs:130-136 | updating the real part and then each slot in turn yields `Add` |
| `Arithmetic.ComputeMulScalar` | src/lib.rs:142-148 | scaling the real part and then each slot in turn yields `MulScalar` |
| `Arithmetic.AddScalarIsLifted` | src/lib.rs:118-125 | adding a scalar equals adding its constant of the same family |
| `Arithmetic.SubScalarIsLifted` | src/lib.rs:180-186 | subtracting a scalar equals subtracting its constant |
| `Arithmetic.MulScalarIsLifted` | src/lib.rs:139-149 | multiplying by a scalar equals the product rule applied with its constant |
| `Arithmetic.ReverseFormsCommute` | src/lib.rs:4-14 | `s + d == d + s`, `s * d == d * s`, and `s - d == -(d - s)` |
| `Arithmetic.ConstantsClosed` | src/lib.rs:127-170 | constants add and multiply as their scalars do and stay free of derivatives |
| `Arithmetic.AddCommutes` | src/lib.rs:127-137 | the sum is commutative |
| `Arithmetic.AddAssociates` | src/lib.rs:127-137 | the sum is associative |
| `Arithmetic.AddIdentityAndInverse` | src/lib.rs:188-194 | constant 0 is the additive unit; `a - a` is constant 0 |
| `Arithmetic.SubUndoesAdd` | src/lib.rs:188-194 | for all same-family values, `(a + b) - b == a` and `(a - b) + b == a` |
| `Arithmetic.NegInvolutive` | src/lib.rs:151-157 | negating twice gives back the value |
| `Arithmetic.MulCommutes` | src/lib.rs:159-170 | the product rule is symmetric in its operands |
| `Arithmetic.MulAssociates` | src/lib.rs:159-170 | the product is associative, slot by slot |
| `Arithmetic.MulIdentity` | src/lib.rs:159-170 | constant 1 is the multiplicative unit |
| `Arithmetic.MulDistributesOverAdd` | src/lib.rs:159-170 | the product distributes over the sum |
| `Arithmetic.ProductRuleAtSeed` | src/lib.rs:159-170 | for the variable x at v, d(x*x)/dx is 2v |
| `Arithmetic.SquareOfSum` | src/lib.rs:264-269 | for every value x, `(x + 1) * (x + 1) == x * x + 2 * x + 1` |
| `Arithmetic.DifferenceOfSquares` | src/lib.rs:274-277 | for every value x, `(x + 1) * (x - 1) == x * x - 1` |
| `Elementary.Pow` | src/lib.rs:75-83 | power rule: real part `re^p`; slot i is `a'_i * p * re^(p-1)` with the original real part |
| `Elementary.Invert` | src/lib.rs:85-87 | the power -1: real part `re^-1`; slot i is `-a'_i * re^-2` |
| `Elementary.Sin` | src/lib.rs:89-99 | real part `sin re`; every slot is multiplied by `cos re` of the original real part |
| `Elementary.Cos` | src/lib.rs:101-111 | real part `cos re`; every slot is multiplied by `-sin re` of the original real part |
| `Elementary.Div` | src/lib.rs:172-178 | `a / b` is `a * b.invert()`: real `a * b^-1`, slot i `a'_i * b^-1 - a * b'_i * b^-2` |
| `Elementary.DivScalar` | src/lib.rs:196-202 | dividing by a nonzero scalar divides the real part and every slot by it |
| `Elementary.ScalarDiv` | src/lib.rs:207 | `s / d` lifts s to a constant: real `s * d^-1`, slot i `-s * d'_i * d^-2` |
| `Elementary.Tan` | src/lib.rs:113-115 | `sin() / cos()`: real `sin re * (cos re)^-1`, slot i `a'_i * (cos * cos^-1 + sin^2 * cos^-2)` |
| `Elementary.ElementaryOfConstant` | src/lib.rs:75-111 | pow, sin and cos of a constant are constants |
| `Elementary.PowOne` | src/lib.rs:75-83 | `pow(1)` reproduces its operand, given `re^1 = re` and `re^0 = 1` |
| `Elementary.PowTwoIsSquare` | src/lib.rs:75-83 | `pow(2)` equals the product with itself, given `re^2 = re*re` and `re^1 = re` |
| `Elementary.InvertIsInverse` | src/lib.rs:85-87 | where `powf` is the reciprocal at a nonzero real part, `a * a.invert()` is constant 1 |
| `Elementary.QuotientRule` | src/lib.rs:172-178 | under the same condition at b, `a / b` has real `a/b` and slot i `(a'_i*b - b'_i*a)/b^2` |
| `Elementary.DivThenMul` | src/lib.rs:172-178 | under the same condition at b, `(a / b) * b == a` |
| `Elementary.DivScalarIsLifted` | src/lib.rs:196-202 | where s is nonzero and `powf(s, -1) = 1/s`, dividing by s equals dividing by its constant |
| `Elementary.DivScalarThenMulScalar` | src/lib.rs:196-202 | dividing by a nonzero scalar and multiplying back gives the value |
| `Elementary.ScalarDivThenMul` | src/lib.rs:207 | under the reciprocal condition at d, `(s / d) * d` is constant s |
| `Elementary.PythagoreanIdentity` | src/lib.rs:89-111 | where `sin^2 + cos^2 = 1` at the real part, `sin()^2 + cos()^2` is constant 1 |
| `Elementary.TanDerivative` | src/lib.rs:113-115 | given that identity and the reciprocal condition at `cos re`, `tan()` has slot i `a'_i / cos^2 re` |
| `CompoundAssign.DualVar.AddAssignScalar` | src/lib.rs:18-22 | `v += s` leaves v equal to `old(v) + s` |
| `CompoundAssign.DualVar.AddAssign` | src/lib.rs:23-27 | `v += k` leaves v equal to `old(v) + k` |
| `CompoundAssign.DualVar.SubAssignScalar` | src/lib.rs:18-22 | `v -= s` leaves v equal to `old(v) - s` |
| `CompoundAssign.DualVar.SubAssign` | src/lib.rs:23-27 | `v -= k` leaves v equal to `old(v) - k` |
| `CompoundAssign.DualVar.MulAssignScalar` | src/lib.rs:18-22 | `v *= s` leaves v equal to `old(v) * s` |
| `CompoundAssign.DualVar.MulAssign` | src/lib.rs:23-27 | `v *= k` leaves v equal to `old(v) * k` |
| `CompoundAssign.DualVar.DivAssignScalar` | src/lib.rs:18-22 | `v /= s` leaves v equal to `old(v) / s` |
| `CompoundAssign.DualVar.DivAssign` | src/lib.rs:23-27 | `v /= k` leaves v equal to `old(v) / k` |
| `SampleXYZ.ScalarOperands` | src/lib.rs:227-238 | `x(5)+3 == x(8)`, `y(5)-3 == y(2)`, `3-y(5) == eps_y(-2,-1)`, `z(2)*3` has real 6 and z-slot 3 |
| `SampleXYZ.PowAtTen` | src/lib.rs:239-247 | `x(10).pow(2)` has real 100 and x-slot 20, given `10^2 = 100` and `10^1 = 10` |
| `SampleXYZ.InvertAtTen` | src/lib.rs:248-256 | `y(10).invert()` has real 0.1 and y-slot -0.01, given `10^-1 = 0.1` and `10^-2 = 0.01` |
| `SampleXYZ.AddAssignSeven` | src/lib.rs:258-260 | `v = x(3); v += 7` leaves v equal to `x(10)` |
| `SampleXYZ.DistributivityAtOne` | src/lib.rs:264-278 | at `x = x(1)`, both distributivity identities hold, and `(x+1).pow(2)` is the square given `2^2 = 4` and `2^1 = 2` |
| `SampleXYZ.TrigAtZero` | src/lib.rs:280-295 | at `x = x(0)`, given `sin 0 = 0`, `cos 0 = 1` and `1^-1 = 1^-2 = 1`: sin and tan are `eps_x(0,1)`, cos is `eps_x(1,0)` |
| `SampleXYZ.PolynomialAndSine` | src/lib.rs:75-99 | on a two-axis family (not one of the crate's tests), for `z = x.pow(2) + y * y.sin()` at x = 5, y = 7: dz/dx = 10 (given `5^1 = 5`) and dz/dy = `sin 7 + 7 cos 7` |

## Left out

- IEEE-754 `f64` semantics: rounding, NaN and infinity propagation. Scalars are exact reals.
- `DualValue.Compare`: returns an `Ordering` rather than an optional one. `partial_cmp` answers `None` only for a NaN real part, and exact reals have no NaN.
- `Elementary.DivScalar`: requires a nonzero divisor. For a zero divisor the source multiplies by an infinite `1./0.`, which exact reals cannot express.
- `CompoundAssign.DualVar.DivAssignScalar`: requires a nonzero divisor, for the same reason.
- The definitions of `powf`, `sin` and `cos`. They are host library calls, so they are parameters of the model, and the model assumes nothing about them.
  - The test values that need them are stated under explicit `requires`: `x(10).pow(2)`, `pow(2) == x*x`, `invert()` at 10, the trigonometric checks at 0, and the two-axis scenario's `5^1 = 5`.
- Identifier synthesis by `paste!`, and the per-axis named fields and methods. An axis is an index into the slot sequence.
  - Family definition is also left out. The macro refuses an empty axis list, and duplicate axes fail to compile. Neither is modelled: constructors only require at least one axis.
- Operands of different families: the model requires equal slot counts. The source makes mixing impossible because each family is its own type.
- `Copy`, `Clone` and `Debug` derives, and Rust's move of `mut self`. Values have value semantics here.
- The derived `PartialEq` is Dafny's structural equality on `Dual`.
