/** The ring operations of a dual-number family: sums, products, negation and
    differences, between two values of one family or between a value and a
    bare scalar in either operand order. */
module Arithmetic {
  import opened DualValue

  /** `Add<f64>`: a bare scalar moves the real part and leaves every slot. */
  function AddScalar(a: Dual, s: real): (r: Dual)
    ensures r.re == a.re + s && r.eps == a.eps
  {
    a.(re := a.re + s)
  }

  /** `Add<Self>`: the sum rule, real parts and each slot add independently. */
  function Add(a: Dual, b: Dual): (r: Dual)
    requires |a.eps| == |b.eps|
    ensures r.re == a.re + b.re && |r.eps| == |a.eps|
    ensures forall i :: 0 <= i < |a.eps| ==> r.eps[i] == a.eps[i] + b.eps[i]
  {
    Dual(a.re + b.re, seq(|a.eps|, i requires 0 <= i < |a.eps| => a.eps[i] + b.eps[i]))
  }

  /** `Mul<f64>`: a bare scalar scales the real part and every slot. */
  function MulScalar(a: Dual, s: real): (r: Dual)
    ensures r.re == a.re * s && |r.eps| == |a.eps|
    ensures forall i :: 0 <= i < |a.eps| ==> r.eps[i] == a.eps[i] * s
  {
    Dual(a.re * s, seq(|a.eps|, i requires 0 <= i < |a.eps| => a.eps[i] * s))
  }

  /** `Mul<Self>`: the product rule, slot i of `a * b` is
      `a'_i * b + b'_i * a`, taken from the real parts of the operands. */
  function Mul(a: Dual, b: Dual): (r: Dual)
    requires |a.eps| == |b.eps|
    ensures r.re == a.re * b.re && |r.eps| == |a.eps|
    ensures forall i :: 0 <= i < |a.eps| ==> r.eps[i] == a.eps[i] * b.re + b.eps[i] * a.re
  {
    Dual(a.re * b.re,
         seq(|a.eps|, i requires 0 <= i < |a.eps| => a.eps[i] * b.re + b.eps[i] * a.re))
  }

  /** `Neg`: multiplication by the scalar -1. */
  function Neg(a: Dual): (r: Dual)
    ensures r.re == -a.re && |r.eps| == |a.eps|
    ensures forall i :: 0 <= i < |a.eps| ==> r.eps[i] == -a.eps[i]
  {
    MulScalar(a, -1.0)
  }

  /** `Sub<f64>`: adding the negated scalar. */
  function SubScalar(a: Dual, s: real): (r: Dual)
    ensures r.re == a.re - s && r.eps == a.eps
  {
    AddScalar(a, -s)
  }

  /** `Sub<Self>`: adding the negation, so each slot subtracts independently. */
  function Sub(a: Dual, b: Dual): (r: Dual)
    requires |a.eps| == |b.eps|
    ensures r.re == a.re - b.re && |r.eps| == |a.eps|
    ensures forall i :: 0 <= i < |a.eps| ==> r.eps[i] == a.eps[i] - b.eps[i]
  {
    Add(a, Neg(b))
  }

  /** Reverse `Add` (`s + d`): the scalar is lifted to a constant first. */
  function ScalarAdd(s: real, d: Dual): (r: Dual)
    requires 1 <= |d.eps|
    ensures r.re == s + d.re && r.eps == d.eps
  {
    Add(Constant(|d.eps|, s), d)
  }

  /** Reverse `Sub` (`s - d`): the scalar is lifted to a constant first. */
  function ScalarSub(s: real, d: Dual): (r: Dual)
    requires 1 <= |d.eps|
    ensures r.re == s - d.re && |r.eps| == |d.eps|
    ensures forall i :: 0 <= i < |d.eps| ==> r.eps[i] == -d.eps[i]
  {
    Sub(Constant(|d.eps|, s), d)
  }

  /** Reverse `Mul` (`s * d`): the scalar is lifted to a constant first. */
  function ScalarMul(s: real, d: Dual): (r: Dual)
    requires 1 <= |d.eps|
    ensures r.re == s * d.re && |r.eps| == |d.eps|
    ensures forall i :: 0 <= i < |d.eps| ==> r.eps[i] == s * d.eps[i]
  {
    Mul(Constant(|d.eps|, s), d)
  }

  // The three operators that update a by-value copy of their receiver field
  // by field, as imperative code proved against the functions above.

  /** `Add<f64>::add(mut self, other)`. */
  method ComputeAddScalar(a: Dual, s: real) returns (r: Dual)
    ensures r == AddScalar(a, s)
  {
    r := a;
    r := r.(re := r.re + s);
  }

  /** `Add<Self>::add(mut self, other)`: the real part, then each slot in turn. */
  method ComputeAdd(a: Dual, b: Dual) returns (r: Dual)
    requires |a.eps| == |b.eps|
    ensures r == Add(a, b)
  {
    r := a;
    r := r.(re := r.re + b.re);
    var i := 0;
    while i < |a.eps|
      invariant 0 <= i <= |a.eps| && |r.eps| == |a.eps|
      invariant r.re == a.re + b.re
      invariant forall j :: 0 <= j < i ==> r.eps[j] == a.eps[j] + b.eps[j]
      invariant forall j :: i <= j < |a.eps| ==> r.eps[j] == a.eps[j]
    {
      r := r.(eps := r.eps[i := r.eps[i] + b.eps[i]]);
      i := i + 1;
    }
  }

  /** `Mul<f64>::mul(mut self, other)`: the real part, then each slot in turn. */
  method ComputeMulScalar(a: Dual, s: real) returns (r: Dual)
    ensures r == MulScalar(a, s)
  {
    r := a;
    r := r.(re := r.re * s);
    var i := 0;
    while i < |a.eps|
      invariant 0 <= i <= |a.eps| && |r.eps| == |a.eps|
      invariant r.re == a.re * s
      invariant forall j :: 0 <= j < i ==> r.eps[j] == a.eps[j] * s
      invariant forall j :: i <= j < |a.eps| ==> r.eps[j] == a.eps[j]
    {
      r := r.(eps := r.eps[i := r.eps[i] * s]);
      i := i + 1;
    }
    forall j | 0 <= j < |a.eps|
      ensures r.eps[j] == MulScalar(a, s).eps[j]
    {
    }
    assert r.eps == MulScalar(a, s).eps;
  }

  // Scalar lifting: each scalar form agrees with the Dual-Dual operator applied
  // to the constant of the same family.

  lemma AddScalarIsLifted(a: Dual, s: real)
    requires 1 <= |a.eps|
    ensures AddScalar(a, s) == Add(a, Constant(|a.eps|, s))
  {
  }

  lemma SubScalarIsLifted(a: Dual, s: real)
    requires 1 <= |a.eps|
    ensures SubScalar(a, s) == Sub(a, Constant(|a.eps|, s))
  {
  }

  lemma MulScalarIsLifted(a: Dual, s: real)
    requires 1 <= |a.eps|
    ensures MulScalar(a, s) == Mul(a, Constant(|a.eps|, s))
  {
  }

  /** The reverse forms agree with the forward ones, so `s op d` and `d op s`
      are consistent although the operands have different types. */
  lemma ReverseFormsCommute(s: real, d: Dual)
    requires 1 <= |d.eps|
    ensures ScalarAdd(s, d) == AddScalar(d, s)
    ensures ScalarMul(s, d) == MulScalar(d, s)
    ensures ScalarSub(s, d) == Neg(SubScalar(d, s))
  {
    assert ScalarSub(s, d).eps == Neg(SubScalar(d, s)).eps;
  }

  /** Constants of one family add and multiply as their scalars do, and stay
      free of derivatives. */
  lemma ConstantsClosed(n: nat, a: real, b: real)
    requires 1 <= n
    ensures Add(Constant(n, a), Constant(n, b)) == Constant(n, a + b)
    ensures Mul(Constant(n, a), Constant(n, b)) == Constant(n, a * b)
  {
    var p := Mul(Constant(n, a), Constant(n, b));
    forall i | 0 <= i < n
      ensures p.eps[i] == 0.0
    {
      assert p.eps[i] == 0.0 * b + 0.0 * a;
    }
    assert p.eps == Constant(n, a * b).eps;
  }

  // The ring laws.

  lemma AddCommutes(a: Dual, b: Dual)
    requires |a.eps| == |b.eps|
    ensures Add(a, b) == Add(b, a)
  {
  }

  lemma AddAssociates(a: Dual, b: Dual, c: Dual)
    requires |a.eps| == |b.eps| == |c.eps|
    ensures Add(Add(a, b), c) == Add(a, Add(b, c))
  {
  }

  /** The constant 0 is the unit of addition and `Neg` gives the additive
      inverse, so `a - a` is the constant 0. */
  lemma AddIdentityAndInverse(a: Dual)
    requires 1 <= |a.eps|
    ensures Add(a, Constant(|a.eps|, 0.0)) == a
    ensures Sub(a, a) == Constant(|a.eps|, 0.0)
  {
  }

  /** Subtraction undoes addition and addition undoes subtraction. */
  lemma SubUndoesAdd(a: Dual, b: Dual)
    requires |a.eps| == |b.eps|
    ensures Sub(Add(a, b), b) == a
    ensures Add(Sub(a, b), b) == a
  {
    assert Sub(Add(a, b), b).eps == a.eps;
    assert Add(Sub(a, b), b).eps == a.eps;
  }

  lemma NegInvolutive(a: Dual)
    ensures Neg(Neg(a)) == a
  {
  }

  lemma MulCommutes(a: Dual, b: Dual)
    requires |a.eps| == |b.eps|
    ensures Mul(a, b) == Mul(b, a)
  {
  }

  /** The slot arithmetic behind `MulAssociates`, on bare reals. */
  lemma ProductRuleAssociates(ae: real, ar: real, be: real, br: real, ce: real, cr: real)
    ensures (ae * br + be * ar) * cr + ce * (ar * br) == ae * (br * cr) + (be * cr + ce * br) * ar
  {
  }

  /** Slot i of `MulAssociates`. */
  lemma MulAssociatesAt(a: Dual, b: Dual, c: Dual, i: nat)
    requires |a.eps| == |b.eps| == |c.eps| && i < |a.eps|
    ensures Mul(Mul(a, b), c).eps[i] == Mul(a, Mul(b, c)).eps[i]
  {
    var ab, bc := Mul(a, b), Mul(b, c);
    var ae, be, ce := a.eps[i], b.eps[i], c.eps[i];
    var abe, abr, bce, bcr := ab.eps[i], ab.re, bc.eps[i], bc.re;
    assert abe == ae * b.re + be * a.re && abr == a.re * b.re;
    assert bce == be * c.re + ce * b.re && bcr == b.re * c.re;
    assert Mul(ab, c).eps[i] == abe * c.re + ce * abr;
    assert Mul(a, bc).eps[i] == ae * bcr + bce * a.re;
    ProductRuleAssociates(ae, a.re, be, b.re, ce, c.re);
  }

  lemma MulAssociates(a: Dual, b: Dual, c: Dual)
    requires |a.eps| == |b.eps| == |c.eps|
    ensures Mul(Mul(a, b), c) == Mul(a, Mul(b, c))
  {
    var l, r := Mul(Mul(a, b), c), Mul(a, Mul(b, c));
    forall i | 0 <= i < |a.eps|
      ensures l.eps[i] == r.eps[i]
    {
      MulAssociatesAt(a, b, c, i);
    }
    assert l.eps == r.eps;
  }

  /** The constant 1 is the unit of multiplication. */
  lemma MulIdentity(a: Dual)
    requires 1 <= |a.eps|
    ensures Mul(a, Constant(|a.eps|, 1.0)) == a
  {
  }

  lemma MulDistributesOverAdd(a: Dual, b: Dual, c: Dual)
    requires |a.eps| == |b.eps| == |c.eps|
    ensures Mul(a, Add(b, c)) == Add(Mul(a, b), Mul(a, c))
  {
    var l, r := Mul(a, Add(b, c)), Add(Mul(a, b), Mul(a, c));
    forall i | 0 <= i < |a.eps|
      ensures l.eps[i] == r.eps[i]
    {
      calc {
        l.eps[i];
        a.eps[i] * (b.re + c.re) + (b.eps[i] + c.eps[i]) * a.re;
        (a.eps[i] * b.re + b.eps[i] * a.re) + (a.eps[i] * c.re + c.eps[i] * a.re);
        r.eps[i];
      }
    }
    assert l.eps == r.eps;
  }

  /** The product rule on the variable of axis c: d(x*x)/dx = 2x. */
  lemma ProductRuleAtSeed(n: nat, c: nat, v: real)
    requires 1 <= n && c < n
    ensures Mul(Seed(n, c, v), Seed(n, c, v)).eps[c] == 2.0 * v
  {
  }

  /** The square of a binomial: `(x + 1) * (x + 1) == x * x + 2 * x + 1`. */
  lemma SquareOfSum(x: Dual)
    requires 1 <= |x.eps|
    ensures Mul(AddScalar(x, 1.0), AddScalar(x, 1.0))
         == AddScalar(Add(Mul(x, x), ScalarMul(2.0, x)), 1.0)
  {
    var l, r := Mul(AddScalar(x, 1.0), AddScalar(x, 1.0)),
                AddScalar(Add(Mul(x, x), ScalarMul(2.0, x)), 1.0);
    forall i | 0 <= i < |x.eps|
      ensures l.eps[i] == r.eps[i]
    {
      calc {
        l.eps[i];
        x.eps[i] * (x.re + 1.0) + x.eps[i] * (x.re + 1.0);
        (x.eps[i] * x.re + x.eps[i] * x.re) + 2.0 * x.eps[i];
        r.eps[i];
      }
    }
    assert l.eps == r.eps;
  }

  /** The difference of squares: `(x + 1) * (x - 1) == x * x - 1`. */
  lemma DifferenceOfSquares(x: Dual)
    requires 1 <= |x.eps|
    ensures Mul(AddScalar(x, 1.0), SubScalar(x, 1.0)) == SubScalar(Mul(x, x), 1.0)
  {
    var l, r := Mul(AddScalar(x, 1.0), SubScalar(x, 1.0)), SubScalar(Mul(x, x), 1.0);
    forall i | 0 <= i < |x.eps|
      ensures l.eps[i] == r.eps[i]
    {
      calc {
        l.eps[i];
        x.eps[i] * (x.re - 1.0) + x.eps[i] * (x.re + 1.0);
        x.eps[i] * x.re + x.eps[i] * x.re;
        r.eps[i];
      }
    }
    assert l.eps == r.eps;
  }
}
