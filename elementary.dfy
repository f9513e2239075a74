/** The elementary functions of a dual-number family (power, reciprocal, sine,
    cosine, tangent) and the division operators, which are defined through the
    reciprocal.  Each function reads the operand's real part once and multiplies
    every slot by one factor computed from that original real part (the chain
    rule).  The host's `powf`, `sin` and `cos` are parameters; lemmas that need
    their values state them in their `requires`. */
module Elementary {
  import opened DualValue
  import opened Arithmetic

  /** `pow(p)`: the power rule, slot i becomes `a'_i * p * re^(p-1)`. */
  function Pow(h: Host, a: Dual, p: real): (r: Dual)
    ensures r.re == h.powf(a.re, p) && |r.eps| == |a.eps|
    ensures forall i :: 0 <= i < |a.eps| ==> r.eps[i] == a.eps[i] * p * h.powf(a.re, p - 1.0)
  {
    Dual(h.powf(a.re, p),
         seq(|a.eps|, i requires 0 <= i < |a.eps| => a.eps[i] * p * h.powf(a.re, p - 1.0)))
  }

  /** `invert()`: the power -1, so slot i becomes `-a'_i * re^(-2)`. */
  function Invert(h: Host, a: Dual): (r: Dual)
    ensures r.re == h.powf(a.re, -1.0) && |r.eps| == |a.eps|
    ensures forall i :: 0 <= i < |a.eps| ==> r.eps[i] == -a.eps[i] * h.powf(a.re, -2.0)
  {
    Pow(h, a, -1.0)
  }

  /** `sin()`: real part `sin re`, every slot times `cos re`. */
  function Sin(h: Host, a: Dual): (r: Dual)
    ensures r.re == h.sin(a.re) && |r.eps| == |a.eps|
    ensures forall i :: 0 <= i < |a.eps| ==> r.eps[i] == a.eps[i] * h.cos(a.re)
  {
    var dr := h.cos(a.re);
    Dual(h.sin(a.re), seq(|a.eps|, i requires 0 <= i < |a.eps| => a.eps[i] * dr))
  }

  /** `cos()`: real part `cos re`, every slot times `-sin re`. */
  function Cos(h: Host, a: Dual): (r: Dual)
    ensures r.re == h.cos(a.re) && |r.eps| == |a.eps|
    ensures forall i :: 0 <= i < |a.eps| ==> r.eps[i] == -a.eps[i] * h.sin(a.re)
  {
    var dr := -h.sin(a.re);
    Dual(h.cos(a.re), seq(|a.eps|, i requires 0 <= i < |a.eps| => a.eps[i] * dr))
  }

  /** `Div<Self>`: `a` times the reciprocal of `b`. */
  function Div(h: Host, a: Dual, b: Dual): (r: Dual)
    requires |a.eps| == |b.eps|
    ensures r.re == a.re * h.powf(b.re, -1.0) && |r.eps| == |a.eps|
    ensures forall i :: 0 <= i < |a.eps| ==>
      r.eps[i] == a.eps[i] * h.powf(b.re, -1.0) - a.re * b.eps[i] * h.powf(b.re, -2.0)
  {
    Mul(a, Invert(h, b))
  }

  /** `Div<f64>`: `a` times the scalar `1 / s`. */
  function DivScalar(a: Dual, s: real): (r: Dual)
    requires s != 0.0
    ensures r.re == a.re / s && |r.eps| == |a.eps|
    ensures forall i :: 0 <= i < |a.eps| ==> r.eps[i] == a.eps[i] / s
  {
    MulScalar(a, 1.0 / s)
  }

  /** Reverse `Div` (`s / d`): the scalar is lifted to a constant first. */
  function ScalarDiv(h: Host, s: real, d: Dual): (r: Dual)
    requires 1 <= |d.eps|
    ensures r.re == s * h.powf(d.re, -1.0) && |r.eps| == |d.eps|
    ensures forall i :: 0 <= i < |d.eps| ==> r.eps[i] == -s * d.eps[i] * h.powf(d.re, -2.0)
  {
    Div(h, Constant(|d.eps|, s), d)
  }

  /** `tan()`: `sin() / cos()`, recomposed rather than given in closed form. */
  function Tan(h: Host, a: Dual): (r: Dual)
    ensures r.re == h.sin(a.re) * h.powf(h.cos(a.re), -1.0) && |r.eps| == |a.eps|
    ensures forall i :: 0 <= i < |a.eps| ==>
      r.eps[i] == a.eps[i] * (h.cos(a.re) * h.powf(h.cos(a.re), -1.0)
                              + h.sin(a.re) * h.sin(a.re) * h.powf(h.cos(a.re), -2.0))
  {
    Div(h, Sin(h, a), Cos(h, a))
  }

  /** The host's `powf` agrees with the reciprocal at `x`. */
  ghost predicate ReciprocalAt(h: Host, x: real)
  {
    x != 0.0 && h.powf(x, -1.0) == 1.0 / x && h.powf(x, -2.0) == 1.0 / (x * x)
  }

  /** The power -1 and the power 1 at `x` are as in the reals. */
  lemma ReciprocalFacts(h: Host, x: real)
    requires ReciprocalAt(h, x)
    ensures x * h.powf(x, -1.0) == 1.0
    ensures x * x * h.powf(x, -2.0) == 1.0
    ensures x * h.powf(x, -2.0) == h.powf(x, -1.0)
  {
  }

  /** An elementary function of a constant is a constant: no derivative is
      created from nothing. */
  lemma ElementaryOfConstant(h: Host, n: nat, x: real, p: real)
    requires 1 <= n
    ensures Pow(h, Constant(n, x), p) == Constant(n, h.powf(x, p))
    ensures Sin(h, Constant(n, x)) == Constant(n, h.sin(x))
    ensures Cos(h, Constant(n, x)) == Constant(n, h.cos(x))
  {
    var c := Constant(n, x);
    forall i | 0 <= i < n
      ensures Pow(h, c, p).eps[i] == 0.0
      ensures Sin(h, c).eps[i] == 0.0 && Cos(h, c).eps[i] == 0.0
    {
      assert Pow(h, c, p).eps[i] == 0.0 * p * h.powf(x, p - 1.0);
      assert Sin(h, c).eps[i] == 0.0 * h.cos(x);
      assert Cos(h, c).eps[i] == -0.0 * h.sin(x);
    }
    assert Pow(h, c, p).eps == Constant(n, h.powf(x, p)).eps;
    assert Sin(h, c).eps == Constant(n, h.sin(x)).eps;
    assert Cos(h, c).eps == Constant(n, h.cos(x)).eps;
  }

  /** The power 1 reproduces its operand when `re^1 = re` and `re^0 = 1`. */
  lemma PowOne(h: Host, a: Dual)
    requires h.powf(a.re, 1.0) == a.re && h.powf(a.re, 0.0) == 1.0
    ensures Pow(h, a, 1.0) == a
  {
    assert Pow(h, a, 1.0).eps == a.eps;
  }

  /** The power 2 is the product with itself when `re^2 = re * re` and
      `re^1 = re`. */
  lemma PowTwoIsSquare(h: Host, a: Dual)
    requires h.powf(a.re, 2.0) == a.re * a.re && h.powf(a.re, 1.0) == a.re
    ensures Pow(h, a, 2.0) == Mul(a, a)
  {
    var l, r := Pow(h, a, 2.0), Mul(a, a);
    forall i | 0 <= i < |a.eps|
      ensures l.eps[i] == r.eps[i]
    {
      calc {
        l.eps[i];
        a.eps[i] * 2.0 * h.powf(a.re, 1.0);
        a.eps[i] * a.re + a.eps[i] * a.re;
        r.eps[i];
      }
    }
    assert l.eps == r.eps;
  }

  /** Where the host's power -1 is the reciprocal, `invert()` is the
      multiplicative inverse: `a * a.invert()` is the constant 1. */
  lemma InvertIsInverse(h: Host, a: Dual)
    requires 1 <= |a.eps| && ReciprocalAt(h, a.re)
    ensures Mul(a, Invert(h, a)) == Constant(|a.eps|, 1.0)
  {
    var p, inv := Mul(a, Invert(h, a)), Invert(h, a);
    var m1, m2 := h.powf(a.re, -1.0), h.powf(a.re, -2.0);
    ReciprocalFacts(h, a.re);
    forall i | 0 <= i < |a.eps|
      ensures p.eps[i] == 0.0
    {
      var e := a.eps[i];
      assert inv.re == m1 && inv.eps[i] == -e * m2;
      assert p.eps[i] == e * inv.re + inv.eps[i] * a.re;
      assert p.eps[i] == e * (m1 - a.re * m2);
    }
    assert p.eps == Constant(|a.eps|, 1.0).eps;
  }

  /** The quotient rule: where the host's power -1 is the reciprocal at `b`,
      slot i of `a / b` is `(a'_i * b - b'_i * a) / b^2`. */
  lemma QuotientRule(h: Host, a: Dual, b: Dual)
    requires |a.eps| == |b.eps| && ReciprocalAt(h, b.re)
    ensures Div(h, a, b).re == a.re / b.re
    ensures forall i :: 0 <= i < |a.eps| ==>
      Div(h, a, b).eps[i] == (a.eps[i] * b.re - b.eps[i] * a.re) / (b.re * b.re)
  {
    var q := Div(h, a, b);
    forall i | 0 <= i < |a.eps|
      ensures q.eps[i] == (a.eps[i] * b.re - b.eps[i] * a.re) / (b.re * b.re)
    {
      var x := b.re;
      calc {
        q.eps[i];
        a.eps[i] * h.powf(x, -1.0) - a.re * b.eps[i] * h.powf(x, -2.0);
        a.eps[i] * (1.0 / x) - a.re * b.eps[i] * (1.0 / (x * x));
        a.eps[i] * (x / (x * x)) - a.re * b.eps[i] * (1.0 / (x * x));
        (a.eps[i] * x - b.eps[i] * a.re) / (x * x);
      }
    }
  }

  /** Division undoes multiplication: `(a / b) * b == a` wherever the host's
      power -1 is the reciprocal at `b`. */
  lemma DivThenMul(h: Host, a: Dual, b: Dual)
    requires 1 <= |a.eps| == |b.eps| && ReciprocalAt(h, b.re)
    ensures Mul(Div(h, a, b), b) == a
  {
    MulAssociates(a, Invert(h, b), b);
    MulCommutes(Invert(h, b), b);
    InvertIsInverse(h, b);
    MulIdentity(a);
  }

  /** Dividing by a scalar agrees with dividing by its constant, wherever the
      host's power -1 at that scalar is the reciprocal. */
  lemma DivScalarIsLifted(h: Host, a: Dual, s: real)
    requires 1 <= |a.eps| && s != 0.0 && h.powf(s, -1.0) == 1.0 / s
    ensures DivScalar(a, s) == Div(h, a, Constant(|a.eps|, s))
  {
    var n := |a.eps|;
    ElementaryOfConstant(h, n, s, -1.0);
    assert Invert(h, Constant(n, s)) == Constant(n, 1.0 / s);
    MulScalarIsLifted(a, 1.0 / s);
  }

  /** Dividing by a nonzero scalar and multiplying back is the identity. */
  lemma DivScalarThenMulScalar(a: Dual, s: real)
    requires s != 0.0
    ensures MulScalar(DivScalar(a, s), s) == a
  {
    var r := MulScalar(DivScalar(a, s), s);
    forall i | 0 <= i < |a.eps|
      ensures r.eps[i] == a.eps[i]
    {
      assert r.eps[i] == a.eps[i] / s * s;
    }
    assert r.eps == a.eps;
  }

  /** The reverse division `s / d`, multiplied back by `d`, is the constant `s`. */
  lemma ScalarDivThenMul(h: Host, s: real, d: Dual)
    requires 1 <= |d.eps| && ReciprocalAt(h, d.re)
    ensures Mul(ScalarDiv(h, s, d), d) == Constant(|d.eps|, s)
  {
    DivThenMul(h, Constant(|d.eps|, s), d);
  }

  /** The slot arithmetic behind `PythagoreanIdentity`, on bare reals. */
  lemma SlotsCancel(e: real, sn: real, cs: real)
    ensures (e * cs * sn + e * cs * sn) + (-e * sn * cs + -e * sn * cs) == 0.0
  {
  }

  /** `sin^2 + cos^2 = 1` carries over from the real part to the whole value
      (every slot of the sum is 0), wherever it holds at the real part. */
  lemma PythagoreanIdentity(h: Host, a: Dual)
    requires 1 <= |a.eps|
    requires h.sin(a.re) * h.sin(a.re) + h.cos(a.re) * h.cos(a.re) == 1.0
    ensures Add(Mul(Sin(h, a), Sin(h, a)), Mul(Cos(h, a), Cos(h, a))) == Constant(|a.eps|, 1.0)
  {
    var s, c := Sin(h, a), Cos(h, a);
    var ss, cc := Mul(s, s), Mul(c, c);
    var t := Add(ss, cc);
    forall i | 0 <= i < |a.eps|
      ensures t.eps[i] == 0.0
    {
      var e, sn, cs := a.eps[i], h.sin(a.re), h.cos(a.re);
      assert s.eps[i] == e * cs;
      assert c.eps[i] == -e * sn;
      assert ss.eps[i] == s.eps[i] * s.re + s.eps[i] * s.re;
      assert cc.eps[i] == c.eps[i] * c.re + c.eps[i] * c.re;
      SlotsCancel(e, sn, cs);
    }
    assert t.eps == Constant(|a.eps|, 1.0).eps;
  }

  /** `tan()` recomposed from `sin()` and `cos()` has the closed-form
      derivative `sec^2`: slot i is `a'_i / cos^2 re`, wherever
      `sin^2 + cos^2 = 1` at the real part and the host's power -1 is the
      reciprocal at `cos re`. */
  lemma TanDerivative(h: Host, a: Dual)
    requires ReciprocalAt(h, h.cos(a.re))
    requires h.sin(a.re) * h.sin(a.re) + h.cos(a.re) * h.cos(a.re) == 1.0
    ensures Tan(h, a).re == h.sin(a.re) / h.cos(a.re)
    ensures forall i :: 0 <= i < |a.eps| ==>
      Tan(h, a).eps[i] == a.eps[i] / (h.cos(a.re) * h.cos(a.re))
  {
    var s, c := Sin(h, a), Cos(h, a);
    var sn, cs := h.sin(a.re), h.cos(a.re);
    QuotientRule(h, s, c);
    assert Tan(h, a) == Div(h, s, c);
    forall i | 0 <= i < |a.eps|
      ensures Tan(h, a).eps[i] == a.eps[i] / (cs * cs)
    {
      var e := a.eps[i];
      assert Tan(h, a).eps[i] == (s.eps[i] * c.re - c.eps[i] * s.re) / (c.re * c.re);
      assert s.eps[i] == e * cs;
      assert c.eps[i] == -e * sn;
      calc {
        s.eps[i] * c.re - c.eps[i] * s.re;
        (e * cs) * cs - (-e * sn) * sn;
        e * (sn * sn + cs * cs);
        e;
      }
    }
  }
}
