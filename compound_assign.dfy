/** The compound assignments `+=`, `-=`, `*=`, `/=`, each with a bare scalar or
    a dual value on the right.  Each one replaces the whole value held by the
    variable with the out-of-place operator applied to the old value. */
module CompoundAssign {
  import opened DualValue
  import opened Arithmetic
  import opened Elementary

  /** A mutable variable of a dual-number type, the target of `op=`. */
  class DualVar {
    var value: Dual

    constructor (v: Dual)
      ensures value == v
    {
      value := v;
    }

    /** `v += k`, through `Add<f64>`. */
    method AddAssignScalar(k: real)
      modifies this
      ensures value == AddScalar(old(value), k)
    {
      value := ComputeAddScalar(value, k);
    }

    /** `v += k`, through `Add<Self>`. */
    method AddAssign(k: Dual)
      requires |k.eps| == |value.eps|
      modifies this
      ensures value == Add(old(value), k)
    {
      value := ComputeAdd(value, k);
    }

    /** `v -= k`: `Sub<f64>` adds the negated scalar through `Add<f64>`. */
    method SubAssignScalar(k: real)
      modifies this
      ensures value == SubScalar(old(value), k)
    {
      value := ComputeAddScalar(value, -k);
    }

    /** `v -= k`: `Sub<Self>` negates `k` through `Mul<f64>` by -1 and adds it
        through `Add<Self>`. */
    method SubAssign(k: Dual)
      requires |k.eps| == |value.eps|
      modifies this
      ensures value == Sub(old(value), k)
    {
      var negated := ComputeMulScalar(k, -1.0);
      value := ComputeAdd(value, negated);
    }

    /** `v *= k`, through `Mul<f64>`. */
    method MulAssignScalar(k: real)
      modifies this
      ensures value == MulScalar(old(value), k)
    {
      value := ComputeMulScalar(value, k);
    }

    /** `v *= k`, through `Mul<Self>`. */
    method MulAssign(k: Dual)
      requires |k.eps| == |value.eps|
      modifies this
      ensures value == Mul(old(value), k)
    {
      value := Mul(value, k);
    }

    /** `v /= k`: `Div<f64>` multiplies by `1 / k` through `Mul<f64>`. */
    method DivAssignScalar(k: real)
      requires k != 0.0
      modifies this
      ensures value == DivScalar(old(value), k)
    {
      value := ComputeMulScalar(value, 1.0 / k);
    }

    /** `v /= k`, through `Div<Self>`. */
    method DivAssign(h: Host, k: Dual)
      requires |k.eps| == |value.eps|
      modifies this
      ensures value == Div(h, old(value), k)
    {
      value := Div(h, value, k);
    }
  }
}
