/** The value type of one dual-number family: a real part and one derivative
    slot per axis of the family.  The family's named axes are modelled by their
    position: axis `c` of a family with `n` axes is slot `c < n`, and two values
    belong to the same family exactly when they have the same number of slots. */
module DualValue {

  /** `eps[i]` holds the partial derivative of the value with respect to axis i. */
  datatype Dual = Dual(re: real, eps: seq<real>)

  /** The result of comparing two values; exact reals are always comparable. */
  datatype Ordering = Less | Equal | Greater

  /** The host scalar library the engine calls for `powf`, `sin` and `cos`.
      Its functions are parameters of the model: nothing is assumed about them
      except what a lemma states in its own `requires`. */
  datatype Host = Host(powf: (real, real) -> real, sin: real -> real, cos: real -> real)

  /** The family of `n` zero slots: a value that depends on no axis. */
  function Zeros(n: nat): (z: seq<real>)
    ensures |z| == n
    ensures forall i :: 0 <= i < n ==> z[i] == 0.0
  {
    seq(n, _ => 0.0)
  }

  /** `From<f64>`: lift a scalar into a family of `n` axes. */
  function Constant(n: nat, r: real): (d: Dual)
    requires 1 <= n
    ensures d.re == r && |d.eps| == n
    ensures forall i :: 0 <= i < n ==> d.eps[i] == 0.0
  {
    Dual(r, Zeros(n))
  }

  /** `eps_c(real, e)`: start from the constant `r` and set slot `c` alone to `e`. */
  function WithSlot(n: nat, c: nat, r: real, e: real): (d: Dual)
    requires 1 <= n && c < n
    ensures d.re == r && |d.eps| == n && d.eps[c] == e
    ensures forall i :: 0 <= i < n && i != c ==> d.eps[i] == 0.0
  {
    var base := Constant(n, r);
    base.(eps := base.eps[c := e])
  }

  /** `c(real)`: the independent variable of axis `c` at `r`; its derivative
      with respect to itself is 1 and with respect to every other axis is 0. */
  function Seed(n: nat, c: nat, r: real): (d: Dual)
    requires 1 <= n && c < n
    ensures d.re == r && |d.eps| == n
    ensures forall i :: 0 <= i < n ==> d.eps[i] == if i == c then 1.0 else 0.0
  {
    WithSlot(n, c, r, 1.0)
  }

  /** `partial_cmp`: values are ordered by their real parts alone. */
  function Compare(a: Dual, b: Dual): (o: Ordering)
    ensures o == Less <==> a.re < b.re
    ensures o == Equal <==> a.re == b.re
    ensures o == Greater <==> a.re > b.re
  {
    if a.re < b.re then Less
    else if b.re < a.re then Greater
    else Equal
  }

  /** Replacing the derivative slots of either operand never changes the
      comparison. */
  lemma CompareIgnoresSlots(a: Dual, b: Dual, da: seq<real>, db: seq<real>)
    ensures Compare(Dual(a.re, da), Dual(b.re, db)) == Compare(a, b)
  {
  }

  /** Swapping the operands reverses the comparison. */
  lemma CompareAntisymmetric(a: Dual, b: Dual)
    ensures Compare(a, b) == Less <==> Compare(b, a) == Greater
    ensures Compare(a, b) == Equal <==> Compare(b, a) == Equal
  {
  }

  /** The comparison is not the (derived, slot-wise) equality: the variable
      `x` at 5 and the constant 5 compare Equal yet are different values. */
  lemma CompareEqualDoesNotMeanEqual()
    ensures Compare(Seed(3, 0, 5.0), Constant(3, 5.0)) == Equal
    ensures Seed(3, 0, 5.0) != Constant(3, 5.0)
  {
    assert Seed(3, 0, 5.0).eps[0] != Constant(3, 5.0).eps[0];
  }
}
