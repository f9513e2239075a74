/** The engine instantiated for the family `SampleXYZ` with axes x, y, z, and the
    concrete identities the repository checks for it; last, an end-to-end
    scenario on a two-axis family (x, y), which is not among those checks.
    Where an identity needs a value of the host's `powf`, `sin` or `cos`, that
    value is a `requires`. */
module SampleXYZ {
  import opened DualValue
  import opened Arithmetic
  import opened Elementary
  import opened CompoundAssign

  const N: nat := 3
  const X: nat := 0
  const Y: nat := 1
  const Z: nat := 2

  /** Scalars added, subtracted and multiplied on either side of a variable. */
  lemma ScalarOperands()
    ensures AddScalar(Seed(N, X, 5.0), 3.0) == Seed(N, X, 8.0)
    ensures SubScalar(Seed(N, Y, 5.0), 3.0) == Seed(N, Y, 2.0)
    ensures ScalarSub(3.0, Seed(N, Y, 5.0)) == WithSlot(N, Y, -2.0, -1.0)
    ensures MulScalar(Seed(N, Z, 2.0), 3.0) == Dual(6.0, [0.0, 0.0, 3.0])
  {
    assert ScalarSub(3.0, Seed(N, Y, 5.0)).eps == WithSlot(N, Y, -2.0, -1.0).eps;
    assert MulScalar(Seed(N, Z, 2.0), 3.0).eps == [0.0, 0.0, 3.0];
  }

  /** `x(10).pow(2)` has real 100 and x-slot 20, given `10^2 = 100` and
      `10^1 = 10`. */
  lemma PowAtTen(h: Host)
    requires h.powf(10.0, 2.0) == 100.0 && h.powf(10.0, 1.0) == 10.0
    ensures Pow(h, Seed(N, X, 10.0), 2.0) == Dual(100.0, [20.0, 0.0, 0.0])
  {
    assert Pow(h, Seed(N, X, 10.0), 2.0).eps == [20.0, 0.0, 0.0];
  }

  /** `y(10).invert()` has real 0.1 and y-slot -0.01, given `10^-1 = 0.1` and
      `10^-2 = 0.01`. */
  lemma InvertAtTen(h: Host)
    requires h.powf(10.0, -1.0) == 0.1 && h.powf(10.0, -2.0) == 0.01
    ensures Invert(h, Seed(N, Y, 10.0)) == Dual(0.1, [0.0, -0.01, 0.0])
  {
    assert Invert(h, Seed(N, Y, 10.0)).eps == [0.0, -0.01, 0.0];
  }

  /** `v = x(3); v += 7` leaves `v` equal to `x(10)`. */
  method AddAssignSeven() returns (v: Dual)
    ensures v == Seed(N, X, 10.0)
  {
    var cell := new DualVar(Seed(N, X, 3.0));
    cell.AddAssignScalar(7.0);
    v := cell.value;
  }

  /** The distributivity checks at `x = x(1)`; `(x + 1).pow(2)` agrees with the
      square given `2^2 = 4` and `2^1 = 2`. */
  lemma DistributivityAtOne(h: Host)
    requires h.powf(2.0, 2.0) == 4.0 && h.powf(2.0, 1.0) == 2.0
    ensures var x := Seed(N, X, 1.0);
      Mul(AddScalar(x, 1.0), AddScalar(x, 1.0)) == AddScalar(Add(Mul(x, x), ScalarMul(2.0, x)), 1.0)
      && Mul(AddScalar(x, 1.0), AddScalar(x, 1.0)) == Pow(h, AddScalar(x, 1.0), 2.0)
      && Mul(AddScalar(x, 1.0), SubScalar(x, 1.0)) == SubScalar(Mul(x, x), 1.0)
  {
    var x := Seed(N, X, 1.0);
    SquareOfSum(x);
    DifferenceOfSquares(x);
    PowTwoIsSquare(h, AddScalar(x, 1.0));
  }

  /** At `x = x(0)`, given `sin 0 = 0`, `cos 0 = 1` and `1^-1 = 1^-2 = 1`:
      `sin` is `eps_x(0, 1)`, `cos` is `eps_x(1, 0)`, `tan` is `eps_x(0, 1)`. */
  lemma TrigAtZero(h: Host)
    requires h.sin(0.0) == 0.0 && h.cos(0.0) == 1.0
    requires h.powf(1.0, -1.0) == 1.0 && h.powf(1.0, -2.0) == 1.0
    ensures Sin(h, Seed(N, X, 0.0)) == WithSlot(N, X, 0.0, 1.0)
    ensures Cos(h, Seed(N, X, 0.0)) == WithSlot(N, X, 1.0, 0.0)
    ensures Tan(h, Seed(N, X, 0.0)) == WithSlot(N, X, 0.0, 1.0)
  {
    var x := Seed(N, X, 0.0);
    assert Sin(h, x).eps == WithSlot(N, X, 0.0, 1.0).eps;
    assert Cos(h, x).eps == WithSlot(N, X, 1.0, 0.0).eps;
    assert Tan(h, x).eps == WithSlot(N, X, 0.0, 1.0).eps;
  }

  /** An end-to-end scenario on a two-axis family with axes x, y (not one of the
      repository's checks): `z = x.pow(2) + y * y.sin()` at x = 5, y = 7 has
      dz/dx = 10 (given `5^1 = 5`) and dz/dy = `sin 7 + 7 cos 7`. */
  lemma PolynomialAndSine(h: Host)
    requires h.powf(5.0, 1.0) == 5.0
    ensures var x, y := Seed(2, 0, 5.0), Seed(2, 1, 7.0);
      var z := Add(Pow(h, x, 2.0), Mul(y, Sin(h, y)));
      z.eps[0] == 10.0 && z.eps[1] == h.sin(7.0) + 7.0 * h.cos(7.0)
  {
  }
}
