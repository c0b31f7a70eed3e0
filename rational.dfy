/** Exact rational time arithmetic.

    Every cycle position and duration is an exact rational; Dafny's `real` is
    one. Beyond the field operations the engine needs fraction.js's `mod`,
    which for a non-negative dividend and a positive divisor is the floor
    remainder defined here, and whole multiples of a step size. Multiples and
    quotients are defined by repeated addition and subtraction, and related
    to multiplication and division by the lemmas below. */
module Rational {

  /** k whole steps of size y, that is k * y. */
  function Multiple(k: nat, y: real): (r: real)
    ensures y >= 0.0 ==> r >= 0.0
  {
    if k == 0 then 0.0 else Multiple(k - 1, y) + y
  }

  function Min(a: real, b: real): real {
    if a <= b then a else b
  }

  lemma MultipleNext(k: nat, y: real)
    ensures Multiple(k + 1, y) == Multiple(k, y) + y
  {
  }

  lemma {:induction false} MultipleAdd(a: nat, b: nat, y: real)
    ensures Multiple(a + b, y) == Multiple(a, y) + Multiple(b, y)
    decreases b
  {
    if b > 0 {
      MultipleAdd(a, b - 1, y);
      assert a + b == (a + b - 1) + 1;
    }
  }

  lemma {:induction false} MultipleIsProduct(k: nat, y: real)
    ensures Multiple(k, y) == k as real * y
  {
    if k > 0 {
      MultipleIsProduct(k - 1, y);
    }
  }

  /** Multiples of a whole number are whole. */
  lemma {:induction false} MultipleOfWhole(k: nat, n: int)
    ensures Multiple(k, n as real) == (k * n) as real
  {
    if k > 0 {
      MultipleOfWhole(k - 1, n);
      assert (k - 1) * n + n == k * n;
    }
  }

  /** a steps of (b steps of y) are a * b steps of y. */
  lemma {:induction false} MultipleOfMultiple(a: nat, b: nat, y: real)
    ensures Multiple(a, Multiple(b, y)) == Multiple(a * b, y)
  {
    if a > 0 {
      MultipleOfMultiple(a - 1, b, y);
      MultipleAdd((a - 1) * b, b, y);
      assert (a - 1) * b + b == a * b;
    }
  }

  lemma MultipleOrder(a: nat, b: nat, y: real)
    requires y > 0.0
    ensures a <= b <==> Multiple(a, y) <= Multiple(b, y)
    ensures a < b <==> Multiple(a, y) < Multiple(b, y)
  {
    if a <= b {
      MultipleAdd(a, b - a, y);
      if a < b {
        MultipleAdd(0, b - a - 1, y);
        MultipleNext(b - a - 1, y);
      }
    } else {
      MultipleAdd(b, a - b, y);
      MultipleNext(a - b - 1, y);
    }
  }

  /** floor(x / y): how many whole `y`s fit in `x`. */
  function Quotient(x: real, y: real): (q: nat)
    requires x >= 0.0 && y > 0.0
    ensures Multiple(q, y) <= x < Multiple(q, y) + y
    decreases (x / y).Floor
  {
    if x < y then 0
    else
      OneLessStep(x, y);
      1 + Quotient(x - y, y)
  }

  lemma OneLessStep(x: real, y: real)
    requires y > 0.0
    ensures (x - y) / y == x / y - 1.0
  {
    assert y / y == 1.0;
    assert (x - y) / y == x / y - y / y;
  }

  /** Dividing by a positive `y` keeps bounds of the form a * y. */
  lemma DivisionBounds(a: real, x: real, y: real)
    requires y > 0.0
    ensures a * y <= x ==> a <= x / y
    ensures x < a * y ==> x / y < a
  {
    assert x / y - a == (x - a * y) / y;
  }

  /** The remainder `x.mod(y)` of fraction.js, for x >= 0 and y > 0. */
  function Mod(x: real, y: real): (r: real)
    requires x >= 0.0 && y > 0.0
    ensures 0.0 <= r < y
    ensures r <= x
    ensures x == Multiple(Quotient(x, y), y) + r
  {
    x - Multiple(Quotient(x, y), y)
  }

  /** The quotient is the floor of the exact division. */
  lemma QuotientIsFloor(x: real, y: real)
    requires x >= 0.0 && y > 0.0
    ensures Quotient(x, y) == (x / y).Floor
  {
    var q := Quotient(x, y);
    MultipleIsProduct(q, y);
    MultipleNext(q, y);
    MultipleIsProduct(q + 1, y);
    DivisionBounds(q as real, x, y);
    DivisionBounds((q + 1) as real, x, y);
  }

  /** The remainder is the unique `s` in [0, y) with x = k*y + s: the
      characterisation of the remainder that every alignment argument uses. */
  lemma ModOfDecomposition(x: real, y: real, k: nat, s: real)
    requires x >= 0.0 && y > 0.0
    requires 0.0 <= s < y
    requires x == Multiple(k, y) + s
    ensures Quotient(x, y) == k
    ensures Mod(x, y) == s
  {
    var q := Quotient(x, y);
    MultipleNext(q, y);
    MultipleNext(k, y);
    MultipleOrder(q, k, y);
    MultipleOrder(k, q, y);
    MultipleOrder(q, k + 1, y);
    MultipleOrder(k, q + 1, y);
  }

  /** Whole multiples of `y` leave no remainder. */
  lemma MultipleIsAligned(k: nat, y: real)
    requires y > 0.0
    ensures Mod(Multiple(k, y), y) == 0.0
    ensures Quotient(Multiple(k, y), y) == k
  {
    ModOfDecomposition(Multiple(k, y), y, k, 0.0);
  }

  /** More of `x` holds at least as many whole `y`s. */
  lemma QuotientMonotone(a: real, b: real, y: real)
    requires 0.0 <= a <= b && y > 0.0
    ensures Quotient(a, y) <= Quotient(b, y)
  {
    var qa, qb := Quotient(a, y), Quotient(b, y);
    MultipleNext(qb, y);
    MultipleOrder(qa, qb + 1, y);
  }
}
