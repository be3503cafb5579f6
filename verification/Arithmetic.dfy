/** Nonlinear facts about exact reals, each small enough to be used on its own. */
module Arithmetic {

  type Positive = x: real | x > 0.0 witness 1.0

  type NonNegative = x: real | x >= 0.0

  function Min(a: real, b: real): (m: real) {
    if a <= b then a else b
  }

  function Max(a: real, b: real): (m: real) {
    if a <= b then b else a
  }

  function Scale(x: real, factor: real): real {
    x * factor
  }

  lemma ScalePositive(x: real, factor: real)
    requires x > 0.0 && factor > 0.0
    ensures Scale(x, factor) > 0.0
  {}

  lemma ScaleSplits(x: real, a: real, b: real)
    ensures Scale(x, a) + Scale(x, b) == Scale(x, a + b)
  {}

  lemma ScaleByOne(x: real)
    ensures Scale(x, 1.0) == x
  {}

  lemma ScaleUp(x: real, factor: real)
    requires x > 0.0 && factor > 1.0
    ensures Scale(x, factor) > x
  {
    ScalePositive(x, factor - 1.0);
    ScaleSplits(x, factor - 1.0, 1.0);
    ScaleByOne(x);
  }

  lemma ScaleDown(x: real, factor: real)
    requires x > 0.0 && 0.0 < factor < 1.0
    ensures 0.0 < Scale(x, factor) < x
  {
    ScalePositive(x, factor);
    ScalePositive(x, 1.0 - factor);
    ScaleSplits(x, factor, 1.0 - factor);
    ScaleByOne(x);
  }

  /** The part of `cost` that falls on `part` out of `whole`. */
  function Share(cost: real, part: real, whole: Positive): real {
    cost * part / whole
  }

  lemma ShareOfWhole(cost: real, whole: Positive)
    ensures Share(cost, whole, whole) == cost
    ensures Share(cost, 0.0, whole) == 0.0
  {}

  lemma ShareSplits(cost: real, a: real, b: real, whole: Positive)
    ensures Share(cost, a, whole) + Share(cost, b, whole) == Share(cost, a + b, whole)
  {
    calc {
      Share(cost, a + b, whole);
      cost * (a + b) / whole;
      (cost * a + cost * b) / whole;
      cost * a / whole + cost * b / whole;
    }
  }
}
