/** The JavaScript number primitives the scoring code relies on, over exact reals.
    `Math.round` rounds halves towards positive infinity, `Math.ceil` rounds up, and the
    scorer's "one decimal" rounding is `Math.round(x * 10) / 10`. */
module JsMath {

  /** `Math.round(x)`: the unique integer in the half-open window (x - 1/2, x + 1/2]. */
  function Round(x: real): (r: int)
    ensures x - 0.5 < r as real <= x + 0.5
  {
    (x + 0.5).Floor
  }

  /** `Math.ceil(x)`: the least integer not below x. */
  function Ceil(x: real): (r: int)
    ensures x <= r as real < x + 1.0
  {
    -((-x).Floor)
  }

  /** `Math.round(x * 10) / 10`: x rounded to one decimal place. */
  function Round1(x: real): (r: real)
    ensures x - 0.05 < r <= x + 0.05
    ensures (r * 10.0).Floor as real == r * 10.0
  {
    Round(x * 10.0) as real / 10.0
  }

  /** `Math.min` on two numbers. */
  function Min(a: real, b: real): (r: real)
    ensures r <= a && r <= b
    ensures r == a || r == b
  {
    if a <= b then a else b
  }

  /** `Math.max` on two numbers. */
  function Max(a: real, b: real): (r: real)
    ensures a <= r && b <= r
    ensures r == a || r == b
  {
    if a <= b then b else a
  }

  /** The integer part never reverses the order of two numbers. */
  lemma FloorMonotone(a: real, b: real)
    requires a <= b
    ensures a.Floor <= b.Floor
  {
    assert a.Floor as real <= a;
    assert b < b.Floor as real + 1.0;
  }

  /** Rounding to one decimal never reverses the order of two numbers. */
  lemma Round1Monotone(x: real, y: real)
    requires x <= y
    ensures Round1(x) <= Round1(y)
  {
    var a, b := x * 10.0, y * 10.0;
    assert a <= b;
    FloorMonotone(a + 0.5, b + 0.5);
    assert Round(a) <= Round(b);
  }

  /** A number that already has one decimal place is left unchanged. */
  lemma Round1OfTenths(n: int)
    ensures Round1(n as real / 10.0) == n as real / 10.0
  {
    var x := n as real / 10.0;
    assert x * 10.0 == n as real;
    assert (n as real + 0.5).Floor == n;
    assert Round(x * 10.0) == n;
  }

  /** Rounding to one decimal keeps a number inside any interval whose ends have one decimal
      place; in particular it maps [0, 5] into [0, 5]. */
  lemma Round1Within(x: real, lo: int, hi: int)
    requires lo as real / 10.0 <= x <= hi as real / 10.0
    ensures lo as real / 10.0 <= Round1(x) <= hi as real / 10.0
  {
    Round1Monotone(lo as real / 10.0, x);
    Round1Monotone(x, hi as real / 10.0);
    Round1OfTenths(lo);
    Round1OfTenths(hi);
  }

  /** The scores of this system live on [0, 5]; one-decimal rounding stays there. */
  lemma Round1InScoreRange(x: real)
    requires 0.0 <= x <= 5.0
    ensures 0.0 <= Round1(x) <= 5.0
  {
    Round1Within(x, 0, 50);
  }
}
