/** The rounding steps the program takes on floats, over exact reals. */
module Rounding {

  function Max(a: real, b: real): real {
    if a >= b then a else b
  }

  function Min(a: real, b: real): real {
    if a <= b then a else b
  }

  function Abs(x: real): real {
    if x >= 0.0 then x else -x
  }

  /** math.Ceil */
  function Ceil(x: real): (n: int)
    ensures n as real - 1.0 < x <= n as real
  {
    -((-x).Floor)
  }

  /** math.Round: to the nearest integer, halves away from zero */
  function Round(x: real): (n: int)
    ensures Abs(n as real - x) <= 0.5
  {
    if x >= 0.0 then (x + 0.5).Floor else -((-x + 0.5).Floor)
  }

  /** int(x): truncation toward zero */
  function Truncate(x: real): (n: int)
    ensures Abs(n as real) <= Abs(x) < Abs(n as real) + 1.0
    ensures if x >= 0.0 then n >= 0 else n <= 0
  {
    if x >= 0.0 then x.Floor else -((-x).Floor)
  }

  lemma TruncateWhole(x: real, n: int)
    requires x == n as real
    ensures Truncate(x) == n
  {
  }

  lemma RoundMonotone(x: real, y: real)
    requires x <= y
    ensures Round(x) <= Round(y)
  {
  }

  /** Halves are rounded away from zero. */
  lemma RoundHalves(n: nat)
    ensures Round(n as real + 0.5) == n + 1
    ensures Round(-(n as real + 0.5)) == -(n + 1)
  {
  }

  /** An amount in euros, rounded to whole cents. */
  function Cents(x: real): real {
    Round(x * 100.0) as real / 100.0
  }

  lemma CentsClose(x: real)
    ensures Abs(Cents(x) - x) <= 0.005
  {
  }

  lemma CentsMonotone(x: real, y: real)
    requires x <= y
    ensures Cents(x) <= Cents(y)
  {
    RoundMonotone(x * 100.0, y * 100.0);
  }

  function Multiple(k: int, step: real): real {
    k as real * step
  }

  ghost predicate MultipleOf(x: real, step: real) {
    exists k :: x == Multiple(k, step)
  }

  lemma ScaleLess(a: real, b: real, step: real)
    requires step > 0.0 && a < b
    ensures a * step < b * step
  {
    assert (b - a) * step > 0.0;
  }

  lemma ScaleUp(q: real, n: int, step: real)
    requires step > 0.0 && n as real - 1.0 < q <= n as real
    ensures q * step <= Multiple(n, step)
    ensures Multiple(n, step) < q * step + step
  {
    var a := n as real;
    var b := a - 1.0;
    ScaleLess(b, q, step);
    assert b * step == a * step - step;
    assert (a - q) * step >= 0.0;
  }

  /** math.Ceil(x/step)*step */
  function CeilTo(x: real, step: real): (r: real)
    requires step > 0.0
    ensures x <= r < x + step
    ensures MultipleOf(r, step)
  {
    var n := Ceil(x / step);
    ScaleUp(x / step, n, step);
    Multiple(n, step)
  }

  /** No multiple of the step lies between x and CeilTo(x, step). */
  lemma CeilToIsLeast(x: real, step: real, c: real)
    requires step > 0.0 && x <= c && MultipleOf(c, step)
    ensures CeilTo(x, step) <= c
  {
    var k :| c == Multiple(k, step);
    var n := Ceil(x / step);
    assert x / step * step == x;
    assert x / step <= k as real;
    assert (k - n) as real * step >= 0.0;
  }
}
