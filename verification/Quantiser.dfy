/** Rounding a physical value to a register code with saturation, over the reals. */
module Quantiser {
  function Clamp(v: real, lo: real, hi: real): real {
    if v < lo then lo else if v > hi then hi else v
  }

  predicate Within(x: real, y: real, bound: real) {
    x - y <= bound && y - x <= bound
  }

  /** Conversion of a real to an int drops the fraction, towards zero. */
  function Trunc(x: real): int {
    if x >= 0.0 then x.Floor else -((-x).Floor)
  }

  /** The code whose multiple of `step` is nearest to v, halves upwards, held within 0..max. */
  predicate Nearest(code: int, v: real, step: real, max: nat) {
    && 0 <= code <= max
    && (code < max ==> v < (code as real + 0.5) * step)
    && (code > 0 ==> v >= (code as real - 0.5) * step)
  }

  /** Nearest determines the code. */
  lemma NearestUnique(c: int, d: int, v: real, step: real, max: nat)
    requires step > 0.0 && Nearest(c, v, step, max) && Nearest(d, v, step, max)
    ensures c == d
  {
    NearestMonotone(c, d, v, v, step, max);
    NearestMonotone(d, c, v, v, step, max);
  }

  /** A value halfway between two codes gets the upper one. */
  lemma NearestOfHalf(c: nat, step: real, max: nat)
    requires step > 0.0 && c < max
    ensures Nearest(c + 1, (c as real + 0.5) * step, step, max)
  {
    Scale(c as real + 0.5, c as real + 1.5, step);
    assert (c as real + 1.5) * step == (c as real + 0.5) * step + step;
  }

  /** A larger value never gets a smaller code. */
  lemma NearestMonotone(c: int, d: int, v: real, w: real, step: real, max: nat)
    requires step > 0.0 && v <= w && Nearest(c, v, step, max) && Nearest(d, w, step, max)
    ensures c <= d
  {
    if c > d {
      assert c as real >= d as real + 1.0;
      Scale(d as real + 0.5, c as real - 0.5, step);
      assert false;
    }
  }

  lemma Scale(x: real, y: real, step: real)
    requires step > 0.0
    ensures x <= y <==> x * step <= y * step
  {
  }

  lemma ClampMonotone(v: real, w: real, lo: real, hi: real)
    requires v <= w && lo <= hi
    ensures lo <= Clamp(v, lo, hi) <= Clamp(w, lo, hi) <= hi
  {
  }

  /** Clamping commutes with a change of unit. */
  lemma ClampScales(v: real, lo: real, hi: real, unit: real)
    requires unit > 0.0 && lo <= hi
    ensures Clamp(v, lo, hi) * unit == Clamp(v * unit, lo * unit, hi * unit)
  {
    Scale(lo, v, unit);
    Scale(v, hi, unit);
  }

  lemma DivideMultiply(x: real, unit: real)
    requires unit > 0.0
    ensures (x / unit) * unit == x
  {
  }

  /** Within half a step of the value, wherever the code does not saturate. */
  lemma NearestHalfStep(c: int, v: real, step: real, max: nat)
    requires step > 0.0 && Nearest(c, v, step, max)
    requires -0.5 * step <= v <= (max as real + 0.5) * step
    ensures -0.5 * step <= c as real * step - v <= 0.5 * step
  {
    assert (c as real - 0.5) * step == c as real * step - 0.5 * step;
    assert (c as real + 0.5) * step == c as real * step + 0.5 * step;
  }

  /** Encoding the value a code stands for gives the code back. */
  lemma NearestOfMultiple(c: nat, step: real, max: nat)
    requires step > 0.0 && c <= max
    ensures Nearest(c, c as real * step, step, max)
  {
    assert (c as real - 0.5) * step == c as real * step - 0.5 * step;
    assert (c as real + 0.5) * step == c as real * step + 0.5 * step;
  }

  /** The code's computation: divide, add a half, truncate, saturate. */
  method Quantise(v: real, step: real, max: nat) returns (code: nat)
    requires step > 0.0
    ensures code <= max && Nearest(code, v, step, max)
  {
    var scaled := v / step;
    var c := Trunc(scaled + 0.5);
    if c < 0 {
      c := 0;
    }
    if c > max {
      c := max;
    }
    assert scaled * step == v;
    if c > 0 {
      Scale(c as real - 0.5, scaled, step);
    }
    if c < max {
      Scale(c as real + 0.5, scaled, step);
    }
    code := c;
  }
}
