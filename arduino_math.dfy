/** The integer arithmetic the headers rely on but do not define: C's `/` on integers, which
    discards the fractional part (rounds toward zero, section 6.5.5 of ISO C11), and the
    Arduino core's `map`, whose formula is taken as
        (x - in_min) * (out_max - out_min) / (in_max - in_min) + out_min
    over `long`. The `map` source is not part of this model; this formula is an assumption.
    Dafny's own `/` rounds toward negative infinity for a positive divisor, so the C operator
    is written out. Integer widths are not modelled here. */
module ArduinoMath {

  function Abs(x: int): nat
  {
    if x < 0 then -x else x
  }

  /** Euclidean facts for a non-negative dividend and positive divisor, stated without
      relying on the solver's non-linear reasoning. */
  lemma DivBounds(a: nat, b: int)
    requires b > 0
    ensures (a / b) * b <= a < (a / b) * b + b
    ensures a / b >= 0
  {
  }

  /** C's integer quotient: the algebraic quotient with the fractional part discarded. */
  function DivTrunc(a: int, b: int): (q: int)
    requires b != 0
    ensures Abs(q) * Abs(b) <= Abs(a) < Abs(q) * Abs(b) + Abs(b)
    ensures q == 0 || ((q < 0) <==> ((a < 0) != (b < 0)))
  {
    DivBounds(Abs(a), Abs(b));
    if (a < 0) == (b < 0) then Abs(a) / Abs(b) else -(Abs(a) / Abs(b))
  }

  /** Dividing an exact multiple gives the multiplier back, whatever the signs. */
  lemma {:induction false} DivTruncExact(k: int, b: int)
    requires b != 0
    ensures DivTrunc(k * b, b) == k
  {
    var q := DivTrunc(k * b, b);
    assert Abs(k * b) == Abs(k) * Abs(b) by { AbsMul(k, b); }
    // |q|·|b| <= |k|·|b| < (|q| + 1)·|b| forces |q| == |k|.
    if Abs(q) < Abs(k) {
      MulLeMonotone(Abs(q) + 1, Abs(k), Abs(b));
    } else if Abs(q) > Abs(k) {
      MulLeMonotone(Abs(k) + 1, Abs(q), Abs(b));
    }
    assert Abs(q) == Abs(k);
  }

  lemma AbsMul(x: int, y: int)
    ensures Abs(x * y) == Abs(x) * Abs(y)
  {
    if x < 0 && y < 0 {
      assert x * y == (-x) * (-y);
    } else if x < 0 {
      assert -(x * y) == (-x) * y;
    } else if y < 0 {
      assert -(x * y) == x * (-y);
    }
  }

  lemma MulLeMonotone(x: int, y: int, c: nat)
    requires x <= y
    ensures x * c <= y * c
  {
    assert y * c - x * c == (y - x) * c;
  }

  /** C's quotient by a positive divisor never decreases when the dividend grows. */
  lemma {:induction false} DivTruncMonotone(a1: int, a2: int, b: int)
    requires a1 <= a2 && b > 0
    ensures DivTrunc(a1, b) <= DivTrunc(a2, b)
  {
    var q1, q2 := DivTrunc(a1, b), DivTrunc(a2, b);
    if q1 > q2 {
      if a1 >= 0 {
        // both non-negative: q2·b <= ... and (q2 + 1)·b <= q1·b <= a1 <= a2 < (q2 + 1)·b
        MulLeMonotone(q2 + 1, q1, b);
      } else if a2 < 0 {
        // both negative: q = -(|a| / b) and |a2| <= |a1|
        MulLeMonotone(-q1 + 1, -q2, b);
      }
    }
  }

  /** Arduino's `map`: rescales `x` from [inMin, inMax] onto [outMin, outMax] with C's
      truncating division, neither clamping `x` nor the result. The endpoints of the input
      range land exactly on the endpoints of the output range. */
  function Map(x: int, inMin: int, inMax: int, outMin: int, outMax: int): (r: int)
    requires inMax != inMin
    ensures x == inMin ==> r == outMin
    ensures x == inMax ==> r == outMax
  {
    var scaled := (x - inMin) * (outMax - outMin);
    MapEndpointProducts(x, inMin, inMax, outMin, outMax);
    DivTrunc(scaled, inMax - inMin) + outMin
  }

  lemma MapEndpointProducts(x: int, inMin: int, inMax: int, outMin: int, outMax: int)
    requires inMax != inMin
    ensures x == inMin ==> DivTrunc((x - inMin) * (outMax - outMin), inMax - inMin) == 0
    ensures x == inMax ==> DivTrunc((x - inMin) * (outMax - outMin), inMax - inMin) == outMax - outMin
  {
    if x == inMin {
      DivTruncExact(0, inMax - inMin);
    } else if x == inMax {
      assert (x - inMin) * (outMax - outMin) == (outMax - outMin) * (inMax - inMin);
      DivTruncExact(outMax - outMin, inMax - inMin);
    }
  }

  /** With an increasing input range and a non-decreasing output range, `map` is
      non-decreasing over all integers, in range or not. */
  lemma {:induction false} MapMonotone(x1: int, x2: int, inMin: int, inMax: int, outMin: int, outMax: int)
    requires x1 <= x2
    requires inMin < inMax && outMin <= outMax
    ensures Map(x1, inMin, inMax, outMin, outMax) <= Map(x2, inMin, inMax, outMin, outMax)
  {
    MulLeMonotone(x1 - inMin, x2 - inMin, outMax - outMin);
    DivTruncMonotone((x1 - inMin) * (outMax - outMin), (x2 - inMin) * (outMax - outMin), inMax - inMin);
  }
}
