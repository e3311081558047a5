/** The two rounding rules of `Math.Round` the domain uses on `decimal`:
    `MidpointRounding.AwayFromZero`, which the tax calculator asks for, and
    the default `MidpointRounding.ToEven` (banker's rounding), which
    `Dinero` gets by not asking. Each is defined on whole units and then
    scaled to two decimals. */
module Redondeo {

  /** Nearest integer, halves away from zero. */
  function RedondearLejosDeCero(x: real): (n: int)
    ensures x >= 0.0 ==> n as real - 0.5 <= x < n as real + 0.5
    ensures x < 0.0 ==> n as real - 0.5 < x <= n as real + 0.5
  {
    if x >= 0.0 then (x + 0.5).Floor else -((-x + 0.5).Floor)
  }

  /** Nearest integer, halves to the even neighbour. */
  function RedondearAlPar(x: real): (n: int)
    ensures -0.5 <= x - n as real <= 0.5
    ensures (x - n as real == 0.5 || x - n as real == -0.5) ==> n % 2 == 0
  {
    var f := x.Floor;
    var d := x - f as real;
    if d < 0.5 then f
    else if d > 0.5 then f + 1
    else if f % 2 == 0 then f
    else f + 1
  }

  /** The postconditions above pin each rule down: any integer meeting
      them is the one the rule picks. */
  lemma LejosDeCeroUnico(x: real, n: int)
    requires x >= 0.0 ==> n as real - 0.5 <= x < n as real + 0.5
    requires x < 0.0 ==> n as real - 0.5 < x <= n as real + 0.5
    ensures n == RedondearLejosDeCero(x)
  {
    var m := RedondearLejosDeCero(x);
    assert -1.0 < n as real - m as real < 1.0;
  }

  lemma AlParUnico(x: real, n: int)
    requires -0.5 <= x - n as real <= 0.5
    requires (x - n as real == 0.5 || x - n as real == -0.5) ==> n % 2 == 0
    ensures n == RedondearAlPar(x)
  {
    var m := RedondearAlPar(x);
    assert -1.0 <= n as real - m as real <= 1.0;
  }

  /** A value strictly within half a unit of an integer rounds to it under
      either rule. */
  lemma CercaDeEntero(k: int, e: real)
    requires -0.5 < e < 0.5
    ensures RedondearLejosDeCero(k as real + e) == k
    ensures RedondearAlPar(k as real + e) == k
  {
    LejosDeCeroUnico(k as real + e, k);
    AlParUnico(k as real + e, k);
  }

  /** A whole number of cents. */
  predicate EsDeCentavos(x: real) {
    (x * 100.0).Floor as real == x * 100.0
  }

  /** `Math.Round(x, 2, MidpointRounding.AwayFromZero)`. */
  function Redondear2(x: real): (r: real)
    ensures EsDeCentavos(r)
    ensures -0.005 <= r - x <= 0.005
    ensures x >= 0.0 ==> r >= 0.0
    ensures x >= 0.0 ==> -0.005 < r - x <= 0.005
    ensures x < 0.0 ==> -0.005 <= r - x < 0.005
  {
    var n := RedondearLejosDeCero(x * 100.0);
    assert (n as real / 100.0) * 100.0 == n as real;
    n as real / 100.0
  }

  /** `Math.Round(x, 2)`: banker's rounding to cents. */
  function RedondearPar2(x: real): (r: real)
    ensures EsDeCentavos(r)
    ensures -0.005 <= r - x <= 0.005
    ensures x >= 0.0 ==> r >= 0.0
    ensures (r - x == 0.005 || r - x == -0.005) ==> (r * 100.0).Floor % 2 == 0
  {
    var n := RedondearAlPar(x * 100.0);
    assert (n as real / 100.0) * 100.0 == n as real;
    n as real / 100.0
  }

  /** Rounding to cents leaves a whole number of cents alone. */
  lemma CentavosFijos(x: real)
    requires EsDeCentavos(x)
    ensures Redondear2(x) == x && RedondearPar2(x) == x
  {
    var k := (x * 100.0).Floor;
    CercaDeEntero(k, 0.0);
  }

  /** Sums and differences of whole cents are whole cents. */
  lemma CentavosCerrados(x: real, y: real)
    requires EsDeCentavos(x) && EsDeCentavos(y)
    ensures EsDeCentavos(x + y) && EsDeCentavos(x - y)
  {
    var a, b := (x * 100.0).Floor, (y * 100.0).Floor;
    var s, d := (x + y) * 100.0, (x - y) * 100.0;
    assert s == x * 100.0 + y * 100.0 == (a + b) as real;
    assert d == x * 100.0 - y * 100.0 == (a - b) as real;
    assert s.Floor == a + b;
    assert d.Floor == a - b;
  }

  /** The two rules differ exactly on halves: 2.345 goes up to 2.35 away
      from zero but down to the even 2.34 under banker's rounding, while
      2.355 goes up under both. */
  lemma MitadesDifieren()
    ensures Redondear2(2.345) == 2.35 && RedondearPar2(2.345) == 2.34
    ensures Redondear2(2.355) == 2.36 && RedondearPar2(2.355) == 2.36
  {
    LejosDeCeroUnico(234.5, 235);
    AlParUnico(234.5, 234);
    LejosDeCeroUnico(235.5, 236);
    AlParUnico(235.5, 236);
  }
}
