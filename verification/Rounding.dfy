/** Decimal quantisation as the pricing code uses it: ROUND_HALF_UP where it is asked for by name,
    and the decimal module's default ROUND_HALF_EVEN where quantize is called without a mode. */
module Rounding {

  /** ROUND_HALF_UP to an integer: ties move away from zero. */
  function HalfUp(x: real): (n: int)
    ensures x >= 0.0 ==> -0.5 <= x - n as real < 0.5
    ensures x < 0.0 ==> -0.5 < x - n as real <= 0.5
  {
    if x >= 0.0 then (x + 0.5).Floor else -((0.5 - x).Floor)
  }

  lemma HalfUpMonotone(x: real, y: real)
    requires x <= y
    ensures HalfUp(x) <= HalfUp(y)
  {
  }

  /** What it takes to be rounded up to m or more: half a unit below it, ties counting towards the larger
      magnitude. */
  predicate Reaches(x: real, m: int) {
    if m >= 1 then x >= m as real - 0.5 else x > m as real - 0.5
  }

  lemma HalfUpReaches(x: real, m: int)
    ensures HalfUp(x) >= m <==> Reaches(x, m)
  {
  }

  lemma HalfUpIdentity(n: int)
    ensures HalfUp(n as real) == n
  {
  }

  /** ROUND_HALF_EVEN to an integer: ties move to the even neighbour. */
  function HalfEven(x: real): (n: int)
    ensures -0.5 <= x - n as real <= 0.5
    ensures x - n as real == 0.5 || x - n as real == -0.5 ==> n % 2 == 0
  {
    var f := x.Floor;
    var rest := x - f as real;
    if rest < 0.5 || (rest == 0.5 && f % 2 == 0) then f else f + 1
  }

  lemma HalfEvenMonotone(x: real, y: real)
    requires x <= y
    ensures HalfEven(x) <= HalfEven(y)
  {
    var f, g := x.Floor, y.Floor;
    assert f <= g;
  }

  /** value.quantize(Decimal("0.01"), rounding=ROUND_HALF_UP) */
  function Cents(x: real): real {
    HalfUp(x * 100.0) as real / 100.0
  }

  /** The least integer at or above x. */
  function Ceil(x: real): (n: int)
    ensures n as real - 1.0 < x <= n as real
  {
    -((-x).Floor)
  }

  /** When a price in cents ends at or above a bound, or above it: decided by the unrounded value. */
  lemma CentsReach(value: real, bound: real)
    ensures Cents(value) >= bound <==> Reaches(value * 100.0, Ceil(bound * 100.0))
    ensures Cents(value) > bound <==> Reaches(value * 100.0, (bound * 100.0).Floor + 1)
  {
    HalfUpReaches(value * 100.0, Ceil(bound * 100.0));
    HalfUpReaches(value * 100.0, (bound * 100.0).Floor + 1);
  }

  /** value.quantize(Decimal("0.01")) under the default context */
  function BankersCents(x: real): real {
    HalfEven(x * 100.0) as real / 100.0
  }

  ghost predicate IsCents(x: real, n: int) {
    x * 100.0 == n as real
  }

  ghost predicate WholeCents(x: real) {
    exists n: int :: IsCents(x, n)
  }

  lemma CentsMonotone(x: real, y: real)
    requires x <= y
    ensures Cents(x) <= Cents(y)
  {
    HalfUpMonotone(x * 100.0, y * 100.0);
  }

  lemma CentsIdentity(x: real)
    ensures Cents(x) == x <==> WholeCents(x)
  {
    if WholeCents(x) {
      var n: int :| IsCents(x, n);
      HalfUpIdentity(n);
    }
    if Cents(x) == x {
      assert IsCents(x, HalfUp(x * 100.0));
    }
  }

  lemma BankersCentsMonotone(x: real, y: real)
    requires x <= y
    ensures BankersCents(x) <= BankersCents(y)
  {
    HalfEvenMonotone(x * 100.0, y * 100.0);
  }

  lemma BankersCentsIdentity(x: real)
    ensures BankersCents(x) == x <==> WholeCents(x)
    ensures -0.005 <= x - BankersCents(x) <= 0.005
  {
    if WholeCents(x) {
      var n: int :| IsCents(x, n);
      assert (n as real).Floor == n;
    }
    if BankersCents(x) == x {
      assert IsCents(x, HalfEven(x * 100.0));
    }
  }
}
