/**
 * The reconnect policy of `apps/api/src/realtime.ts`: a delay drawn from a window that doubles with every
 * attempt. The random value is any real number; rounding of doubles is not modelled.
 */
module ReconnectPolicy {
  function Pow2(n: nat): nat { if n == 0 then 1 else 2 * Pow2(n - 1) }

  function Cap(attempt: nat): nat {
    if 30_000 <= 1_000 * Pow2(attempt) then 30_000 else 1_000 * Pow2(attempt)
  }

  /** The random value clamped to 0 .. 0.999999999. */
  function Unit(random: real): real {
    var low := if random < 0.0 then 0.0 else random;
    if low < 0.999_999_999 then low else 0.999_999_999
  }

  /** The delay at a share of a window of so many milliseconds. */
  function Within(unit: real, width: int): int { 1_000 + (unit * width as real).Floor }

  function Delay(attempt: nat, random: real): int { Within(Unit(random), Cap(attempt) - 999) }

  class Policy {
    var attempt: nat

    constructor ()
      ensures attempt == 0
    {
      attempt := 0;
    }

    method NextDelayMs(random: real) returns (delay: int)
      modifies this
      ensures attempt == old(attempt) + 1 && delay == Delay(old(attempt), random)
      ensures 1_000 <= delay <= 30_000 && delay <= 1_000 * Pow2(old(attempt))
      ensures old(attempt) == 0 ==> delay == 1_000
    {
      DelayInWindow(attempt, random);
      var cap := Cap(attempt);
      attempt := attempt + 1;
      delay := 1_000 + (Unit(random) * (cap - 999) as real).Floor;
    }

    method Reset()
      modifies this
      ensures attempt == 0
    {
      attempt := 0;
    }
  }

  lemma {:induction false} Pow2Monotone(a: nat, b: nat)
    requires a <= b
    ensures 1 <= Pow2(a) <= Pow2(b)
    decreases b
  {
    if a < b {
      Pow2Monotone(a, b - 1);
    } else if a > 0 {
      Pow2Monotone(a - 1, b - 1);
    }
  }

  /** The cap never shrinks, doubles up to the fourth attempt and is constant from the fifth on. */
  lemma CapGrows(a: nat, b: nat)
    requires a <= b
    ensures 1_000 <= Cap(a) <= Cap(b) <= 30_000
    ensures a < 4 ==> Cap(a + 1) == 2 * Cap(a)
    ensures b < 5 && a < b ==> 2 * Cap(a) <= Cap(b)
    ensures 5 <= a ==> Cap(a) == 30_000
  {
    Pow2Monotone(a, b);
    assert Pow2(4) == 16;
    assert Pow2(5) == 32;
    if b < 5 {
      Pow2Monotone(b, 4);
      if a < b { Pow2Monotone(a + 1, b); }
    }
    if 5 <= a { Pow2Monotone(5, a); }
    if a < 4 { Pow2Monotone(a + 1, 4); }
  }

  lemma ScaledFloor(unit: real, width: nat)
    requires 0.0 <= unit < 1.0 && 1 <= width
    ensures 0 <= (unit * width as real).Floor < width
  {
    assert 0.0 <= unit * width as real;
    assert unit * width as real < width as real by {
      assert (1.0 - unit) * width as real > 0.0;
    }
  }

  /** Every delay lies between a second and the cap; before the first doubling there is only one choice. */
  lemma DelayInWindow(attempt: nat, random: real)
    ensures 1_000 <= Delay(attempt, random) <= Cap(attempt) <= 1_000 * Pow2(attempt)
    ensures Cap(attempt) <= 30_000
    ensures attempt == 0 ==> Delay(attempt, random) == 1_000
  {
    CapGrows(attempt, attempt);
    ScaledFloor(Unit(random), Cap(attempt) - 999);
  }

  /** The window from end to end: zero and less give its start, one and more its end, all between a share of it. */
  lemma DelayEnds(attempt: nat, random: real)
    ensures random <= 0.0 ==> Delay(attempt, random) == 1_000
    ensures 0.999_999_999 <= random ==> Delay(attempt, random) == Cap(attempt)
    ensures 0.0 <= random <= 0.999_999_999 ==>
              Delay(attempt, random) == 1_000 + (random * (Cap(attempt) - 999) as real).Floor
  {
    CapGrows(attempt, attempt);
    var width := Cap(attempt) - 999;
    if 0.999_999_999 <= random { Almost(width); }
  }

  lemma Almost(width: int)
    requires 1 <= width <= 29_001
    ensures (0.999_999_999 * width as real).Floor == width - 1
  {
    assert 0.999_999_999 * width as real == width as real - 0.000_000_001 * width as real;
  }

  /** The whole window is used: each whole number of milliseconds in it comes from some random value below one. */
  lemma EveryDelayReachable(attempt: nat, delay: int)
    requires 1_000 <= delay <= Cap(attempt)
    ensures exists random :: 0.0 <= random < 1.0 && Delay(attempt, random) == delay
  {
    CapGrows(attempt, attempt);
    var width := Cap(attempt) - 999;
    var random := (delay - 1_000) as real / width as real;
    assert random * width as real == (delay - 1_000) as real;
    assert random <= 1.0 - 1.0 / width as real by {
      Quotient((delay - 1_000) as real, width as real);
    }
    assert 1.0 / width as real >= 1.0 / 29_001.0 by {
      Reciprocal(width as real, 29_001.0);
    }
    assert Unit(random) == random;
    assert Delay(attempt, random) == delay;
  }

  lemma Quotient(x: real, w: real)
    requires 0.0 <= x <= w - 1.0 && w >= 1.0
    ensures 0.0 <= x / w <= 1.0 - 1.0 / w
  {
    assert (w - 1.0) / w == 1.0 - 1.0 / w;
    assert (w - 1.0 - x) / w >= 0.0;
  }

  lemma Reciprocal(a: real, b: real)
    requires 0.0 < a <= b
    ensures 1.0 / a >= 1.0 / b
  {
    assert a / (a * b) == 1.0 / b;
    assert b / (a * b) == 1.0 / a;
    assert (b - a) / (a * b) >= 0.0;
  }

  lemma Scaled(u: real, v: real, w: real)
    requires u <= v && 0.0 <= w
    ensures u * w <= v * w
  {
    assert (v - u) * w >= 0.0;
  }

  lemma ScaledFloors(u: real, v: real, a: nat, b: nat)
    requires 0.0 <= u <= v && a <= b
    ensures (u * a as real).Floor <= (v * b as real).Floor
  {
    Scaled(u, v, a as real);
    Scaled(a as real, b as real, v);
    var x, y := u * a as real, v * b as real;
    assert x <= y;
    assert x.Floor as real <= x && y < (y.Floor + 1) as real;
  }

  lemma UnitMonotone(low: real, high: real)
    requires low <= high
    ensures 0.0 <= Unit(low) <= Unit(high) < 1.0
  {
  }

  lemma WithinMonotone(u: real, v: real, a: nat, b: nat)
    requires 0.0 <= u <= v && 0 <= a <= b
    ensures Within(u, a) <= Within(v, b)
  {
    ScaledFloors(u, v, a, b);
  }

  /** A larger random value, or a later attempt, never shortens the delay. */
  lemma DelayMonotone(a: nat, b: nat, low: real, high: real)
    requires a <= b && low <= high
    ensures Delay(a, low) <= Delay(b, high)
  {
    CapGrows(a, b);
    UnitMonotone(low, high);
    WithinMonotone(Unit(low), Unit(high), Cap(a) - 999, Cap(b) - 999);
  }
}
