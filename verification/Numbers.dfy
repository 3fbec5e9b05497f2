/** Integers as JavaScript holds them: exact up to 2^53, beyond that the nearest value with a 53-bit significand. */
module Numbers {
  const EXACT: int := 0x20_0000_0000_0000

  /**
   Rounds a value of at least 2^53, ties to even, halving it until the last bit is the one to drop; `sticky` records
   whether a dropped bit was set.
   */
  function Rounded(m: nat, sticky: bool): nat {
    if m >= 2 * EXACT then 2 * Rounded(m / 2, sticky || m % 2 == 1)
    else if m % 2 == 0 then m
    else if sticky || m % 4 == 3 then m + 1
    else m - 1
  }

  /** The number an integer literal denotes. */
  function Nearest(n: int): int {
    if -EXACT <= n <= EXACT then n
    else if n > 0 then Rounded(n, false)
    else 0 - Rounded(-n, false)
  }

  /** What JavaScript can hold, as far as whole numbers are concerned. */
  predicate Held(r: real) { r.Floor as real == r ==> Nearest(r.Floor) == r.Floor }

  type Number = r: real | Held(r)

  lemma {:induction false} RoundedHeld(m: nat, sticky: bool)
    requires m >= EXACT
    ensures Rounded(m, sticky) >= EXACT
    ensures Rounded(Rounded(m, sticky), false) == Rounded(m, sticky)
    decreases m
  {
    if m >= 2 * EXACT {
      RoundedHeld(m / 2, sticky || m % 2 == 1);
    } else {
      assert Rounded(2 * EXACT, false) == 2 * Rounded(EXACT, false);
    }
  }

  /** A literal denotes a number that denotes itself. */
  lemma NearestHeld(n: int)
    ensures Nearest(Nearest(n)) == Nearest(n)
    ensures Held(Nearest(n) as real)
  {
    if n > EXACT { RoundedHeld(n, false); }
    if n < -EXACT { RoundedHeld(-n, false); }
    assert (Nearest(n) as real).Floor == Nearest(n);
  }

  function Distance(a: real, b: real): real { if a < b then b - a else a - b }

  /** The rounding of `m + f` is as close to it as any number that can be held. */
  lemma {:induction false} RoundedIsNearest(m: nat, f: real, x: nat)
    requires m >= EXACT && 0.0 <= f < 1.0 && Nearest(x) == x
    ensures Distance(m as real + f, Rounded(m, f > 0.0) as real) <= Distance(m as real + f, x as real)
    decreases m
  {
    if m < 2 * EXACT {
      EvenIsNearest(m, f, if x < EXACT then EXACT else if x >= 2 * EXACT then 2 * EXACT else x);
    } else {
      var half, f' := m / 2, ((m % 2) as real + f) / 2.0;
      var y := if x < 2 * EXACT then EXACT else x / 2;
      assert (m as real + f) / 2.0 == half as real + f';
      assert f' > 0.0 <==> f > 0.0 || m % 2 == 1;
      if x >= 2 * EXACT { HalfHeld(x); }
      RoundedIsNearest(half, f', y);
    }
  }

  lemma HalfHeld(x: nat)
    requires Nearest(x) == x && x >= 2 * EXACT
    ensures x % 2 == 0 && Nearest(x / 2) == x / 2
  {
  }

  lemma EvenIsNearest(m: nat, f: real, x: nat)
    requires EXACT <= m < 2 * EXACT && 0.0 <= f < 1.0 && x % 2 == 0
    ensures Distance(m as real + f, Rounded(m, f > 0.0) as real) <= Distance(m as real + f, x as real)
  {
    if m % 2 == 0 {
      Apart(m, f, m, x);
    } else {
      Apart(m, f, if f > 0.0 || m % 4 == 3 then m + 1 else m - 1, x);
    }
  }

  /** Among the even numbers, those next to `m + f` are the closest. */
  lemma Apart(m: nat, f: real, r: nat, x: nat)
    requires 0.0 <= f < 1.0 && x % 2 == 0
    requires if m % 2 == 0 then r == m else r == m + 1 || (r == m - 1 && f == 0.0)
    ensures Distance(m as real + f, r as real) <= Distance(m as real + f, x as real)
  {
    if x < m {
      assert x as real <= if m % 2 == 0 then m as real - 2.0 else m as real - 1.0;
    } else if x > m {
      assert x as real >= if m % 2 == 0 then m as real + 2.0 else m as real + 1.0;
    }
  }

  function Gap(a: int, b: int): int { if a < b then b - a else a - b }

  /** A literal denotes a number as close to it as any that can be held. */
  lemma NearestIsNearest(n: int, x: int)
    requires Nearest(x) == x
    ensures Gap(n, Nearest(n)) <= Gap(n, x)
  {
    if n > EXACT { RoundedIsNearest(n, 0.0, if x < 0 then 0 else x); }
    if n < -EXACT { RoundedIsNearest(-n, 0.0, if x > 0 then 0 else -x); }
  }

  /** Halfway between two numbers that can be held, the one with the even significand is taken, at every scale. */
  lemma TiesToEven(n: int)
    ensures 0x20_0000_0000_0000 < n < 0x40_0000_0000_0000 && n % 2 == 1 ==>
              Nearest(n) % 4 == 0 && Gap(n, Nearest(n)) == 1
    ensures n >= 0x20_0000_0000_0000 ==> Nearest(2 * n) == 2 * Nearest(n)
    ensures Nearest(-n) == -Nearest(n)
  {
    if n >= EXACT {
      assert 2 * n / 2 == n && 2 * n % 2 == 0;
      assert Rounded(2 * n, false) == 2 * Rounded(n, false);
      assert n == EXACT ==> Rounded(n, false) == n;
    }
  }

  /** The first whole number that JavaScript cannot hold. */
  lemma FirstRounded()
    ensures Nearest(0x20_0000_0000_0001) == 0x20_0000_0000_0000
  {
    assert Rounded(EXACT + 1, false) == EXACT;
  }
}
