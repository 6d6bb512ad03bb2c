/** The tiered reward rule of RewardPointsUtil: amounts are non-negative decimals (Java `double`,
    modelled exactly as `real`), points are whole numbers. */
module RewardPointsUtil {

  /** Java's `(int)` cast of a `double`: truncation toward zero. */
  function TruncateToInt(x: real): (r: int)
    ensures x >= 0.0 ==> r as real <= x < r as real + 1.0
    ensures x < 0.0 ==> r as real - 1.0 < x <= r as real
  {
    if x >= 0.0 then x.Floor else -((-x).Floor)
  }

  /** `calculateRewardPoints(amount)`: nothing up to 50, one point per whole unit between 50 and
      100, and above 100 fifty points plus two per whole unit over 100. */
  function CalculateRewardPoints(amount: real): (points: int)
    ensures points >= 0
    ensures amount <= 100.0 ==> points <= 50
    ensures amount > 100.0 ==> points >= 50
  {
    if amount <= 50.0 then 0
    else if amount <= 100.0 then TruncateToInt(amount - 50.0)
    else 50 + 2 * TruncateToInt(amount - 100.0)
  }

  /** Subtracting a whole number moves the floor by that number. */
  lemma FloorShift(x: real, n: int)
    ensures (x - n as real).Floor == x.Floor - n
  {
    var f := x.Floor;
    assert (f - n) as real <= x - n as real < (f - n) as real + 1.0;
  }

  /** An amount of at most 50 earns no points. */
  lemma LowTier(amount: real)
    requires amount <= 50.0
    ensures CalculateRewardPoints(amount) == 0
  {
  }

  /** Between 50 and 100 the points are the whole part of the amount less 50. */
  lemma MiddleTier(amount: real)
    requires 50.0 < amount <= 100.0
    ensures CalculateRewardPoints(amount) == amount.Floor - 50
  {
    FloorShift(amount, 50);
  }

  /** Above 100 the points are 50 plus twice the whole part of the amount over 100. */
  lemma HighTier(amount: real)
    requires amount > 100.0
    ensures CalculateRewardPoints(amount) == 50 + 2 * (amount.Floor - 100)
  {
    FloorShift(amount, 100);
  }

  /** The tiers meet without a jump: 50 scores 0, 100 scores 50, and (100, 101) still scores 50. */
  lemma TierBoundaries(amount: real)
    requires 100.0 < amount < 101.0
    ensures CalculateRewardPoints(50.0) == 0
    ensures CalculateRewardPoints(100.0) == 50
    ensures CalculateRewardPoints(amount) == 50
  {
    HighTier(amount);
  }

  /** Only whole units count: a non-negative amount scores what its whole part scores. */
  lemma WholeUnitsOnly(amount: real)
    requires amount >= 0.0
    ensures CalculateRewardPoints(amount) == CalculateRewardPoints(amount.Floor as real)
  {
    var w := amount.Floor as real;
    if amount <= 50.0 {
    } else if amount <= 100.0 {
      MiddleTier(amount);
      if w > 50.0 { MiddleTier(w); }
    } else {
      HighTier(amount);
      if w > 100.0 { HighTier(w); } else { MiddleTier(w); }
    }
  }

  /** Points never decrease as the amount grows. */
  lemma Monotonic(a: real, b: real)
    requires a <= b
    ensures CalculateRewardPoints(a) <= CalculateRewardPoints(b)
  {
    if a <= 50.0 {
    } else if a <= 100.0 {
      MiddleTier(a);
      if b <= 100.0 { MiddleTier(b); } else { HighTier(b); }
    } else {
      HighTier(a);
      HighTier(b);
    }
  }

  /** The points earned per whole unit of amount: 0 up to 50, 1 up to 100, 2 beyond. */
  function Rate(unit: nat): (r: nat)
    ensures r <= 2
  {
    if unit < 50 then 0 else if unit < 100 then 1 else 2
  }

  /** Points built up unit by unit, each unit `u` (from `u` to `u + 1`) earning `Rate(u)`. */
  function Accrued(n: nat): nat {
    if n == 0 then 0 else Accrued(n - 1) + Rate(n - 1)
  }

  /** On whole amounts the tiered formula is the unit-by-unit accrual. */
  lemma {:induction false} AccruedMatchesRule(n: nat)
    ensures CalculateRewardPoints(n as real) == Accrued(n)
  {
    if n == 0 {
    } else {
      AccruedMatchesRule(n - 1);
      var m := n - 1;
      if n <= 50 {
      } else if n <= 100 {
        MiddleTier(n as real);
        if m > 50 { MiddleTier(m as real); }
      } else {
        HighTier(n as real);
        if m > 100 { HighTier(m as real); } else { MiddleTier(m as real); }
      }
    }
  }

  /** The largest Java `int`. */
  const IntMax: int := 0x7FFF_FFFF

  /** The largest amount whose points fit a Java `int`. */
  const MaxAmount: real := 1073741898.0

  /** Up to MaxAmount the result is representable in the Java `int` the source returns. */
  lemma FitsInInt(amount: real)
    requires amount <= MaxAmount
    ensures CalculateRewardPoints(amount) <= IntMax
  {
    Monotonic(amount, MaxAmount);
    HighTier(MaxAmount);
  }

  /** The values the unit tests check: 40, 80, 120 and 130. */
  lemma WorkedValues()
    ensures CalculateRewardPoints(40.0) == 0
    ensures CalculateRewardPoints(80.0) == 30
    ensures CalculateRewardPoints(120.0) == 90
    ensures CalculateRewardPoints(130.0) == 110
  {
  }
}
