/** The limit of the random wait between attempts, in the 64-bit arithmetic it is computed in. */
module Backoff {

  const MILLISECOND := 1_000_000
  const BASE := 100 * MILLISECOND
  const CAP := 2000 * MILLISECOND
  const TWO_63 := 0x8000_0000_0000_0000
  const TWO_64 := 0x1_0000_0000_0000_0000

  function Pow2(n: nat): nat {
    if n == 0 then 1 else 2 * Pow2(n - 1)
  }

  /** The value of a signed 64-bit integer. */
  function Int64(x: int): int {
    (x + TWO_63) % TWO_64 - TWO_63
  }

  /** The shift and the product both wrap around. */
  function Limit(attempt: nat): int {
    var maxBackoff := Int64(BASE * Int64(Pow2(attempt)));
    if maxBackoff > CAP then CAP else maxBackoff
  }

  lemma {:induction false} Pow2Grows(m: nat, n: nat)
    requires m <= n
    ensures Pow2(m) <= Pow2(n)
    decreases n - m
  {
    if m < n {
      Pow2Grows(m, n - 1);
    }
  }

  lemma {:induction false} Pow2Splits(m: nat, n: nat)
    ensures Pow2(m + n) == Pow2(m) * Pow2(n)
  {
    if n > 0 {
      Pow2Splits(m, n - 1);
    }
  }

  lemma NoWrap(x: int)
    requires -TWO_63 <= x < TWO_63
    ensures Int64(x) == x
  {}

  lemma {:induction false} Shifted(x: int, k: int)
    ensures Int64(x + k * TWO_64) == Int64(x)
    decreases if k < 0 then -k else k
  {
    if k > 0 {
      Shifted(x, k - 1);
      ShiftedOnce(x + (k - 1) * TWO_64);
    } else if k < 0 {
      Shifted(x, k + 1);
      ShiftedOnce(x + k * TWO_64);
    }
  }

  lemma ShiftedOnce(x: int)
    ensures Int64(x + TWO_64) == Int64(x)
  {}

  /** The limit before the cap, the wrap of the shift folded into the wrap of the product. */
  function Wrapped(attempt: nat): int { Int64(BASE * Pow2(attempt)) }

  lemma WrapsOnce(attempt: nat)
    ensures Int64(BASE * Int64(Pow2(attempt))) == Wrapped(attempt)
  {
    var x := Pow2(attempt);
    var k := (x + TWO_63) / TWO_64;
    assert Int64(x) == x - k * TWO_64;
    assert BASE * Int64(x) == BASE * x + (-BASE * k) * TWO_64;
    Shifted(BASE * x, -BASE * k);
  }

  /** One attempt later the product is twice as large, wrapped again. */
  lemma Twice(attempt: nat)
    ensures Wrapped(attempt + 1) == Int64(2 * Wrapped(attempt))
  {
    var x := BASE * Pow2(attempt);
    var k := (x + TWO_63) / TWO_64;
    assert Int64(x) == x - k * TWO_64;
    assert BASE * Pow2(attempt + 1) == 2 * Int64(x) + (2 * k) * TWO_64;
    Shifted(2 * Int64(x), 2 * k);
  }

  lemma Pow2Of36()
    ensures Pow2(36) == 0x10_0000_0000
  {
    assert Pow2(3) == 8;
    Pow2Splits(3, 3);
    Pow2Splits(6, 3);
    Pow2Splits(9, 9);
    Pow2Splits(18, 18);
  }

  lemma SmallPowers()
    ensures Pow2(0) == 1 && Pow2(1) == 2 && Pow2(4) == 16 && Pow2(5) == 32
  {
    assert Pow2(2) == 4;
  }

  /** Up to attempt 36 nothing wraps around: the limit is the product, capped. */
  lemma NothingWraps(attempt: nat)
    requires attempt <= 36
    ensures Limit(attempt) == if BASE * Pow2(attempt) > CAP then CAP else BASE * Pow2(attempt)
  {
    hide Int64, Pow2;
    SmallPowers();
    Pow2Grows(0, attempt);
    Pow2Grows(attempt, 36);
    Pow2Of36();
    NoWrap(Pow2(attempt));
    NoWrap(BASE * Pow2(attempt));
  }

  /** The wait doubles from 100 ms and stops at 2 s, up to attempt 36. */
  lemma DoublesUpToCap(attempt: nat)
    requires attempt <= 36
    ensures Limit(attempt) == if attempt <= 4 then 100_000_000 * Pow2(attempt) else 2_000_000_000
    ensures 0 < Limit(attempt) <= CAP
  {
    hide Limit, Pow2;
    NothingWraps(attempt);
    SmallPowers();
    Pow2Grows(0, attempt);
    if attempt <= 4 {
      Pow2Grows(attempt, 4);
    } else {
      Pow2Grows(5, attempt);
    }
  }

  lemma WrappedAt36()
    ensures Wrapped(36) == 6871947673600000000
  {
    hide Pow2;
    Pow2Of36();
  }

  lemma From36To46()
    ensures forall a | 37 <= a <= 46 :: 0 < Wrapped(a) <==> a in {38, 44, 46}
    ensures Wrapped(46) == 8664925683060834304
  {
    hide Wrapped;
    WrappedAt36();
    Twice(36);
    assert Wrapped(37) == -4702848726509551616;
    Twice(37);
    assert Wrapped(38) == 9041046620690448384;
    Twice(38);
    assert Wrapped(39) == -364650832328654848;
    Twice(39);
    assert Wrapped(40) == -729301664657309696;
    Twice(40);
    assert Wrapped(41) == -1458603329314619392;
    Twice(41);
    assert Wrapped(42) == -2917206658629238784;
    Twice(42);
    assert Wrapped(43) == -5834413317258477568;
    Twice(43);
    assert Wrapped(44) == 6777917439192596480;
    Twice(44);
    assert Wrapped(45) == -4890909195324358656;
    Twice(45);
    assert Wrapped(46) == 8664925683060834304;
  }

  lemma From46To56()
    ensures forall a | 47 <= a <= 56 :: 0 < Wrapped(a) <==> a in {51, 52, 53, 54}
    ensures Wrapped(56) == 0
  {
    hide Wrapped;
    From36To46();
    Twice(46);
    assert Wrapped(47) == -1116892707587883008;
    Twice(47);
    assert Wrapped(48) == -2233785415175766016;
    Twice(48);
    assert Wrapped(49) == -4467570830351532032;
    Twice(49);
    assert Wrapped(50) == -8935141660703064064;
    Twice(50);
    assert Wrapped(51) == 576460752303423488;
    Twice(51);
    assert Wrapped(52) == 1152921504606846976;
    Twice(52);
    assert Wrapped(53) == 2305843009213693952;
    Twice(53);
    assert Wrapped(54) == 4611686018427387904;
    Twice(54);
    assert Wrapped(55) == -9223372036854775808;
    Twice(55);
    assert Wrapped(56) == 0;
  }

  lemma {:induction false} From56On(a: nat)
    requires a >= 56
    ensures Wrapped(a) == 0
  {
    From46To56();
    if a > 56 {
      From56On(a - 1);
      Twice(a - 1);
    }
  }

  /**
   When the limit can be drawn from. The draw needs a positive limit and
   panics on any other; this says exactly which attempts give one, beyond 36
   by accident of where the product's bits fall.
   */
  lemma PositiveExactly(attempt: nat)
    ensures 0 < Limit(attempt) <==> attempt <= 36 || attempt in {38, 44, 46, 51, 52, 53, 54}
    ensures Limit(attempt) <= 2_000_000_000
  {
    hide Wrapped, Pow2, Int64;
    WrapsOnce(attempt);
    if attempt <= 36 {
      DoublesUpToCap(attempt);
    } else if attempt <= 46 {
      From36To46();
    } else if attempt <= 56 {
      From46To56();
    } else {
      From56On(attempt);
    }
  }

  /** With the three attempts the balancer makes, a wait is drawn from below 100 ms or below 200 ms. */
  lemma WaitsOfThreeAttempts(attempt: nat)
    requires attempt < 2
    ensures Limit(attempt) == (attempt + 1) * 100_000_000
  {
    hide Limit, Pow2;
    DoublesUpToCap(attempt);
    SmallPowers();
  }
}
