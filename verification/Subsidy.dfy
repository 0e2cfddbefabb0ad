/**
 The halving schedule, computed once per indexed block (explorer/elements.go) and once
 for the network summary (explorer/telemetry.go), over 64-bit machine integers.
 */
module Subsidy {
  import opened Common

  function Pow2(n: nat): (p: nat)
    ensures p > 0
  {
    if n == 0 then 1 else 2 * Pow2(n - 1)
  }

  function Quotient(x: nat, d: nat): nat
    requires d > 0
  {
    NotNegative(x, d, x / d, x % d);
    x / d
  }

  lemma NotNegative(x: nat, d: nat, q: int, r: int)
    requires d > 0 && x == q * d + r && r < d
    ensures q >= 0
  {
    if q < 0 {
      ProductMonotone(q, -1, d);
    }
  }

  /** x >> n on an unsigned 64-bit word. */
  function ShiftRight(x: nat, n: nat): nat {
    Quotient(x, Pow2(n))
  }

  function BlockSubsidy(initial: nat, interval: nat, height: int): int {
    if height <= 0 || interval == 0 then 0
    else
      var era := height / interval;
      if era >= 64 then 0 else WrapInt64(ShiftRight(initial, era))
  }

  datatype Economics = Economics(
    currentReward: nat,
    era: nat,
    nextHalvingHeight: nat,
    blocksUntilHalving: nat,
    secondsUntilHalving: nat)

  /** The interval is never zero: the inventory that carries it is refused otherwise. */
  function EconomicsAt(initial: nat, interval: nat, blockSeconds: nat, height: int): Economics
    requires interval > 0
  {
    var h := if height > 0 then height else 0;
    var era := h / interval;
    var reward := if era < 64 then ShiftRight(initial, era) else 0;
    var next := ((era + 1) * interval) % TWO_64;
    var remaining := (next - h) % TWO_64;
    Economics(reward, era, next, remaining, (remaining * blockSeconds) % TWO_64)
  }

  lemma HalvedFits(x: nat, n: nat)
    requires n > 0 && x < TWO_64
    ensures ShiftRight(x, n) < TWO_63
  {
    var p := Pow2(n - 1);
    assert Pow2(n) == 2 * p;
    DivideAgain(x, 2, p);
    assert x / 2 < TWO_63;
    QuotientSmaller(x / 2, p);
  }

  // ----- products and quotients, one step at a time

  lemma ProductNonNegative(a: nat, b: nat)
    ensures a * b >= 0
  {
  }

  lemma ProductMonotone(a: int, b: int, c: nat)
    requires a <= b
    ensures a * c <= b * c
  {
    ProductNonNegative(b - a, c);
    assert (b - a) * c == b * c - a * c;
  }

  lemma QuotientSmaller(x: nat, d: nat)
    requires d > 0
    ensures x / d <= x
  {
    QuotientTimes(x, d, x / d);
  }

  lemma QuotientTimes(x: nat, d: nat, q: nat)
    requires d > 0 && q * d <= x
    ensures q <= x
  {
    ProductMonotone(1, d, q);
  }

  /** Dividing by a product is dividing twice. */
  lemma DivideAgain(x: nat, a: nat, b: nat)
    requires a > 0 && b > 0
    ensures a * b > 0 && x / (a * b) == (x / a) / b
  {
    var q, r := x / a, x % a;
    var q2, r2 := q / b, q % b;
    Regroup(x, a, b, q, r, q2, r2);
    QuotientUnique(x, a * b, q2, r2 * a + r);
  }

  lemma Regroup(x: int, a: int, b: int, q: int, r: int, q2: int, r2: int)
    requires a > 0 && b > 0 && 0 <= r < a && 0 <= r2 < b
    requires x == q * a + r && q == q2 * b + r2
    ensures a * b > 0 && x == q2 * (a * b) + (r2 * a + r) && 0 <= r2 * a + r < a * b
  {
    assert (q2 * b + r2) * a == q2 * (a * b) + r2 * a;
    ProductMonotone(r2 + 1, b, a);
    assert (r2 + 1) * a == r2 * a + a;
    ProductNonNegative(r2, a);
  }

  lemma QuotientUnique(x: int, d: int, q: int, r: int)
    requires d > 0 && 0 <= r < d && x == q * d + r
    ensures x / d == q && x % d == r
  {
    SmallMultiple(x / d - q, d, r - x % d);
  }

  lemma SmallMultiple(e: int, d: int, rest: int)
    requires d > 0 && -d < rest < d && e * d == rest
    ensures e == 0
  {
    if e > 0 { ProductMonotone(1, e, d); }
    if e < 0 { ProductMonotone(e, -1, d); }
  }

  /**
   The two computations agree above genesis exactly when the reward survives the signed
   conversion: the configured reward is below 2^63, or one halving has already happened.
   */
  lemma SubsidyAgreesWithEconomics(initial: nat, interval: nat, blockSeconds: nat, height: int)
    requires initial < TWO_64 && 0 < interval < TWO_64 && 0 < height < TWO_63
    ensures BlockSubsidy(initial, interval, height) ==
            EconomicsAt(initial, interval, blockSeconds, height).currentReward
            <==> initial < TWO_63 || interval <= height
  {
    var era := height / interval;
    if interval <= height {
      assert era >= 1 by {
        assert height == era * interval + height % interval;
        assert era <= 0 ==> era * interval <= 0;
      }
      HalvedFits(initial, era);
    } else {
      QuotientUnique(height, interval, 0, height);
      assert ShiftRight(initial, 0) == initial;
    }
  }

  // ----- the schedule by its halvings

  lemma PowersOfTwo()
    ensures Pow2(63) == TWO_63
  {
    assert Pow2(8) == 0x100;
    assert Pow2(16) == 0x1_0000;
    assert Pow2(24) == 0x100_0000;
    assert Pow2(32) == 0x1_0000_0000;
    assert Pow2(40) == 0x100_0000_0000;
    assert Pow2(48) == 0x1_0000_0000_0000;
    assert Pow2(56) == 0x100_0000_0000_0000;
  }

  lemma ShiftHalves(x: nat, n: nat)
    ensures ShiftRight(x, n + 1) == ShiftRight(x, n) / 2
  {
    var p := Pow2(n);
    assert Pow2(n + 1) == p * 2;
    DivideAgain(x, p, 2);
  }

  lemma ShiftedOut(x: nat)
    requires x < TWO_63
    ensures ShiftRight(x, 63) == 0
  {
    PowersOfTwo();
    QuotientUnique(x, TWO_63, 0, x);
  }

  lemma NextEra(height: nat, interval: nat)
    requires interval > 0
    ensures (height + interval) / interval == height / interval + 1
    ensures height < interval ==> height / interval == 0
  {
    var e := height / interval;
    assert (e + 1) * interval == e * interval + interval;
    QuotientUnique(height + interval, interval, e + 1, height % interval);
    if height < interval { QuotientUnique(height, interval, 0, height); }
  }

  /**
   The indexed subsidy is the configured one up to the first halving height, and one interval later it is half of
   what it was, rounded down, for ever; genesis has none.
   */
  lemma SubsidyHalves(initial: nat, interval: nat, height: int)
    requires initial < TWO_63 && interval > 0
    ensures height <= 0 ==> BlockSubsidy(initial, interval, height) == 0
    ensures 0 < height < interval ==> BlockSubsidy(initial, interval, height) == initial
    ensures height > 0 ==>
              BlockSubsidy(initial, interval, height + interval) == BlockSubsidy(initial, interval, height) / 2
  {
    if height > 0 {
      SubsidyIsReward(initial, interval, height);
      SubsidyIsReward(initial, interval, height + interval);
      NextEra(height, interval);
      assert ShiftRight(initial, 0) == initial;
      ShiftHalves(initial, height / interval);
      ShiftedOut(initial);
    }
  }

  /** So does the reported reward, from height 0 on; and the reported era is the number of halvings so far. */
  lemma RewardHalvesToo(initial: nat, interval: nat, blockSeconds: nat, height: nat)
    requires initial < TWO_63 && interval > 0
    ensures var e, later := EconomicsAt(initial, interval, blockSeconds, height),
                            EconomicsAt(initial, interval, blockSeconds, height + interval);
            && (height < interval ==> e.currentReward == initial && e.era == 0)
            && later.currentReward == e.currentReward / 2 && later.era == e.era + 1
            && e.secondsUntilHalving == (e.blocksUntilHalving * blockSeconds) % TWO_64
  {
    NextEra(height, interval);
    assert ShiftRight(initial, 0) == initial;
    ShiftHalves(initial, height / interval);
    ShiftedOut(initial);
  }

  /**
   The announced halving height is the least multiple of the interval above the height
   exactly when that multiple still fits in 64 bits; then the countdown is its distance.
   */
  lemma NextHalvingIsLeastMultiple(initial: nat, interval: nat, blockSeconds: nat, height: int)
    requires 0 < interval < TWO_64 && 0 <= height < TWO_63
    ensures var e := EconomicsAt(initial, interval, blockSeconds, height);
            LeastMultipleAbove(e.nextHalvingHeight, interval, height) <==> (e.era + 1) * interval < TWO_64
    ensures var e := EconomicsAt(initial, interval, blockSeconds, height);
            (e.era + 1) * interval < TWO_64 ==> e.blocksUntilHalving == e.nextHalvingHeight - height
  {
    var e := EconomicsAt(initial, interval, blockSeconds, height);
    var next := (e.era + 1) * interval;
    NextMultiple(e.era, interval, height);
    if next < TWO_64 {
      QuotientUnique(next, TWO_64, 0, next);
      QuotientUnique(next - height, TWO_64, 0, next - height);
    } else {
      QuotientUnique(next, TWO_64, 1, next - TWO_64);
    }
  }

  lemma NextMultiple(era: nat, interval: nat, height: nat)
    requires interval > 0 && era == height / interval
    ensures height < (era + 1) * interval <= height + interval
    ensures LeastMultipleAbove((era + 1) * interval, interval, height)
  {
    var next := (era + 1) * interval;
    assert next == era * interval + interval;
    assert height == era * interval + height % interval;
    assert IsMultiple(next, interval);
    forall m | IsMultiple(m, interval) && m > height
      ensures next <= m
    {
      var q :| m == q * interval;
      if q <= era {
        ProductMonotone(q, era, interval);
        assert false;
      }
      ProductMonotone(era + 1, q, interval);
    }
  }

  ghost predicate LeastMultipleAbove(next: int, interval: nat, height: int) {
    next > height && IsMultiple(next, interval)
    && forall m :: IsMultiple(m, interval) && m > height ==> next <= m
  }

  ghost predicate IsMultiple(m: int, interval: nat) {
    exists q: int :: m == q * interval
  }

  /** Everything issued as subsidy at heights 1..n. */
  ghost function TotalSubsidy(initial: nat, interval: nat, n: nat): int {
    if n == 0 then 0 else TotalSubsidy(initial, interval, n - 1) + BlockSubsidy(initial, interval, n)
  }

  /** The reward of an era as a mathematical quotient; it at least halves from era to era. */
  ghost function Reward(initial: nat, era: nat): nat {
    if era >= 64 then 0 else ShiftRight(initial, era)
  }

  lemma RewardHalves(initial: nat, era: nat)
    ensures 2 * Reward(initial, era + 1) <= Reward(initial, era)
  {
    if era < 63 {
      var p := Pow2(era);
      assert Pow2(era + 1) == p * 2;
      DivideAgain(initial, p, 2);
    }
  }

  lemma SubsidyIsReward(initial: nat, interval: nat, height: int)
    requires initial < TWO_63 && interval > 0 && height > 0
    ensures BlockSubsidy(initial, interval, height) == Reward(initial, height / interval)
  {
    if height / interval < 64 {
      QuotientSmaller(initial, Pow2(height / interval));
    }
  }

  /** What is issued, plus the rest of this era, plus one more era at this reward. */
  ghost function Committed(issued: int, interval: nat, done: nat, reward: nat): int {
    issued + (interval - 1 - done) * reward + interval * reward
  }

  lemma CommittedSameEra(issued: int, interval: nat, done: nat, reward: nat)
    ensures Committed(issued + reward, interval, done + 1, reward) == Committed(issued, interval, done, reward)
  {
    assert (interval - 1 - done) * reward == (interval - 1 - (done + 1)) * reward + reward;
  }

  lemma CommittedNextEra(issued: int, interval: nat, reward: nat, next: nat)
    requires interval > 0 && 2 * next <= reward
    ensures Committed(issued + next, interval, 0, next) <= Committed(issued, interval, interval - 1, reward)
  {
    assert next + (interval - 1) * next + interval * next == (2 * next) * interval;
    ProductMonotone(2 * next, reward, interval);
  }

  /** Counting up by one moves within an era, or to the start of the next. */
  lemma EraStep(n: nat, interval: nat)
    requires interval > 0
    ensures n % interval + 1 < interval ==>
              (n + 1) / interval == n / interval && (n + 1) % interval == n % interval + 1
    ensures n % interval + 1 == interval ==>
              (n + 1) / interval == n / interval + 1 && (n + 1) % interval == 0
  {
    var e, j := n / interval, n % interval;
    assert n == e * interval + j;
    if j + 1 < interval {
      QuotientUnique(n + 1, interval, e, j + 1);
    } else {
      assert (e + 1) * interval == e * interval + interval;
      QuotientUnique(n + 1, interval, e + 1, 0);
    }
  }

  ghost function CommittedAt(initial: nat, interval: nat, n: nat): int
    requires interval > 0
  {
    Committed(TotalSubsidy(initial, interval, n), interval, n % interval, Reward(initial, n / interval))
  }

  lemma CommittedStep(initial: nat, interval: nat, n: nat)
    requires initial < TWO_63 && interval > 0
    ensures CommittedAt(initial, interval, n + 1) <= CommittedAt(initial, interval, n)
  {
    var e, j, issued := n / interval, n % interval, TotalSubsidy(initial, interval, n);
    EraStep(n, interval);
    SubsidyIsReward(initial, interval, n + 1);
    if j + 1 < interval {
      CommittedSameEra(issued, interval, j, Reward(initial, e));
    } else {
      RewardHalves(initial, e);
      CommittedNextEra(issued, interval, Reward(initial, e), Reward(initial, e + 1));
    }
  }

  lemma CommittedStart(initial: nat, interval: nat)
    requires interval > 0
    ensures CommittedAt(initial, interval, 0) == 2 * initial * interval - initial
  {
    assert ShiftRight(initial, 0) == initial;
    QuotientUnique(0, interval, 0, 0);
    assert (interval - 1) * initial + interval * initial == 2 * initial * interval - initial;
  }

  lemma {:induction false} CommittedBounded(initial: nat, interval: nat, n: nat)
    requires initial < TWO_63 && interval > 0
    ensures CommittedAt(initial, interval, n) <= CommittedAt(initial, interval, 0)
  {
    if n > 0 {
      CommittedBounded(initial, interval, n - 1);
      CommittedStep(initial, interval, n - 1);
    }
  }

  lemma IssuedWithinCommitted(issued: int, interval: nat, done: nat, reward: nat)
    requires done < interval
    ensures issued <= Committed(issued, interval, done, reward)
  {
    ProductNonNegative(interval - 1 - done, reward);
    ProductNonNegative(interval, reward);
  }

  /** The total ever issued stays below twice the first era, for every height. */
  lemma SupplyIsCapped(initial: nat, interval: nat, n: nat)
    requires 0 < initial < TWO_63 && interval > 0
    ensures TotalSubsidy(initial, interval, n) < 2 * initial * interval
  {
    CommittedStart(initial, interval);
    CommittedBounded(initial, interval, n);
    IssuedWithinCommitted(TotalSubsidy(initial, interval, n), interval, n % interval, Reward(initial, n / interval));
  }
}
