/** The pure parts of the pallet: payout-policy validation, spender
    classification and the percentage arithmetic of the payout planner. */
module Policy {
  import opened Types

  /** The number of installments a policy asks for (`as u8` of the enum). */
  function NumPayouts(n: NumOfPeriodicPayouts): (r: nat)
    ensures r in {5, 10, 20, 50}
    ensures r > 0 && 100 % r == 0
  {
    match n
    case Five => 5
    case Ten => 10
    case Twenty => 20
    case Fifty => 50
  }

  /** `100 / number_of_payout_instances`: the percentage of the periodic pool
      that each installment pays. Every permitted count divides 100, so the
      installments together take exactly the whole pool. */
  function InstallmentPct(n: NumOfPeriodicPayouts): (r: nat)
    ensures r * NumPayouts(n) == 100
  {
    100 / NumPayouts(n)
  }

  function PercentSum(pp: PeriodicPayoutPercentage): nat
  {
    pp.upfront + pp.afterFullyComplete + pp.periodic
  }

  /** The shape every stored policy has: an instant payout, or percentages
      adding up to 100 and a positive period. */
  predicate ValidPolicy(pt: PayoutType)
  {
    match pt
    case Instant => true
    case Periodic(pp) => PercentSum(pp) == 100 && pp.paymentEachNBlocks > 0
  }

  /** `check_payout_type`: the sum is checked before the period. */
  function CheckPayoutType(pt: PayoutType): (r: Outcome<Error>)
    ensures r.Pass? <==> ValidPolicy(pt)
    ensures pt.Instant? ==> r.Pass?
    ensures pt.Periodic? && PercentSum(pt.payout) != 100 ==> r == Fail(PayoutPercentagesMustSumTo100)
    ensures pt.Periodic? && PercentSum(pt.payout) == 100 && pt.payout.paymentEachNBlocks == 0 ==>
      r == Fail(PaymentEachNBlocksMustBeGreaterThanZero)
  {
    match pt
    case Periodic(pp) =>
      if PercentSum(pp) != 100 then Fail(PayoutPercentagesMustSumTo100)
      else if pp.paymentEachNBlocks <= 0 then Fail(PaymentEachNBlocksMustBeGreaterThanZero)
      else Pass
    case Instant => Pass
  }

  /** The validation sum as written: three `u8` percentages added in 8-bit
      arithmetic, which wraps modulo 256 when overflow checks are off. */
  function WrappingSumU8(pp: PeriodicPayoutPercentage): (r: nat)
    requires pp.upfront < 256 && pp.periodic < 256 && pp.afterFullyComplete < 256
    ensures r < 256
    ensures PercentSum(pp) < 256 ==> r == PercentSum(pp)
  {
    ((pp.upfront + pp.afterFullyComplete) % 256 + pp.periodic) % 256
  }

  /** `check_payout_type` with the wrapping `u8` sum. */
  function CheckPayoutTypeAsWritten(pt: PayoutType): (r: Outcome<Error>)
    requires pt.Periodic? ==>
      pt.payout.upfront < 256 && pt.payout.periodic < 256 && pt.payout.afterFullyComplete < 256
    ensures pt.Instant? ==> r.Pass?
    ensures pt.Periodic? ==>
      (r.Pass? <==> WrappingSumU8(pt.payout) == 100 && pt.payout.paymentEachNBlocks > 0)
  {
    match pt
    case Periodic(pp) =>
      if WrappingSumU8(pp) != 100 then Fail(PayoutPercentagesMustSumTo100)
      else if pp.paymentEachNBlocks <= 0 then Fail(PaymentEachNBlocksMustBeGreaterThanZero)
      else Pass
    case Instant => Pass
  }

  /** Without a wrap the two checks agree. */
  lemma AsWrittenAgreesBelow256(pt: PayoutType)
    requires pt.Periodic? ==> PercentSum(pt.payout) < 256
    ensures CheckPayoutTypeAsWritten(pt) == CheckPayoutType(pt)
  {
    if pt.Periodic? {
      assert WrappingSumU8(pt.payout) == PercentSum(pt.payout);
    }
  }

  /** Percentages of 200, 100 and 56 (356 in all) wrap to 100 and pass the
      check as written, though they do not add up to 100. */
  lemma WrappedSumAcceptsOverdrawnPolicy()
    ensures var pt := Periodic(PeriodicPayoutPercentage(200, 56, 100, Ten, 10));
      && PercentSum(pt.payout) == 356
      && CheckPayoutTypeAsWritten(pt) == Pass
      && !ValidPolicy(pt)
      && CheckPayoutType(pt) == Fail(PayoutPercentagesMustSumTo100)
  {
    var pp := PeriodicPayoutPercentage(200, 56, 100, Ten, 10);
    assert WrappingSumU8(pp) == 100;
  }

  /** The spender category of a proposal: small by its usd price, else medium
      by its raw amount, else big. */
  function ClassifySpender(cfg: Config, asset: AssetId, amount: Balance): (r: SpenderType)
    ensures r == SmallSpender <==> cfg.usdPrice(asset, amount) <= cfg.smallSpenderThreshold
    ensures r == MediumSpender <==>
      cfg.usdPrice(asset, amount) > cfg.smallSpenderThreshold && amount <= cfg.mediumSpenderThreshold
    ensures r == BigSpender <==>
      cfg.usdPrice(asset, amount) > cfg.smallSpenderThreshold && amount > cfg.mediumSpenderThreshold
  {
    if cfg.usdPrice(asset, amount) <= cfg.smallSpenderThreshold then SmallSpender
    else if amount <= cfg.mediumSpenderThreshold then MediumSpender
    else BigSpender
  }

  function Rank(s: SpenderType): nat
  {
    match s
    case SmallSpender => 0
    case MediumSpender => 1
    case BigSpender => 2
  }

  /** A larger amount never lands in a smaller category, provided its usd price is not lower. */
  lemma ClassifyMonotone(cfg: Config, asset: AssetId, a: Balance, b: Balance)
    requires a <= b && cfg.usdPrice(asset, a) <= cfg.usdPrice(asset, b)
    ensures Rank(ClassifySpender(cfg, asset, a)) <= Rank(ClassifySpender(cfg, asset, b))
  {
  }

  // ---------------------------------------------------------------------------
  // Percentage arithmetic. `pct(p, x)` is `Percent::from_percent(p) * x`; its
  // rounding is left abstract, and exactness is stated as a hypothesis.

  /** What an exact or a rounding-down percentage gives: `p * x / 100` when
      exact, no more than that when it rounds down. */
  lemma PctFacts(pct: (nat, nat) -> nat, p: nat, x: nat)
    ensures ExactAt(pct, p, x) ==> (p * x) % 100 == 0 && pct(p, x) == p * x / 100
    ensures RoundsDownAt(pct, p, x) ==> pct(p, x) <= p * x / 100
  {
    var y := p * x;
    var r := pct(p, x);
    assert y == 100 * (y / 100) + y % 100;
  }

  /** The upfront share: `upfront` percent of the amount. */
  function UpfrontAmount(pct: (nat, nat) -> nat, pp: PeriodicPayoutPercentage, amount: Balance): (r: Balance)
    ensures ExactAt(pct, pp.upfront, amount) ==> r == pp.upfront * amount / 100
    ensures RoundsDownAt(pct, pp.upfront, amount) ==> r <= pp.upfront * amount / 100
  {
    PctFacts(pct, pp.upfront, amount);
    pct(pp.upfront, amount)
  }

  /** The periodic pool: `periodic` percent of the amount. */
  function PeriodicAmount(pct: (nat, nat) -> nat, pp: PeriodicPayoutPercentage, amount: Balance): (r: Balance)
    ensures ExactAt(pct, pp.periodic, amount) ==> r == pp.periodic * amount / 100
    ensures RoundsDownAt(pct, pp.periodic, amount) ==> r <= pp.periodic * amount / 100
  {
    PctFacts(pct, pp.periodic, amount);
    pct(pp.periodic, amount)
  }

  /** The amount of each installment: the installment percentage of the
      periodic pool. The installments together take exactly the pool when
      that percentage is exact, and no more when it rounds down. */
  function InstanceAmount(pct: (nat, nat) -> nat, pp: PeriodicPayoutPercentage, amount: Balance): (r: Balance)
    ensures ExactAt(pct, InstallmentPct(pp.numOfPeriodicPayouts), PeriodicAmount(pct, pp, amount)) ==>
      NumPayouts(pp.numOfPeriodicPayouts) * r == PeriodicAmount(pct, pp, amount)
    ensures RoundsDownAt(pct, InstallmentPct(pp.numOfPeriodicPayouts), PeriodicAmount(pct, pp, amount)) ==>
      NumPayouts(pp.numOfPeriodicPayouts) * r <= PeriodicAmount(pct, pp, amount)
  {
    var n := NumPayouts(pp.numOfPeriodicPayouts);
    var q := InstallmentPct(pp.numOfPeriodicPayouts);
    var pool := PeriodicAmount(pct, pp, amount);
    var r := pct(q, pool);
    InstallmentsWithinPool(n, q, pool, r);
    InstallmentsTakePool(n, q, pool, r);
    r
  }

  /** The completion share: `after_fully_complete` percent of the amount. */
  function CompletionAmount(pct: (nat, nat) -> nat, pp: PeriodicPayoutPercentage, amount: Balance): (r: Balance)
    ensures ExactAt(pct, pp.afterFullyComplete, amount) ==> r == pp.afterFullyComplete * amount / 100
    ensures RoundsDownAt(pct, pp.afterFullyComplete, amount) ==> r <= pp.afterFullyComplete * amount / 100
  {
    PctFacts(pct, pp.afterFullyComplete, amount);
    pct(pp.afterFullyComplete, amount)
  }

  /** Everything a periodic proposal pays over its life: upfront, every
      installment and the completion share. */
  function PlannedTotal(pct: (nat, nat) -> nat, pp: PeriodicPayoutPercentage, amount: Balance): Balance
  {
    UpfrontAmount(pct, pp, amount)
      + NumPayouts(pp.numOfPeriodicPayouts) * InstanceAmount(pct, pp, amount)
      + CompletionAmount(pct, pp, amount)
  }

  /** `pct` computes `p` percent of `x` without rounding. */
  predicate ExactAt(pct: (nat, nat) -> nat, p: nat, x: nat)
  {
    pct(p, x) * 100 == p * x
  }

  /** `pct` never rounds `p` percent of `x` up. */
  predicate RoundsDownAt(pct: (nat, nat) -> nat, p: nat, x: nat)
  {
    pct(p, x) * 100 <= p * x
  }

  /** A percentage of at most 100 with nothing to round is exact. Any rounding
      mode gives this; percentages above 100 are left free, since
      `Percent::from_percent` caps them at 100. */
  ghost predicate ExactWhereDivisible(pct: (nat, nat) -> nat)
  {
    forall p: nat, x: nat :: p <= 100 && (p * x) % 100 == 0 ==> ExactAt(pct, p, x)
  }

  /** `from_percent(p) * x` rounded down, with `p` capped at 100. */
  function CappedFloorPct(p: nat, x: nat): nat
  {
    (if p <= 100 then p else 100) * x / 100
  }

  /** The capped, rounded-down percentage meets the exactness hypothesis. */
  lemma CappedFloorExactWhereDivisible()
    ensures ExactWhereDivisible(CappedFloorPct)
  {
    forall p: nat, x: nat | p <= 100 && (p * x) % 100 == 0
      ensures ExactAt(CappedFloorPct, p, x)
    {
      assert CappedFloorPct(p, x) == p * x / 100;
    }
  }

  /** Installments of `q` percent each, `n` of them with `q * n == 100`, take
      exactly the pool when each is exact. */
  lemma InstallmentsTakePool(n: nat, q: nat, pool: nat, inst: nat)
    requires q * n == 100
    ensures inst * 100 == q * pool ==> n * inst == pool
  {
    assert 100 * (n * inst) == n * (inst * 100);
    assert n * (q * pool) == (q * n) * pool;
  }

  /** Exact shares of percentages adding up to 100 add up to the whole. */
  lemma SharesSum(u: nat, p: nat, c: nat, amount: nat, up: nat, pool: nat, done: nat)
    requires u + p + c == 100
    requires up * 100 == u * amount && pool * 100 == p * amount && done * 100 == c * amount
    ensures up + pool + done == amount
  {
    assert u * amount + p * amount + c * amount == (u + p + c) * amount;
  }

  /** With exact percentages at the four points the planner uses, upfront,
      installments and completion share add up to the whole amount. */
  lemma {:induction false} SplitIsExact(pct: (nat, nat) -> nat, pp: PeriodicPayoutPercentage, amount: Balance)
    requires PercentSum(pp) == 100
    requires ExactAt(pct, pp.upfront, amount)
    requires ExactAt(pct, pp.periodic, amount)
    requires ExactAt(pct, pp.afterFullyComplete, amount)
    requires ExactAt(pct, InstallmentPct(pp.numOfPeriodicPayouts), PeriodicAmount(pct, pp, amount))
    ensures NumPayouts(pp.numOfPeriodicPayouts) * InstanceAmount(pct, pp, amount) == PeriodicAmount(pct, pp, amount)
    ensures PlannedTotal(pct, pp, amount) == amount
  {
    InstallmentsTakePool(NumPayouts(pp.numOfPeriodicPayouts), InstallmentPct(pp.numOfPeriodicPayouts),
      PeriodicAmount(pct, pp, amount), InstanceAmount(pct, pp, amount));
    SharesSum(pp.upfront, pp.periodic, pp.afterFullyComplete, amount,
      UpfrontAmount(pct, pp, amount), PeriodicAmount(pct, pp, amount), CompletionAmount(pct, pp, amount));
  }

  lemma HundredthsDivide(p: nat, m: nat)
    ensures (p * (100 * m)) % 100 == 0
    ensures p * (100 * m) / 100 == p * m
  {
    assert p * (100 * m) == 100 * (p * m);
  }

  /** The condition the periodic-payout test relies on: when the amount is a
      multiple of 10000, every percentage the planner takes is exact whatever
      the rounding mode, so the split is exact. The percentages are at most
      100: the three shares sum to 100 and an installment takes at most 20. */
  lemma {:induction false} SplitIsExactForMultiplesOf10000(pct: (nat, nat) -> nat, pp: PeriodicPayoutPercentage, amount: Balance)
    requires ExactWhereDivisible(pct)
    requires PercentSum(pp) == 100
    requires amount % 10000 == 0
    ensures UpfrontAmount(pct, pp, amount) == pp.upfront * (amount / 100)
    ensures PeriodicAmount(pct, pp, amount) == pp.periodic * (amount / 100)
    ensures InstanceAmount(pct, pp, amount)
      == InstallmentPct(pp.numOfPeriodicPayouts) * pp.periodic * (amount / 10000)
    ensures PlannedTotal(pct, pp, amount) == amount
  {
    var k := amount / 10000;
    var h := amount / 100;
    var q := InstallmentPct(pp.numOfPeriodicPayouts);
    assert q <= 100;
    HundredthsDivide(pp.upfront, h);
    HundredthsDivide(pp.periodic, h);
    HundredthsDivide(pp.afterFullyComplete, h);
    ExactFromDivisible(pct, pp.upfront, amount);
    ExactFromDivisible(pct, pp.periodic, amount);
    ExactFromDivisible(pct, pp.afterFullyComplete, amount);
    var pool := PeriodicAmount(pct, pp, amount);
    PoolInHundreds(pp.periodic, k, pool);
    HundredthsDivide(q * pp.periodic, k);
    assert q * pool == (q * pp.periodic) * (100 * k);
    ExactFromDivisible(pct, q, pool);
    SplitIsExact(pct, pp, amount);
  }

  lemma ExactFromDivisible(pct: (nat, nat) -> nat, p: nat, x: nat)
    requires ExactWhereDivisible(pct)
    requires p <= 100 && (p * x) % 100 == 0
    ensures ExactAt(pct, p, x)
  {
  }

  lemma PoolInHundreds(p: nat, k: nat, pool: nat)
    requires pool * 100 == p * (100 * (100 * k))
    ensures pool == p * (100 * k)
    ensures pool == (p * 100) * k
  {
    assert p * (100 * (100 * k)) == 100 * (p * (100 * k));
  }

  lemma InstallmentsWithinPool(n: nat, q: nat, pool: nat, inst: nat)
    requires q * n == 100
    ensures inst * 100 <= q * pool ==> n * inst <= pool
  {
    assert 100 * (n * inst) == n * (inst * 100);
    if inst * 100 <= q * pool {
      assert n * (inst * 100) <= n * (q * pool);
    }
    assert n * (q * pool) == (q * n) * pool;
  }

  lemma SharesWithin(u: nat, p: nat, c: nat, amount: nat, up: nat, pool: nat, done: nat)
    requires u + p + c == 100
    requires up * 100 <= u * amount && pool * 100 <= p * amount && done * 100 <= c * amount
    ensures up + pool + done <= amount
  {
    assert u * amount + p * amount + c * amount == (u + p + c) * amount;
  }

  /** If the percentage never rounds up, the treasury never pays a periodic
      proposal more than its amount. */
  lemma {:induction false} SplitNeverOverpays(pct: (nat, nat) -> nat, pp: PeriodicPayoutPercentage, amount: Balance)
    requires PercentSum(pp) == 100
    requires RoundsDownAt(pct, pp.upfront, amount)
    requires RoundsDownAt(pct, pp.periodic, amount)
    requires RoundsDownAt(pct, pp.afterFullyComplete, amount)
    requires RoundsDownAt(pct, InstallmentPct(pp.numOfPeriodicPayouts), PeriodicAmount(pct, pp, amount))
    ensures NumPayouts(pp.numOfPeriodicPayouts) * InstanceAmount(pct, pp, amount) <= PeriodicAmount(pct, pp, amount)
    ensures PlannedTotal(pct, pp, amount) <= amount
  {
    InstallmentsWithinPool(NumPayouts(pp.numOfPeriodicPayouts), InstallmentPct(pp.numOfPeriodicPayouts),
      PeriodicAmount(pct, pp, amount), InstanceAmount(pct, pp, amount));
    SharesWithin(pp.upfront, pp.periodic, pp.afterFullyComplete, amount,
      UpfrontAmount(pct, pp, amount), PeriodicAmount(pct, pp, amount), CompletionAmount(pct, pp, amount));
  }

  /** The periodic-payout scenario: 100,000 split 20% upfront, 80% over ten
      installments, nothing on completion. */
  lemma PeriodicScenario(pct: (nat, nat) -> nat)
    requires ExactWhereDivisible(pct)
    ensures var pp := PeriodicPayoutPercentage(20, 80, 0, Ten, 10);
      && ValidPolicy(Periodic(pp))
      && UpfrontAmount(pct, pp, 100_000) == 20_000
      && NumPayouts(pp.numOfPeriodicPayouts) == 10
      && InstanceAmount(pct, pp, 100_000) == 8_000
      && CompletionAmount(pct, pp, 100_000) == 0
      && PlannedTotal(pct, pp, 100_000) == 100_000
  {
    var pp := PeriodicPayoutPercentage(20, 80, 0, Ten, 10);
    SplitIsExactForMultiplesOf10000(pct, pp, 100_000);
    assert ExactAt(pct, 0, 100_000);
  }
}
