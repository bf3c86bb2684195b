/** Client code driving the pallet through the flows of its unit tests, under
    the test runtime's configuration: native asset 0, thresholds 5000 and
    20000, a hold of 100 released on approval, identity price functions and a
    single governance account. `Percent` caps at 100 and is taken to round
    down here. */
module Scenarios {
  import opened Types
  import opened Ledgers
  import opened Policy
  import opened Scheduler
  import opened TreasuryPallet

  const ALICE: AccountId := 1
  const BOB: AccountId := 2
  const GOVERNANCE: AccountId := 7
  const TREASURY: AccountId := 1000

  function TestConfig(): Config
  {
    Config(
      0, TREASURY, 5000, 20000, 100,
      CappedFloorPct,
      (a: AssetId, amount: Balance, b: AssetId) => amount,
      (a: AssetId, amount: Balance) => amount,
      (o: RuntimeOrigin) => o == Signed(GOVERNANCE))
  }

  /** The treasury starts with 999 999, Alice and Bob with 100 000 each. */
  function Genesis(): Ledger
  {
    Ledger(map[TREASURY := 999_999, ALICE := 100_000, BOB := 100_000], map[], map[])
  }

  /** The bytes of "Title". */
  function TestTitle(): Title
  {
    [84, 105, 116, 108, 101]
  }

  function TenByTen(): PayoutType
  {
    Periodic(PeriodicPayoutPercentage(20, 80, 0, Ten, 10))
  }

  /** Funding the treasury with 1 moves 1 from Alice to the treasury. */
  method FundTreasuryScenario() returns (r: Outcome<Error>, treasury: Balance, alice: Balance)
    ensures r == Pass && treasury == 1_000_000 && alice == 99_999
  {
    var t := new Treasury(TestConfig(), Genesis(), 1);
    r := t.FundTreasuryNative(Signed(ALICE), 1);
    treasury := Get(t.ledger.native, TREASURY);
    alice := Get(t.ledger.native, ALICE);
  }

  /** Proposing an instant spend stores it at index 0 and logs `AddedProposal`;
      approving it pays Alice 123 000 and gives back her hold of 100. */
  method InstantPayoutScenario() returns (proposed: Outcome<Error>, log: seq<Event>, approved: Outcome<Error>, alice: Balance)
    ensures proposed == Pass && log == [AddedProposal(ALICE, 0, 123_000, TestTitle())]
    ensures approved == Pass && alice == 223_000
  {
    var t := new Treasury(TestConfig(), Genesis(), 1);
    proposed := t.ProposeSpend(Signed(ALICE), TestTitle(), [], 0, 123_000, ALICE, ALICE, Instant);
    log := t.events;
    approved := t.ApproveProposal(Signed(GOVERNANCE), ALICE, 0);
    alice := Get(t.ledger.native, ALICE);
  }

  function TenByTenInstallment(): PeriodicPayoutInstance
  {
    PeriodicPayoutInstance(ALICE, ALICE, 0, 8_000)
  }

  /** The proposal of 100 000, ten installments of 8% every 10 blocks after
      20% upfront, as `propose_spend` stores it for Alice at index 0. */
  function TenByTenProposal(): SpendingProposal
  {
    SpendingProposal(TestTitle(), [], ALICE, ALICE, 100_000, 0, BigSpender, TenByTen(), false, false)
  }

  /** Proposing it holds 100 of Alice's balance and stores it at index 0. */
  method PeriodicProposalScenario() returns (t: Treasury)
    ensures fresh(t) && t.Valid() && t.cfg == TestConfig() && t.now == 1 && t.queue == map[]
    ensures (ALICE, 0) in t.proposals && t.proposals[(ALICE, 0)] == TenByTenProposal()
    ensures Get(t.ledger.native, ALICE) == 99_900 && Get(t.ledger.onHold, ALICE) == 100
    ensures Get(t.ledger.native, TREASURY) == 999_999
  {
    t := new Treasury(TestConfig(), Genesis(), 1);
    var proposed := t.ProposeSpend(Signed(ALICE), TestTitle(), [], 0, 100_000, ALICE, ALICE, TenByTen());
    assert proposed == Pass;
  }

  /** Approving it at block 1 leaves Alice with 120 000 and queues one
      installment of 8 000 at each of the blocks 11, 21, ..., 101 and none at
      block 1. */
  method PeriodicApprovalScenario() returns (t: Treasury)
    ensures fresh(t) && t.Valid() && t.cfg == TestConfig() && t.now == 1
    ensures Get(t.ledger.native, ALICE) == 120_000 && Get(t.ledger.native, TREASURY) == 979_999
    ensures forall j :: 1 <= j <= 10 ==> Pending(t.queue, Slot(1, 10, j)) == [TenByTenInstallment()]
    ensures Pending(t.queue, 1) == []
  {
    var cfg := TestConfig();
    t := PeriodicProposalScenario();
    var p := TenByTenProposal();
    var pp := p.payoutType.payout;
    assert UpfrontAmount(cfg.pctOf, pp, p.amount) == 20_000;
    assert PeriodicAmount(cfg.pctOf, pp, p.amount) == 80_000;
    var approved := t.ApproveProposal(Signed(GOVERNANCE), ALICE, 0);
    assert approved == Pass;
    TenByTenQueue();
  }

  /** The schedule of that approval at block 1, on an empty queue, puts one
      installment at each of the blocks 11, 21, ..., 101 and nothing at block 1. */
  lemma TenByTenQueue()
    ensures var q := AppendAll(map[], PayoutSchedule(TestConfig(), TenByTenProposal(), 1));
      && (forall j :: 1 <= j <= 10 ==> Pending(q, Slot(1, 10, j)) == [TenByTenInstallment()])
      && Pending(q, 1) == []
  {
    var cfg := TestConfig();
    var p := TenByTenProposal();
    assert InstallmentOf(cfg, p, p.payoutType.payout) == TenByTenInstallment() by {
      assert PeriodicAmount(cfg.pctOf, p.payoutType.payout, p.amount) == 80_000;
    }
    forall i | 1 <= i <= 10
      ensures 1 != Slot(1, 10, i)
    {
    }
    PeriodicApprovalQueue(cfg, map[], p, 1, 1);
  }

  /** A tick whose due entry is the single 8 000 installment, with the
      treasury holding enough, pays it to Alice and leaves the queue as it was. */
  lemma FundedInstallmentTick(q: Queue, l: Ledger, ev: seq<Event>, now: BlockNumber, n: BlockNumber)
    requires Pending(q, n) == [TenByTenInstallment()] && Get(l.native, TREASURY) >= 8_000
    ensures var r := Tick(0, TREASURY, q, l, ev, now, n);
      && (forall k :: Pending(r.queue, k) == Pending(q, k))
      && Get(r.ledger.native, ALICE) == Get(l.native, ALICE) + 8_000
      && Get(r.ledger.native, TREASURY) == Get(l.native, TREASURY) - 8_000
  {
    var xs := Pending(q, n);
    var x := TenByTenInstallment();
    assert xs[..0] == [];
    assert AttemptAll(0, TREASURY, l, xs[..0]) == Attempts(l, []);
    assert BalanceOf(0, l, x.assetId, TREASURY) >= x.amount;
    var paid := ExecPayoutInstance(0, TREASURY, l, x);
    var a := AttemptAll(0, TREASURY, l, xs);
    assert a == Attempts(paid.value, [true]);
    assert a.ok[..0] == [];
    assert Select(xs[..0], a.ok[..0], false) == [];
  }

  /** On the state above, the tick of block 1 pays nothing and the tick of
      block 11 pays Alice the first installment. After the ticks of blocks 1,
      11, ..., 91 (the blocks the periodic test runs) she has 192 000; the
      tick of block 101 pays the tenth installment and brings her to 200 000. */
  method PeriodicTicksScenario() returns (afterBlock1: Balance, afterBlock11: Balance, afterBlock91: Balance, afterAll: Balance)
    ensures afterBlock1 == 120_000 && afterBlock11 == 128_000
    ensures afterBlock91 == 192_000 && afterAll == 200_000
  {
    var t := PeriodicApprovalScenario();
    t.OnInitialize(1);
    afterBlock1 := Get(t.ledger.native, ALICE);
    afterBlock11, afterBlock91 := 0, 0;
    var i := 1;
    while i <= 10
      invariant 1 <= i <= 11
      invariant t.Valid() && t.cfg == TestConfig()
      invariant Get(t.ledger.native, ALICE) == 120_000 + 8_000 * (i - 1)
      invariant Get(t.ledger.native, TREASURY) == 979_999 - 8_000 * (i - 1)
      invariant forall j :: i <= j <= 10 ==> Pending(t.queue, Slot(1, 10, j)) == [TenByTenInstallment()]
      invariant i > 1 ==> afterBlock11 == 128_000
      invariant i > 9 ==> afterBlock91 == 192_000
    {
      var block := Slot(1, 10, i);
      t.now := block;
      FundedInstallmentTick(t.queue, t.ledger, t.events, block, block);
      t.OnInitialize(block);
      if i == 1 {
        afterBlock11 := Get(t.ledger.native, ALICE);
      }
      if i == 9 {
        afterBlock91 := Get(t.ledger.native, ALICE);
      }
      i := i + 1;
    }
    afterAll := Get(t.ledger.native, ALICE);
  }

  /** Percentages summing to 180 are refused before anything is written. */
  method WrongPayoutTypeScenario() returns (r: Outcome<Error>, log: seq<Event>, alice: Balance)
    ensures r == Fail(PayoutPercentagesMustSumTo100) && log == [] && alice == 100_000
  {
    var t := new Treasury(TestConfig(), Genesis(), 1);
    r := t.ProposeSpend(Signed(ALICE), TestTitle(), [], 0, 100_000, ALICE, ALICE,
                        Periodic(PeriodicPayoutPercentage(100, 80, 0, Ten, 10)));
    log := t.events;
    alice := Get(t.ledger.native, ALICE);
  }

  /** Bob is not the governance origin. */
  method BadOriginScenario() returns (r: Outcome<Error>, stillPending: bool)
    ensures r == Fail(BadOrigin) && stillPending
  {
    var t := new Treasury(TestConfig(), Genesis(), 1);
    var proposed := t.ProposeSpend(Signed(ALICE), TestTitle(), [], 0, 123_000, ALICE, ALICE, Instant);
    r := t.ApproveProposal(Signed(BOB), ALICE, 0);
    stillPending := (ALICE, 0) in t.proposals && !t.proposals[(ALICE, 0)].approved;
  }

  /** Whatever the state, a second approval of the same proposal is refused. */
  method ApproveTwice(t: Treasury, origin: RuntimeOrigin, proposer: AccountId, index: nat)
    returns (first: Outcome<Error>, second: Outcome<Error>)
    requires t.Valid()
    modifies t
    ensures first.Pass? ==> second == Fail(ProposalAlreadyApproved)
  {
    first := t.ApproveProposal(origin, proposer, index);
    second := t.ApproveProposal(origin, proposer, index);
  }

  /** Whatever the state, a second confirmation of the same proposal is refused. */
  method ConfirmTwice(t: Treasury, origin: RuntimeOrigin, proposer: AccountId, index: nat)
    returns (first: Outcome<Error>, second: Outcome<Error>)
    requires t.Valid()
    modifies t
    ensures first.Pass? ==> second == Fail(ProposalAlreadyCompleted)
  {
    first := t.ConfirmFullCompletion(origin, proposer, index);
    second := t.ConfirmFullCompletion(origin, proposer, index);
  }
}
