/** The treasury pallet's storage and dispatchables. Every dispatchable is
    all-or-nothing: on an error it leaves the whole state as it was. */
module TreasuryPallet {
  import opened Types
  import opened Ledgers
  import opened Policy
  import opened Scheduler

  /** The hold placed on a proposer: the literal 100, not `AmountHeldOnProposal`. */
  const PROPOSAL_HOLD: Balance := 100

  /** What approval pays at once: the whole amount of an instant proposal, the
      upfront share of a periodic one. */
  function ImmediateAmount(cfg: Config, p: SpendingProposal): (r: Balance)
    ensures p.payoutType.Instant? ==> r == p.amount
    ensures p.payoutType.Periodic? && ExactAt(cfg.pctOf, p.payoutType.payout.upfront, p.amount) ==>
      r == p.payoutType.payout.upfront * p.amount / 100
    ensures p.payoutType.Periodic? && RoundsDownAt(cfg.pctOf, p.payoutType.payout.upfront, p.amount) ==>
      r <= p.payoutType.payout.upfront * p.amount / 100
  {
    match p.payoutType
    case Instant => p.amount
    case Periodic(pp) => UpfrontAmount(cfg.pctOf, pp, p.amount)
  }

  /** The payment approval makes from the treasury to the beneficiary: it
      fails exactly when the treasury holds less than the immediate amount,
      and otherwise moves exactly that amount. */
  function PayImmediate(cfg: Config, l: Ledger, p: SpendingProposal): (r: Option<Ledger>)
    ensures var b := BalanceOf(cfg.nativeAssetId, l, p.assetId, cfg.treasury);
      r.None? <==> b < ImmediateAmount(cfg, p)
    ensures r.Some? ==> r.value.onHold == l.onHold
    ensures r.Some? && p.beneficiary != cfg.treasury ==>
      && BalanceOf(cfg.nativeAssetId, r.value, p.assetId, cfg.treasury)
           == BalanceOf(cfg.nativeAssetId, l, p.assetId, cfg.treasury) - ImmediateAmount(cfg, p)
      && BalanceOf(cfg.nativeAssetId, r.value, p.assetId, p.beneficiary)
           == BalanceOf(cfg.nativeAssetId, l, p.assetId, p.beneficiary) + ImmediateAmount(cfg, p)
    ensures r.Some? ==> forall w :: w != cfg.treasury && w != p.beneficiary ==>
      BalanceOf(cfg.nativeAssetId, r.value, p.assetId, w) == BalanceOf(cfg.nativeAssetId, l, p.assetId, w)
  {
    Transfer(cfg.nativeAssetId, l, p.assetId, cfg.treasury, p.beneficiary, ImmediateAmount(cfg, p))
  }

  /** The installment every periodic payout of `p` pays: to the proposal's
      beneficiary in its asset, and such that the installments together take
      exactly the periodic pool when the installment percentage is exact. */
  function InstallmentOf(cfg: Config, p: SpendingProposal, pp: PeriodicPayoutPercentage): (r: PeriodicPayoutInstance)
    ensures r.proposer == p.proposer && r.beneficiary == p.beneficiary && r.assetId == p.assetId
    ensures ExactAt(cfg.pctOf, InstallmentPct(pp.numOfPeriodicPayouts), PeriodicAmount(cfg.pctOf, pp, p.amount)) ==>
      NumPayouts(pp.numOfPeriodicPayouts) * r.amount == PeriodicAmount(cfg.pctOf, pp, p.amount)
    ensures RoundsDownAt(cfg.pctOf, InstallmentPct(pp.numOfPeriodicPayouts), PeriodicAmount(cfg.pctOf, pp, p.amount)) ==>
      NumPayouts(pp.numOfPeriodicPayouts) * r.amount <= PeriodicAmount(cfg.pctOf, pp, p.amount)
  {
    PeriodicPayoutInstance(p.proposer, p.beneficiary, p.assetId, InstanceAmount(cfg.pctOf, pp, p.amount))
  }

  /** The (block, instance) entries approving `p` at block `now` appends to the
      queue: none for an instant proposal; for a periodic one as many as it
      asks for, each the proposal's installment and, with a positive period,
      each due strictly after `now`. */
  function PayoutSchedule(cfg: Config, p: SpendingProposal, now: BlockNumber): (r: seq<(BlockNumber, PeriodicPayoutInstance)>)
    ensures p.payoutType.Instant? ==> r == []
    ensures p.payoutType.Periodic? ==>
      && |r| == NumPayouts(p.payoutType.payout.numOfPeriodicPayouts)
      && forall i :: 0 <= i < |r| ==>
           && r[i].1 == InstallmentOf(cfg, p, p.payoutType.payout)
           && (p.payoutType.payout.paymentEachNBlocks > 0 ==> now < r[i].0)
  {
    match p.payoutType
    case Instant => []
    case Periodic(pp) =>
      var x := InstallmentOf(cfg, p, pp);
      var n := NumPayouts(pp.numOfPeriodicPayouts);
      ScheduleAfterStart(now, pp.paymentEachNBlocks, x, n);
      Schedule(now, pp.paymentEachNBlocks, x, n)
  }

  /** The payment confirming completion makes: the completion share, only for
      a periodic proposal whose completion percentage is positive. It fails
      exactly when that share is due and the treasury holds less. */
  function PayCompletion(cfg: Config, l: Ledger, p: SpendingProposal): (r: Option<Ledger>)
    ensures var due := p.payoutType.Periodic? && p.payoutType.payout.afterFullyComplete > 0;
      && (!due ==> r == Some(l))
      && (due ==>
            var c := CompletionAmount(cfg.pctOf, p.payoutType.payout, p.amount);
            && (r.None? <==> BalanceOf(cfg.nativeAssetId, l, p.assetId, cfg.treasury) < c)
            && (r.Some? && p.beneficiary != cfg.treasury ==>
                  && BalanceOf(cfg.nativeAssetId, r.value, p.assetId, cfg.treasury)
                       == BalanceOf(cfg.nativeAssetId, l, p.assetId, cfg.treasury) - c
                  && BalanceOf(cfg.nativeAssetId, r.value, p.assetId, p.beneficiary)
                       == BalanceOf(cfg.nativeAssetId, l, p.assetId, p.beneficiary) + c))
  {
    match p.payoutType
    case Periodic(pp) =>
      if pp.afterFullyComplete > 0 then
        Transfer(cfg.nativeAssetId, l, p.assetId, cfg.treasury, p.beneficiary, CompletionAmount(cfg.pctOf, pp, p.amount))
      else Some(l)
    case Instant => Some(l)
  }

  /** An instant approval moves exactly the proposal's amount from the
      treasury to the beneficiary, or fails when the treasury holds less. */
  lemma InstantApprovalPaysAmount(cfg: Config, l: Ledger, p: SpendingProposal)
    requires p.payoutType.Instant? && p.beneficiary != cfg.treasury
    ensures var b := BalanceOf(cfg.nativeAssetId, l, p.assetId, cfg.treasury);
      PayImmediate(cfg, l, p).None? <==> b < p.amount
    ensures PayImmediate(cfg, l, p).Some? ==>
      var l' := PayImmediate(cfg, l, p).value;
      && BalanceOf(cfg.nativeAssetId, l', p.assetId, cfg.treasury) == BalanceOf(cfg.nativeAssetId, l, p.assetId, cfg.treasury) - p.amount
      && BalanceOf(cfg.nativeAssetId, l', p.assetId, p.beneficiary) == BalanceOf(cfg.nativeAssetId, l, p.assetId, p.beneficiary) + p.amount
  {
  }

  /** A periodic approval schedules exactly `n` installments of one amount,
      the i-th at `now + i * period`, with n one of 5, 10, 20, 50. */
  lemma PeriodicScheduleShape(cfg: Config, p: SpendingProposal, now: BlockNumber)
    requires p.payoutType.Periodic?
    ensures var pp := p.payoutType.payout;
      var s := PayoutSchedule(cfg, p, now);
      && |s| == NumPayouts(pp.numOfPeriodicPayouts)
      && |s| in {5, 10, 20, 50}
      && forall i :: 0 <= i < |s| ==>
           s[i] == (now + (i + 1) * pp.paymentEachNBlocks,
                    PeriodicPayoutInstance(p.proposer, p.beneficiary, p.assetId, InstanceAmount(cfg.pctOf, pp, p.amount)))
  {
  }

  /** After a periodic approval, each installment block holds what it held
      followed by one new installment, and every other block is untouched. */
  lemma PeriodicApprovalQueue(cfg: Config, q: Queue, p: SpendingProposal, now: BlockNumber, k: BlockNumber)
    requires p.payoutType.Periodic? && ValidPolicy(p.payoutType)
    ensures var pp := p.payoutType.payout;
      var n := NumPayouts(pp.numOfPeriodicPayouts);
      var q' := AppendAll(q, PayoutSchedule(cfg, p, now));
      && (forall i :: 1 <= i <= n ==>
            Pending(q', Slot(now, pp.paymentEachNBlocks, i)) == Pending(q, Slot(now, pp.paymentEachNBlocks, i)) + [InstallmentOf(cfg, p, pp)])
      && ((forall i :: 1 <= i <= n ==> k != Slot(now, pp.paymentEachNBlocks, i)) ==> Pending(q', k) == Pending(q, k))
  {
    var pp := p.payoutType.payout;
    var n := NumPayouts(pp.numOfPeriodicPayouts);
    forall i | 1 <= i <= n
      ensures Pending(AppendAll(q, PayoutSchedule(cfg, p, now)), Slot(now, pp.paymentEachNBlocks, i))
        == Pending(q, Slot(now, pp.paymentEachNBlocks, i)) + [InstallmentOf(cfg, p, pp)]
    {
      ScheduledAtSlot(q, now, pp.paymentEachNBlocks, InstallmentOf(cfg, p, pp), n, i);
    }
    if forall i :: 1 <= i <= n ==> k != Slot(now, pp.paymentEachNBlocks, i) {
      ScheduledOffSlot(q, now, pp.paymentEachNBlocks, InstallmentOf(cfg, p, pp), n, k);
    }
  }

  /** A proposer's counter; a missing key reads as 0. */
  function CountOf(counters: map<AccountId, nat>, who: AccountId): nat
  {
    if who in counters then counters[who] else 0
  }

  /** Two proposals agree on everything but their status flags. */
  predicate SameData(a: SpendingProposal, b: SpendingProposal)
  {
    a.(approved := false, completed := false) == b.(approved := false, completed := false)
  }

  /** From storage (p0, c0) to (p1, c1): no counter went down, and every stored
      proposal is still stored, with the same data and flags that only went
      from false to true. */
  ghost predicate Grows(p0: map<(AccountId, nat), SpendingProposal>, c0: map<AccountId, nat>,
                        p1: map<(AccountId, nat), SpendingProposal>, c1: map<AccountId, nat>)
  {
    && (forall who :: CountOf(c0, who) <= CountOf(c1, who))
    && (forall key :: key in p0 ==>
          && key in p1
          && SameData(p0[key], p1[key])
          && (p0[key].approved ==> p1[key].approved)
          && (p0[key].completed ==> p1[key].completed))
  }

  /** Setting a flag of a stored proposal only moves storage forward. */
  lemma SetFlagGrows(p: map<(AccountId, nat), SpendingProposal>, c: map<AccountId, nat>,
                     key: (AccountId, nat), q: SpendingProposal)
    requires key in p && SameData(p[key], q)
    requires p[key].approved ==> q.approved
    requires p[key].completed ==> q.completed
    ensures Grows(p, c, p[key := q], c)
  {
  }

  /** Storing a proposal under a fresh key and bumping its proposer's counter
      only moves storage forward. */
  lemma InsertGrows(p: map<(AccountId, nat), SpendingProposal>, c: map<AccountId, nat>,
                    key: (AccountId, nat), q: SpendingProposal)
    requires key !in p
    ensures Grows(p, c, p[key := q], c[key.0 := CountOf(c, key.0) + 1])
  {
  }

  class Treasury {
    const cfg: Config
    /** `SpendingProposals`, keyed by (proposer, index). */
    var proposals: map<(AccountId, nat), SpendingProposal>
    /** `NumOfProposalsFromProposer`; a missing key reads as 0. */
    var counters: map<AccountId, nat>
    /** `PayoutInstances`. */
    var queue: Queue
    var ledger: Ledger
    var events: seq<Event>
    /** The block number the system reports. */
    var now: BlockNumber

    /** The index the proposer's next proposal gets. */
    function Counter(who: AccountId): nat
      reads this`counters
    {
      CountOf(counters, who)
    }

    /** Every stored proposal sits below its proposer's counter, under its own
        proposer, with a valid policy, and is completed only once approved. */
    ghost predicate Valid()
      reads this`proposals, this`counters
    {
      forall key :: key in proposals ==>
        && key.1 < Counter(key.0)
        && proposals[key].proposer == key.0
        && ValidPolicy(proposals[key].payoutType)
        && (proposals[key].completed ==> proposals[key].approved)
    }

    /** Between two states: no counter went down, and no stored proposal
        vanished, changed its data, or lost its `approved` or `completed` flag. */
    twostate predicate Progressed()
      reads this`proposals, this`counters
    {
      Grows(old(proposals), old(counters), proposals, counters)
    }

    constructor (cfg: Config, genesis: Ledger, block: BlockNumber)
      ensures Valid()
      ensures this.cfg == cfg && ledger == genesis && now == block
      ensures proposals == map[] && counters == map[] && queue == map[] && events == []
    {
      this.cfg := cfg;
      proposals, counters, queue := map[], map[], map[];
      ledger, events, now := genesis, [], block;
    }

    /** `fund_treasury_native`: a native transfer from the signer to the treasury. */
    method FundTreasuryNative(origin: RuntimeOrigin, amount: Balance) returns (r: Outcome<Error>)
      requires Valid()
      modifies this
      ensures Valid() && Progressed()
      ensures r.Fail? ==> unchanged(this)
      ensures !origin.Signed? ==> r == Fail(BadOrigin)
      ensures origin.Signed? ==>
        (r.Pass? <==> TransferNative(old(ledger), origin.who, cfg.treasury, amount).Some?)
      ensures origin.Signed? && r.Fail? ==> r == Fail(LedgerError(FundsUnavailable))
      ensures r.Pass? ==> ledger == TransferNative(old(ledger), origin.who, cfg.treasury, amount).value
      ensures r.Pass? && origin.who != cfg.treasury ==>
        && Get(ledger.native, cfg.treasury) == Get(old(ledger).native, cfg.treasury) + amount
        && Get(ledger.native, origin.who) == Get(old(ledger).native, origin.who) - amount
      ensures proposals == old(proposals) && counters == old(counters) && queue == old(queue)
      ensures events == old(events) && now == old(now)
    {
      if !origin.Signed? {
        return Fail(BadOrigin);
      }
      var moved := TransferNative(ledger, origin.who, cfg.treasury, amount);
      if moved.None? {
        return Fail(LedgerError(FundsUnavailable));
      }
      ledger := moved.value;
      r := Pass;
    }

    /** `fund_treasury_asset`: a multi-asset transfer from the signer to the
        treasury, on the multi-asset ledger even for the native asset id. */
    method FundTreasuryAsset(origin: RuntimeOrigin, amount: Balance, assetId: AssetId) returns (r: Outcome<Error>)
      requires Valid()
      modifies this
      ensures Valid() && Progressed()
      ensures r.Fail? ==> unchanged(this)
      ensures !origin.Signed? ==> r == Fail(BadOrigin)
      ensures origin.Signed? ==>
        (r.Pass? <==> TransferAsset(old(ledger), assetId, origin.who, cfg.treasury, amount).Some?)
      ensures origin.Signed? && r.Fail? ==> r == Fail(LedgerError(FundsUnavailable))
      ensures r.Pass? ==> ledger == TransferAsset(old(ledger), assetId, origin.who, cfg.treasury, amount).value
      ensures r.Pass? && origin.who != cfg.treasury ==>
        && Get(ledger.fungibles, (assetId, cfg.treasury)) == Get(old(ledger).fungibles, (assetId, cfg.treasury)) + amount
        && Get(ledger.fungibles, (assetId, origin.who)) == Get(old(ledger).fungibles, (assetId, origin.who)) - amount
      ensures proposals == old(proposals) && counters == old(counters) && queue == old(queue)
      ensures events == old(events) && now == old(now)
    {
      if !origin.Signed? {
        return Fail(BadOrigin);
      }
      var moved := TransferAsset(ledger, assetId, origin.who, cfg.treasury, amount);
      if moved.None? {
        return Fail(LedgerError(FundsUnavailable));
      }
      ledger := moved.value;
      r := Pass;
    }

    /** `propose_spend`: any signed origin may propose on behalf of any proposer. */
    method ProposeSpend(origin: RuntimeOrigin, title: Title, description: Description, assetId: AssetId,
                        amount: Balance, proposer: AccountId, beneficiary: AccountId, payoutType: PayoutType)
      returns (r: Outcome<Error>)
      requires Valid()
      modifies this
      ensures Valid() && Progressed()
      ensures r.Fail? ==> unchanged(this)
      ensures !origin.Signed? ==> r == Fail(BadOrigin)
      ensures origin.Signed? && CheckPayoutType(payoutType).Fail? ==> r == CheckPayoutType(payoutType)
      ensures origin.Signed? && ValidPolicy(payoutType) && Hold(old(ledger), proposer, PROPOSAL_HOLD).None? ==>
        r == Fail(LedgerError(FundsUnavailable))
      ensures r.Pass? <==> origin.Signed? && ValidPolicy(payoutType) && Hold(old(ledger), proposer, PROPOSAL_HOLD).Some?
      ensures r.Pass? ==>
        var index := old(Counter(proposer));
        && (proposer, index) !in old(proposals)
        && proposals == old(proposals)[(proposer, index) :=
             SpendingProposal(title, description, proposer, beneficiary, amount, assetId,
                              ClassifySpender(cfg, assetId, amount), payoutType, false, false)]
        && counters == old(counters)[proposer := index + 1]
        && ledger == Hold(old(ledger), proposer, PROPOSAL_HOLD).value
        && events == old(events) + [AddedProposal(proposer, index, amount, title)]
        && queue == old(queue) && now == old(now)
    {
      if !origin.Signed? {
        return Fail(BadOrigin);
      }
      r := DoProposeSpend(title, description, assetId, amount, proposer, beneficiary, payoutType);
    }

    /** `do_propose_spend`: validate, hold the deposit on `proposer`, classify,
        store at the proposer's counter, bump the counter, log the event. */
    method DoProposeSpend(title: Title, description: Description, assetId: AssetId,
                          amount: Balance, proposer: AccountId, beneficiary: AccountId, payoutType: PayoutType)
      returns (r: Outcome<Error>)
      requires Valid()
      modifies this
      ensures Valid() && Progressed()
      ensures r.Fail? ==> unchanged(this)
      ensures CheckPayoutType(payoutType).Fail? ==> r == CheckPayoutType(payoutType)
      ensures ValidPolicy(payoutType) && Hold(old(ledger), proposer, PROPOSAL_HOLD).None? ==>
        r == Fail(LedgerError(FundsUnavailable))
      ensures r.Pass? <==> ValidPolicy(payoutType) && Hold(old(ledger), proposer, PROPOSAL_HOLD).Some?
      ensures r.Pass? ==>
        var index := old(Counter(proposer));
        && (proposer, index) !in old(proposals)
        && proposals == old(proposals)[(proposer, index) :=
             SpendingProposal(title, description, proposer, beneficiary, amount, assetId,
                              ClassifySpender(cfg, assetId, amount), payoutType, false, false)]
        && counters == old(counters)[proposer := index + 1]
        && ledger == Hold(old(ledger), proposer, PROPOSAL_HOLD).value
        && events == old(events) + [AddedProposal(proposer, index, amount, title)]
        && queue == old(queue) && now == old(now)
    {
      var checked := CheckPayoutType(payoutType);
      if checked.Fail? {
        return checked;
      }
      var held := Hold(ledger, proposer, PROPOSAL_HOLD);
      if held.None? {
        return Fail(LedgerError(FundsUnavailable));
      }
      ledger := held.value;
      var spenderType := ClassifySpender(cfg, assetId, amount);
      var indexCount := Counter(proposer);
      var proposal := SpendingProposal(title, description, proposer, beneficiary, amount, assetId,
                                       spenderType, payoutType, false, false);
      InsertGrows(proposals, counters, (proposer, indexCount), proposal);
      proposals := proposals[(proposer, indexCount) := proposal];
      counters := counters[proposer := indexCount + 1];
      events := events + [AddedProposal(proposer, indexCount, amount, title)];
      r := Pass;
    }

    /** `approve_proposal`: governance only. Marks a pending proposal approved,
        runs the planner, then releases `AmountHeldOnProposal` best-effort. */
    method ApproveProposal(origin: RuntimeOrigin, proposer: AccountId, index: nat) returns (r: Outcome<Error>)
      requires Valid()
      modifies this
      ensures Valid() && Progressed()
      ensures r.Fail? ==> unchanged(this)
      ensures !cfg.isGovernance(origin) ==> r == Fail(BadOrigin)
      ensures cfg.isGovernance(origin) && (proposer, index) !in old(proposals) ==> r == Fail(ProposalDoesNotExist)
      ensures cfg.isGovernance(origin) && (proposer, index) in old(proposals) && old(proposals)[(proposer, index)].approved ==>
        r == Fail(ProposalAlreadyApproved)
      ensures cfg.isGovernance(origin) && (proposer, index) in old(proposals) && !old(proposals)[(proposer, index)].approved
        && PayImmediate(cfg, old(ledger), old(proposals)[(proposer, index)]).None?
        ==> r == Fail(LedgerError(FundsUnavailable))
      ensures r.Pass? <==>
        && cfg.isGovernance(origin)
        && (proposer, index) in old(proposals)
        && !old(proposals)[(proposer, index)].approved
        && PayImmediate(cfg, old(ledger), old(proposals)[(proposer, index)]).Some?
      ensures r.Pass? ==>
        var p := old(proposals)[(proposer, index)];
        && proposals == old(proposals)[(proposer, index) := p.(approved := true)]
        && proposals[(proposer, index)].approved
        && ledger == Release(PayImmediate(cfg, old(ledger), p).value, proposer, cfg.amountHeldOnProposal)
        && queue == AppendAll(old(queue), PayoutSchedule(cfg, p, old(now)))
        && counters == old(counters) && events == old(events) && now == old(now)
    {
      if !cfg.isGovernance(origin) {
        return Fail(BadOrigin);
      }
      var key := (proposer, index);
      if key !in proposals {
        return Fail(ProposalDoesNotExist);
      }
      var p := proposals[key];
      if p.approved {
        return Fail(ProposalAlreadyApproved);
      }
      var approved := p.(approved := true);
      r := SetupPayoutInstances(approved);
      if r.Fail? {
        return;
      }
      SetFlagGrows(proposals, counters, key, approved);
      proposals := proposals[key := approved];
      ledger := Release(ledger, proposer, cfg.amountHeldOnProposal);
    }

    /** `setup_payout_instances`: pays the immediate share, then, for a periodic
        proposal, appends one installment at `now + i * period` for i = 1..n. */
    method SetupPayoutInstances(p: SpendingProposal) returns (r: Outcome<Error>)
      modifies this`queue, this`ledger
      ensures r.Pass? <==> PayImmediate(cfg, old(ledger), p).Some?
      ensures r.Fail? ==> r == Fail(LedgerError(FundsUnavailable)) && ledger == old(ledger) && queue == old(queue)
      ensures r.Pass? ==> ledger == PayImmediate(cfg, old(ledger), p).value
      ensures r.Pass? ==> queue == AppendAll(old(queue), PayoutSchedule(cfg, p, now))
    {
      var paid := PayImmediate(cfg, ledger, p);
      if paid.None? {
        return Fail(LedgerError(FundsUnavailable));
      }
      ledger := paid.value;
      match p.payoutType {
        case Instant =>
        case Periodic(pp) =>
          var n := NumPayouts(pp.numOfPeriodicPayouts);
          var period := pp.paymentEachNBlocks;
          var instance := InstallmentOf(cfg, p, pp);
          queue := AppendInstallments(queue, now, period, instance, n);
      }
      r := Pass;
    }

    /** `confirm_full_completion`: governance only. Marks an approved,
        uncompleted proposal completed and pays the completion share, if any;
        a failing payment aborts the call. */
    method ConfirmFullCompletion(origin: RuntimeOrigin, proposer: AccountId, index: nat) returns (r: Outcome<Error>)
      requires Valid()
      modifies this
      ensures Valid() && Progressed()
      ensures r.Fail? ==> unchanged(this)
      ensures !cfg.isGovernance(origin) ==> r == Fail(BadOrigin)
      ensures cfg.isGovernance(origin) && (proposer, index) !in old(proposals) ==> r == Fail(ProposalDoesNotExist)
      ensures cfg.isGovernance(origin) && (proposer, index) in old(proposals) && !old(proposals)[(proposer, index)].approved ==>
        r == Fail(ProposalNotApproved)
      ensures cfg.isGovernance(origin) && (proposer, index) in old(proposals) && old(proposals)[(proposer, index)].approved
        && old(proposals)[(proposer, index)].completed
        ==> r == Fail(ProposalAlreadyCompleted)
      ensures r.Pass? <==>
        && cfg.isGovernance(origin)
        && (proposer, index) in old(proposals)
        && old(proposals)[(proposer, index)].approved
        && !old(proposals)[(proposer, index)].completed
        && PayCompletion(cfg, old(ledger), old(proposals)[(proposer, index)]).Some?
      ensures r.Pass? ==>
        var p := old(proposals)[(proposer, index)];
        && proposals == old(proposals)[(proposer, index) := p.(completed := true)]
        && ledger == PayCompletion(cfg, old(ledger), p).value
        && queue == old(queue) && counters == old(counters) && events == old(events) && now == old(now)
      ensures r.Pass? && (old(proposals)[(proposer, index)].payoutType.Instant?
                          || old(proposals)[(proposer, index)].payoutType.payout.afterFullyComplete == 0) ==>
        ledger == old(ledger)
      ensures r.Pass? && old(proposals)[(proposer, index)].payoutType.Periodic?
        && old(proposals)[(proposer, index)].payoutType.payout.afterFullyComplete > 0
        ==> var p := old(proposals)[(proposer, index)];
        ledger == Transfer(cfg.nativeAssetId, old(ledger), p.assetId, cfg.treasury, p.beneficiary,
                           CompletionAmount(cfg.pctOf, p.payoutType.payout, p.amount)).value
    {
      if !cfg.isGovernance(origin) {
        return Fail(BadOrigin);
      }
      var key := (proposer, index);
      if key !in proposals {
        return Fail(ProposalDoesNotExist);
      }
      var p := proposals[key];
      if !p.approved {
        return Fail(ProposalNotApproved);
      }
      if p.completed {
        return Fail(ProposalAlreadyCompleted);
      }
      var paid := PayCompletion(cfg, ledger, p);
      if paid.None? {
        return Fail(LedgerError(FundsUnavailable));
      }
      SetFlagGrows(proposals, counters, key, p.(completed := true));
      proposals := proposals[key := p.(completed := true)];
      ledger := paid.value;
      r := Pass;
    }

    /** `exchange_funds_in_treasury`: governance only. Burns `amountA` of asset
        A from the treasury, best-effort, and mints the looked-up amount of
        asset B into it. `burned` is the foreign ledger's answer to the burn:
        `None` when it refused, otherwise the amount it actually burned. */
    method ExchangeFundsInTreasury(origin: RuntimeOrigin, assetIdA: AssetId, amountA: Balance, assetIdB: AssetId,
                                   burned: Option<Balance>)
      returns (r: Outcome<Error>)
      requires Valid()
      requires burned.Some? ==>
        burned.value <= amountA && burned.value <= BalanceOf(cfg.nativeAssetId, ledger, assetIdA, cfg.treasury)
      modifies this
      ensures Valid() && Progressed()
      ensures r.Fail? ==> unchanged(this)
      ensures !cfg.isGovernance(origin) ==> r == Fail(BadOrigin)
      ensures cfg.isGovernance(origin) && burned.None? ==> r == Fail(LedgerError(BurnFailed))
      ensures r.Pass? <==> cfg.isGovernance(origin) && burned.Some?
      ensures r.Pass? ==>
        ledger == Mint(cfg.nativeAssetId,
                       Burn(cfg.nativeAssetId, old(ledger), assetIdA, cfg.treasury, burned.value),
                       assetIdB, cfg.treasury, cfg.priceLookup(assetIdA, amountA, assetIdB))
      ensures r.Pass? && assetIdA != assetIdB ==>
        && BalanceOf(cfg.nativeAssetId, ledger, assetIdB, cfg.treasury)
             == BalanceOf(cfg.nativeAssetId, old(ledger), assetIdB, cfg.treasury) + cfg.priceLookup(assetIdA, amountA, assetIdB)
        && BalanceOf(cfg.nativeAssetId, ledger, assetIdA, cfg.treasury)
             == BalanceOf(cfg.nativeAssetId, old(ledger), assetIdA, cfg.treasury) - burned.value
      ensures proposals == old(proposals) && counters == old(counters) && queue == old(queue)
      ensures events == old(events) && now == old(now)
    {
      if !cfg.isGovernance(origin) {
        return Fail(BadOrigin);
      }
      var amountB := cfg.priceLookup(assetIdA, amountA, assetIdB);
      if burned.None? {
        return Fail(LedgerError(BurnFailed));
      }
      var afterBurn := Burn(cfg.nativeAssetId, ledger, assetIdA, cfg.treasury, burned.value);
      ledger := Mint(cfg.nativeAssetId, afterBurn, assetIdB, cfg.treasury, amountB);
      r := Pass;
    }

    /** `on_initialize(n)`: attempts every instance stored at block `n`, in
        order; each failure is appended unchanged at `now + RETRY_DELAY` and
        logged. The entry for `n` is read, not taken. The tick never fails. */
    method OnInitialize(n: BlockNumber)
      requires Valid()
      modifies this
      ensures Valid() && Progressed()
      ensures var t := Tick(cfg.nativeAssetId, cfg.treasury, old(queue), old(ledger), old(events), old(now), n);
        queue == t.queue && ledger == t.ledger && events == t.events
      ensures proposals == old(proposals) && counters == old(counters) && now == old(now)
    {
      queue, ledger, events := RunTick(cfg.nativeAssetId, cfg.treasury, queue, ledger, events, now, n);
    }
  }
}
