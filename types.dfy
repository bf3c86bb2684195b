/** Entities of the treasury pallet: spending proposals, payout policies,
    scheduled payout instances, events, errors and the runtime configuration. */
module Types {

  type AccountId = nat
  type AssetId = nat
  type BlockNumber = nat
  type Balance = nat

  newtype byte = x: int | 0 <= x < 256

  /** A proposal title is a bounded vector of at most 32 bytes. */
  type Title = s: seq<byte> | |s| <= 32

  /** A proposal description is a bounded vector of at most 500 bytes. */
  type Description = s: seq<byte> | |s| <= 500

  datatype Option<T> = None | Some(value: T)

  datatype Outcome<E> = Pass | Fail(error: E)

  /** The permitted numbers of periodic installments. */
  datatype NumOfPeriodicPayouts = Five | Ten | Twenty | Fifty

  /** full amount = upfront + periodic + afterFullyComplete (all in percent) */
  datatype PeriodicPayoutPercentage = PeriodicPayoutPercentage(
    upfront: nat,
    periodic: nat,
    afterFullyComplete: nat,
    numOfPeriodicPayouts: NumOfPeriodicPayouts,
    paymentEachNBlocks: nat)

  datatype PayoutType = Periodic(payout: PeriodicPayoutPercentage) | Instant

  /** The spender category a proposal is classified into (the pallet's `Origin` enum). */
  datatype SpenderType = SmallSpender | MediumSpender | BigSpender

  /** One scheduled installment; it carries no link back to its proposal. */
  datatype PeriodicPayoutInstance = PeriodicPayoutInstance(
    proposer: AccountId,
    beneficiary: AccountId,
    assetId: AssetId,
    amount: Balance)

  datatype SpendingProposal = SpendingProposal(
    title: Title,
    description: Description,
    proposer: AccountId,
    beneficiary: AccountId,
    amount: Balance,
    assetId: AssetId,
    spenderType: SpenderType,
    payoutType: PayoutType,
    approved: bool,
    completed: bool)

  datatype Event =
    | AddedProposal(proposer: AccountId, indexCount: nat, amount: Balance, title: Title)
    | PayoutMovedForward(
        currBlockNumber: BlockNumber,
        movedToBlockNumber: BlockNumber,
        proposer: AccountId,
        beneficiary: AccountId,
        assetId: AssetId,
        amount: Balance)

  /** Why a foreign ledger call refused. */
  datatype LedgerFailure = FundsUnavailable | BurnFailed

  datatype Error =
    | PayoutPercentagesMustSumTo100
    | PaymentEachNBlocksMustBeGreaterThanZero
    | BadOrigin
    | ProposalAlreadyApproved
    | ProposalDoesNotExist
    | ProposalNotApproved
    | ProposalAlreadyCompleted
    | LedgerError(failure: LedgerFailure)

  /** The origin a dispatchable is called with. */
  datatype RuntimeOrigin = Root | Signed(who: AccountId) | Unsigned

  /** The pallet's configuration: constants and the foreign capabilities it calls.
      `pctOf(p, x)` stands for `Percent::from_percent(p) * x`, whose rounding is not modelled. */
  datatype Config = Config(
    nativeAssetId: AssetId,
    treasury: AccountId,
    smallSpenderThreshold: Balance,
    mediumSpenderThreshold: Balance,
    amountHeldOnProposal: Balance,
    pctOf: (nat, nat) -> nat,
    priceLookup: (AssetId, Balance, AssetId) -> Balance,
    usdPrice: (AssetId, Balance) -> Balance,
    isGovernance: RuntimeOrigin -> bool)
}
