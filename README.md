# Treasury pallet: a verified model

This project models the treasury pallet (`pallets/treasury/src/lib.rs`): a
treasury account that pays out spending proposals. The model covers four
things:

- **The proposal lifecycle.** A proposal is made with a deposit hold on the
  proposer. It is then approved by governance and finally confirmed as
  complete.
- **The payout planner.** On approval it either pays the whole amount at once
  (`Instant`), or pays an upfront share and queues a fixed number of equal
  installments (`Periodic`).
- **The block tick.** `on_initialize(n)` attempts every installment due at
  block `n`. Each failed one is re-queued ten blocks after the current block.
- **Funding and exchange.** Funding moves money into the treasury. Exchange
  burns one treasury asset and mints another at an oracle price.

The modules are:

- `Types` (`types.dfy`): the pallet's entities. These are the payout policy, the spending proposal, the payout instance, events, errors, origins and the configuration.
- `Ledgers` (`ledgers.dfy`): the foreign ledgers the pallet calls. Native free balances, native holds and the multi-asset ledger are kept as three separate balance maps. Each transfer or hold either moves exactly the amount or fails and changes nothing.
- `Policy` (`policy.dfy`): the pure parts, as functions:
  - policy validation;
  - spender classification;
  - the percentage arithmetic of the planner.

  `Percent::from_percent(p) * x` is left abstract as `pctOf(p, x)`. Exactness of the split is proved under stated hypotheses on it, not under an assumed rounding mode.
- `Scheduler` (`scheduler.dfy`): the payout queue (`PayoutInstances`). It covers the schedule the planner appends, with its loop `AppendInstallments`, and the tick as a specification function `Tick` with its loop `RunTick`. Both loops work on the queue as a value; the class methods assign their result to the `queue` field. The lemmas cover:
  - stepwise execution in stored order;
  - re-queueing;
  - conservation of obligations;
  - the treasury being debited exactly by what was paid.
- `TreasuryPallet` (`treasury.dfy`): the pallet's storage as the class `Treasury`. The class has one method per dispatchable, plus `SetupPayoutInstances`, `DoProposeSpend` and the tick `OnInitialize`. Each method states its error cases and its whole new state. Each keeps the storage invariant `Valid()` and the one-way progress predicate `Progressed()`.
- `Scenarios` (`scenarios.dfy`): client code that runs the flows of the pallet's unit tests under the test runtime's configuration. For the funding, instant-payout, wrong-percentage and bad-origin tests it proves the balances and outcomes those tests expect. For the periodic test it proves the balances lib.rs produces, which differ from the test's expectations from the first tick on (see below).

Block numbers, balances, indices and percentages are unbounded naturals. The
origin check of a dispatchable is the configuration's `isGovernance` predicate.
A refused dispatchable returns `Fail(e)` and leaves every field unchanged,
because the runtime rolls back storage when a dispatchable returns an error.

Behaviour of the code that the model keeps as written:

- **The hold does not match the release.** `do_propose_spend` holds the
  literal 100 (lib.rs:559). Approval releases `AmountHeldOnProposal` with best
  effort (lib.rs:293-297).
- **The tick leaves its entry in storage.** It reads the entry for `n` with
  `get` (lib.rs:390), so the entry stays in the queue after the tick.
- **The re-queue delay starts from the system block number.** Failures are re-queued at
  `System::block_number() + 10`, and `PayoutMovedForward` carries that block
  number as the current block (lib.rs:394-395). The hook argument `n` only
  selects the entry that is read (lib.rs:390). The obligation-conservation
  lemma is stated for a tick run at the current block.
- **Approval pays before it releases.** Approval sets `approved` and runs the
  planner first, which pays the upfront or instant share. It releases the
  hold afterwards.
- **Exchange prices before it burns.** It computes the asset-B amount before
  the burn.
- **The state errors are "Other" strings in the code.** `approve_proposal`
  and `confirm_full_completion` raise these errors as strings (lib.rs:284,
  290, 348, 351, 379). The model names them as constructors of `Error`.
- **The tests expect an earlier first installment.** The periodic test
  expects an installment on the tick of the approval block itself
  (tests.rs:194-204). lib.rs schedules the first installment at
  `now + period` (lib.rs:454-456), and the model follows lib.rs.
  `Scenarios.PeriodicTicksScenario` shows that the tick of block 1 pays
  nothing and the tick of block 11 pays 8 000. After the ticks the test runs
  (blocks 1, 11, ..., 91) Alice has 192 000, not the 200 000 the test
  expects (tests.rs:207). The tick of block 101 pays the tenth installment.

## Model

| member | source | states |
|---|---|---|
| Ledgers.TransferNative | pallets/treasury/src/lib.rs:242-251 | a native transfer fails exactly when the sender's free balance is below the amount; on success the sender loses and the receiver gains exactly the amount, every other native balance is unchanged, and the multi-asset ledger and the holds are untouched |
| Ledgers.TransferAsset | pallets/treasury/src/lib.rs:226-240 | a multi-asset transfer fails exactly when the sender holds less than the amount of that asset; on success `(asset, from)` loses and `(asset, to)` gains exactly the amount, every other multi-asset entry is unchanged, and native balances and holds are untouched |
| Ledgers.Transfer | pallets/treasury/src/lib.rs:487-513 | the `send_*_funds_to_beneficiary` dispatch on the asset id: fails iff the sender's balance in that asset is below the amount; on success moves exactly the amount from sender to receiver and leaves every other account and every other asset unchanged, including every multi-asset entry of another asset id |
| Ledgers.Hold | pallets/treasury/src/lib.rs:559 | a hold fails iff free native balance is below the amount; on success the amount moves from free to held for that account only |
| Ledgers.Release | pallets/treasury/src/lib.rs:293-298 | the best-effort release moves min(held, amount) from held back to free for that account only, and never fails |
| Ledgers.Burn | pallets/treasury/src/lib.rs:312-329 | the burn reduces the treasury's balance of the asset (native or multi-asset ledger, chosen by asset id) by the burned amount and changes no other balance or hold; a native burn leaves the whole multi-asset ledger alone, and a multi-asset burn the whole native ledger |
| Ledgers.Mint | pallets/treasury/src/lib.rs:331-335 | the mint adds the amount to that asset's balance of the account (native or multi-asset ledger, chosen by asset id) and changes no other balance or hold; a native mint leaves the whole multi-asset ledger alone, and a multi-asset mint the whole native ledger |
| Policy.NumPayouts | pallets/treasury/src/lib.rs:138-143 | every permitted installment count is 5, 10, 20 or 50, and each divides 100 |
| Policy.InstallmentPct | pallets/treasury/src/lib.rs:434-435 | the per-installment percentage `100 / n` times `n` is exactly 100 for every permitted `n` |
| Policy.CheckPayoutType | pallets/treasury/src/lib.rs:515-530 | a policy passes iff it is instant, or its percentages sum to 100 and its period is positive; instant always passes; a wrong sum is reported before a zero period |
| Policy.WrappingSumU8 | pallets/treasury/src/lib.rs:519 | the `u8` sum the code computes is below 256 and equals the true sum whenever that is below 256 |
| Policy.CheckPayoutTypeAsWritten | pallets/treasury/src/lib.rs:515-530 | the check with the wrapping `u8` sum: instant passes; periodic passes iff the wrapped sum is 100 and the period is positive |
| Policy.AsWrittenAgreesBelow256 | pallets/treasury/src/lib.rs:519 | when the percentages sum to less than 256, the as-written check and the corrected check give the same outcome |
| Policy.WrappedSumAcceptsOverdrawnPolicy | pallets/treasury/src/lib.rs:519 | percentages 200, 56 and 100 (356 in all) pass the as-written check but are not a valid policy and fail the corrected check |
| Policy.ClassifySpender | pallets/treasury/src/lib.rs:561-570 | a proposal is a small spender iff its usd price is at most the small threshold; otherwise a medium spender iff its raw amount is at most the medium threshold, and a big spender iff it is above it |
| Policy.ClassifyMonotone | pallets/treasury/src/lib.rs:561-570 | a proposal whose raw amount and usd price are no smaller is never classified into a smaller spender category |
| Policy.UpfrontAmount | pallets/treasury/src/lib.rs:426 | the upfront share is `upfront * amount / 100` when the percentage is exact, and no more when it rounds down |
| Policy.PeriodicAmount | pallets/treasury/src/lib.rs:430 | the periodic pool is `periodic * amount / 100` when the percentage is exact, and no more when it rounds down |
| Policy.InstanceAmount | pallets/treasury/src/lib.rs:434-435 | the n installments together take exactly the periodic pool when the installment percentage is exact, and no more than the pool when it rounds down |
| Policy.CompletionAmount | pallets/treasury/src/lib.rs:361-370 | the completion share is `after_fully_complete * amount / 100` when the percentage is exact, and no more when it rounds down |
| Policy.CappedFloorExactWhereDivisible | pallets/treasury/src/lib.rs:426-435 | `from_percent(p) * x` with `p` capped at 100 and rounded down is exact wherever `p <= 100` and `p * x` is a multiple of 100, so it meets the hypothesis of the multiples-of-10000 lemma |
| Policy.SplitIsExact | pallets/treasury/src/lib.rs:426-435 | if the four percentages the planner takes are exact, the n installments take exactly the periodic pool and upfront + n·installment + completion share equals the amount |
| Policy.SplitIsExactForMultiplesOf10000 | pallets/treasury/src/lib.rs:426-435 | for any percentage that is exact at percentages up to 100 with nothing to round (whatever its rounding and its cap above 100), when the amount is a multiple of 10000 the upfront share, pool and installment are the exact percentages and the planned total equals the amount |
| Policy.SplitNeverOverpays | pallets/treasury/src/lib.rs:426-435 | if the percentages never round up, the installments never exceed the pool and the planned total never exceeds the amount |
| Policy.PeriodicScenario | pallets/treasury/src/tests.rs:160-207 | for any percentage exact at percentages up to 100 with nothing to round, 100 000 under 20% upfront, 80% over ten installments and 0% on completion is a valid policy paying 20 000 upfront, ten installments of 8 000, nothing on completion, 100 000 in all |
| Scheduler.Append | pallets/treasury/src/lib.rs:465 | appending to a block's entry adds the instance at the end of that entry and leaves every other block's entry unchanged |
| Scheduler.AppendSeq | pallets/treasury/src/lib.rs:396 | appending a sequence to a block's entry extends that entry by the sequence in order and leaves every other entry unchanged |
| Scheduler.AppendAllAt | pallets/treasury/src/lib.rs:454-466 | after appending a list of (block, instance) pairs, each block's entry is its old entry followed by the instances aimed at it, in list order |
| Scheduler.Schedule | pallets/treasury/src/lib.rs:454-456 | the planner's schedule has one entry per installment, the i-th (from 1) at `now + i·period`, all carrying the same instance |
| Scheduler.AppendInstallments | pallets/treasury/src/lib.rs:454-466 | the planner's loop leaves the queue as the old queue with the schedule appended: each installment block gains one instance at the end of its entry |
| Scheduler.ScheduleAfterStart | pallets/treasury/src/lib.rs:454-456 | with a positive period, every installment is due strictly after the approval block |
| Scheduler.SlotsIncrease | pallets/treasury/src/lib.rs:456 | with a positive period, later installments fall in strictly later blocks |
| Scheduler.ScheduleHitsSlot | pallets/treasury/src/lib.rs:454-466 | with a positive period, exactly one installment is aimed at each installment block |
| Scheduler.ScheduleMisses | pallets/treasury/src/lib.rs:454-466 | no installment is aimed at a block that is not an installment block |
| Scheduler.ScheduledAtSlot | pallets/treasury/src/lib.rs:454-466 | after scheduling, each installment block holds its old entry followed by exactly one new installment |
| Scheduler.ScheduledOffSlot | pallets/treasury/src/lib.rs:454-466 | scheduling leaves the entry of every other block unchanged |
| Scheduler.ExecPayoutInstance | pallets/treasury/src/lib.rs:532-546 | paying an instance fails iff the treasury holds less than its amount in its asset; on success, for a beneficiary other than the treasury, the treasury loses and the beneficiary gains exactly that amount |
| Scheduler.AttemptAll | pallets/treasury/src/lib.rs:390-393 | the tick's attempts yield one success flag per instance |
| Scheduler.AttemptAllStepwise | pallets/treasury/src/lib.rs:391-393 | instance i succeeds iff paying it succeeds on the ledger the first i attempts left: every instance is attempted once, in stored order |
| Scheduler.MovedForward | pallets/treasury/src/lib.rs:397-404 | one `PayoutMovedForward` per failure, in failure order, carrying the current and retry blocks and the instance's proposer, beneficiary, asset and amount unchanged |
| Scheduler.TickPrefixStep | pallets/treasury/src/lib.rs:391-405 | one iteration of the tick: a paid instance only changes the ledger; a failed one is appended at the retry block and logged, leaving the ledger as it was |
| Scheduler.Tick | pallets/treasury/src/lib.rs:389-405 | a tick only extends the log, changes the entry of no block but the retry block, only appends to the retry block's entry, and appends one instance there per event it logs |
| Scheduler.RunTick | pallets/treasury/src/lib.rs:389-410 | the tick's loop produces exactly the queue, ledger and log of `Tick` |
| Scheduler.TickRequeuesFailures | pallets/treasury/src/lib.rs:390-405 | after a tick the retry block holds its old entry followed by the failures in order; every other block, including `n` itself, is unchanged; the log gains one event per failure; paid and failed instances together are exactly the entry's instances |
| Scheduler.TickConservesObligations | pallets/treasury/src/lib.rs:389-405 | in a tick at the current block n, the instances due from n+1 on plus those paid equal, as a multiset, the instances due from n on: nothing is lost or duplicated |
| Scheduler.AttemptAllDebitsTreasury | pallets/treasury/src/lib.rs:391-393 | when no instance pays the treasury itself, the treasury's balance in each asset falls by exactly the sum of the paid instances in that asset |
| Scheduler.AttemptAllFunded | pallets/treasury/src/lib.rs:391-393 | if no instance pays the treasury itself and the treasury holds, in each asset, at least the total the instances ask for, every attempt succeeds |
| Scheduler.TickPaysWhenFunded | pallets/treasury/src/lib.rs:389-410 | a tick whose due instances pay accounts other than the treasury, and whose treasury holds their total in each asset, re-queues nothing, logs nothing and debits the treasury by exactly that total |
| TreasuryPallet.ImmediateAmount | pallets/treasury/src/lib.rs:424-481 | approval pays the whole amount at once for an instant proposal, and for a periodic one the upfront share: `upfront * amount / 100` when exact, no more when rounding down |
| TreasuryPallet.PayImmediate | pallets/treasury/src/lib.rs:437-481 | the immediate payment fails exactly when the treasury holds less than the immediate amount; on success the treasury loses and the beneficiary gains exactly that amount, no other account's balance in that asset changes, and holds are untouched |
| TreasuryPallet.InstallmentOf | pallets/treasury/src/lib.rs:434-463 | each installment pays the proposal's beneficiary in the proposal's asset; the n installments take exactly the periodic pool when the installment percentage is exact, and no more when it rounds down |
| TreasuryPallet.PayoutSchedule | pallets/treasury/src/lib.rs:454-466 | an instant approval schedules nothing; a periodic one schedules as many entries as it asks for, each the proposal's installment and, with a positive period, each due after the approval block |
| TreasuryPallet.PayCompletion | pallets/treasury/src/lib.rs:356-374 | confirmation pays nothing unless the proposal is periodic with a positive completion share; then it fails exactly when the treasury holds less than that share, and otherwise moves exactly the share from treasury to beneficiary |
| TreasuryPallet.InstantApprovalPaysAmount | pallets/treasury/src/lib.rs:468-481 | the instant payment fails iff the treasury holds less than the amount; otherwise it moves exactly the amount from treasury to beneficiary |
| TreasuryPallet.PeriodicScheduleShape | pallets/treasury/src/lib.rs:432-466 | a periodic approval schedules n ∈ {5, 10, 20, 50} installments, the i-th at `now + i·period`, all with the proposal's proposer, beneficiary and asset and the amount `pct(100/n, pct(periodic, amount))` |
| TreasuryPallet.PeriodicApprovalQueue | pallets/treasury/src/lib.rs:451-466 | after a periodic approval each installment block holds its old entry followed by one installment (earlier instances keep their place), and every other block is unchanged |
| TreasuryPallet.SetFlagGrows | pallets/treasury/src/lib.rs:286 | setting a flag of a stored proposal keeps every proposal and counter, changes no proposal data and turns no flag back to false |
| TreasuryPallet.InsertGrows | pallets/treasury/src/lib.rs:587-588 | storing under a fresh key and bumping the proposer's counter keeps every stored proposal and lowers no counter |
| TreasuryPallet.Treasury.constructor | pallets/treasury/src/lib.rs:192-210 | genesis storage is empty: no proposals, counters, queued instances or events |
| TreasuryPallet.Treasury.FundTreasuryNative | pallets/treasury/src/lib.rs:242-251 | unsigned origins fail with BadOrigin; otherwise succeeds iff the signer's native transfer to the treasury succeeds, crediting the treasury and debiting the signer by the amount; nothing else changes |
| TreasuryPallet.Treasury.FundTreasuryAsset | pallets/treasury/src/lib.rs:226-240 | as above on the multi-asset ledger, for any asset id including the native one |
| TreasuryPallet.Treasury.ProposeSpend | pallets/treasury/src/lib.rs:253-273 | any signed origin may propose for any proposer; unsigned fails with BadOrigin; otherwise behaves as `DoProposeSpend` |
| TreasuryPallet.Treasury.DoProposeSpend | pallets/treasury/src/lib.rs:548-598 | an invalid policy fails with the check's error and changes nothing; a proposer with less than 100 free fails unchanged; otherwise stores the proposal, unapproved and uncompleted, at the proposer's counter (a fresh key), bumps that counter only, holds 100 on the proposer and logs `AddedProposal` with that index |
| TreasuryPallet.Treasury.ApproveProposal | pallets/treasury/src/lib.rs:275-300 | BadOrigin, then ProposalDoesNotExist, then ProposalAlreadyApproved, then a failing first payment, each with no change; on success only that proposal becomes approved, the immediate share is paid, the schedule is appended to the queue and `AmountHeldOnProposal` is released best-effort |
| TreasuryPallet.Treasury.SetupPayoutInstances | pallets/treasury/src/lib.rs:423-485 | pays the whole amount (instant) or the upfront share (periodic) from the treasury, failing with nothing changed if that payment fails; then appends the periodic schedule, `now + i·period` for i = 1..n, to the queue |
| TreasuryPallet.Treasury.ConfirmFullCompletion | pallets/treasury/src/lib.rs:339-382 | BadOrigin, ProposalDoesNotExist, ProposalNotApproved, ProposalAlreadyCompleted, or a failing completion payment, each with no change; on success only that proposal becomes completed; the ledger changes only for a periodic proposal with a positive completion share, by the transfer of that share |
| TreasuryPallet.Treasury.ExchangeFundsInTreasury | pallets/treasury/src/lib.rs:302-337 | non-governance fails with BadOrigin; a refused burn fails with nothing changed; otherwise burns from asset A's ledger and mints the looked-up amount of asset B into the treasury, changing only the ledger |
| TreasuryPallet.Treasury.OnInitialize | pallets/treasury/src/lib.rs:389-410 | the tick never fails; its queue, ledger and log are those of `Tick`; proposals, counters and the block number are unchanged |
| Scenarios.FundTreasuryScenario | pallets/treasury/src/tests.rs:69-94 | funding with 1 leaves the treasury with 1 000 000 and Alice with 99 999 |
| Scenarios.InstantPayoutScenario | pallets/treasury/src/tests.rs:96-152 | the instant proposal of 123 000 is logged at index 0; its approval leaves Alice with 223 000 |
| Scenarios.PeriodicProposalScenario | pallets/treasury/src/tests.rs:154-183 | the periodic proposal is stored at (Alice, 0), with 100 held from Alice |
| Scenarios.PeriodicApprovalScenario | pallets/treasury/src/tests.rs:185-191 | approving it at block 1 leaves Alice with 120 000 and queues one 8 000 installment at each of blocks 11, 21, ..., 101 and none at block 1 |
| Scenarios.TenByTenQueue | pallets/treasury/src/lib.rs:454-466 | the schedule of that approval puts one installment at each of blocks 11, 21, ..., 101 and nothing at block 1 |
| Scenarios.FundedInstallmentTick | pallets/treasury/src/lib.rs:389-405 | a tick whose due entry is one 8 000 installment, with the treasury holding at least that, pays Alice 8 000 from the treasury and leaves the queue as it was |
| Scenarios.PeriodicTicksScenario | pallets/treasury/src/tests.rs:193-207 | following lib.rs: the tick of block 1 pays nothing, the tick of block 11 raises Alice to 128 000, the ticks the test runs (up to block 91) leave her with 192 000, and the tick of block 101 brings her to the 200 000 the test expects at the end |
| Scenarios.WrongPayoutTypeScenario | pallets/treasury/src/tests.rs:211-240 | percentages summing to 180 fail with PayoutPercentagesMustSumTo100, log nothing and leave Alice's balance as it was |
| Scenarios.BadOriginScenario | pallets/treasury/src/tests.rs:242-263 | approval by a non-governance account fails with BadOrigin and the proposal stays unapproved |
| Scenarios.ApproveTwice | pallets/treasury/src/lib.rs:281-285 | in any state, when a first approval succeeds a second one fails with ProposalAlreadyApproved |
| Scenarios.ConfirmTwice | pallets/treasury/src/lib.rs:345-352 | in any state, when a first confirmation succeeds a second one fails with ProposalAlreadyCompleted |

## Left out

- Machine-width arithmetic: counters, block numbers, balances and percentages are unbounded. The `u16` `index_count + 1` (lib.rs:588), the `u32` `i * payment_each_n_blocks` (lib.rs:456) and the block `+ 10` (lib.rs:395) do not wrap in the model. The `u8` sum of lib.rs:519 is modelled both ways under Findings.
- `Percent` rounding: `Percent::from_percent(p) * x` is the abstract `pctOf`. That includes saturation of percentages above 100. The split lemmas take exactness or round-down as hypotheses, and exactness is asked for only at percentages up to 100. The scenarios use round-down with the cap at 100 (`CappedFloorPct`), which meets the exactness hypothesis. `Percent`'s own rounding to nearest is not modelled.
- `treasury_account_id` (lib.rs:419-421): the account derived from the pallet id is the configured `treasury` account.
- Ledger internals: `Preservation`, `Fortitude`, existential deposits, and how holds enter `balance()` are left out. The model's free balance is the test's `balance()`.
- `ExchangeFundsInTreasury`: how much a best-effort burn removes is decided by the foreign ledger. It is a parameter (`burned`): `None` when the burn is refused, otherwise the amount burned. The model claims nothing about that amount beyond "at most `amount_a` and at most the balance".
- `ExchangeFundsInTreasury`: the mint is taken never to fail.
- `ApproveProposal`: the release is taken never to fail.
- The price oracle (lib.rs:602-614): `priceLookup` and `usdPrice` are uninterpreted parameters. The scenarios use the test runtime's identity functions.
- Origins: `ensure_signed` and `GovernanceOrigin::ensure_origin` become the origin datatype and the `isGovernance` predicate.
- FRAME machinery: the pallet macros, storage hashing and encoding, event deposit plumbing and the `Weight` returned by the hook are left out. Events are a plain log and the hook returns nothing.
- `HoldReason`: holds are not separated by reason.

## Findings

| source | as written | input that shows it | evidently intended | confidence | as-written member | corrected member |
|---|---|---|---|---|---|---|
| pallets/treasury/src/lib.rs:519 | the three `u8` percentages are added in `u8`, which wraps modulo 256 without overflow checks (and panics with them) | upfront 200, periodic 56, after_fully_complete 100: the sum 356 wraps to 100 and the policy is accepted | accept only percentages whose true sum is 100 | medium, not executed (depends on the build's overflow checks) | Policy.WrappedSumAcceptsOverdrawnPolicy | Policy.CheckPayoutType |
