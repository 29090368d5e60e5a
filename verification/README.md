# Astroid contracts: a Dafny model and its theorems

This project models the three state machines of the Astroid Soroban contracts and the
arithmetic below them, and proves what every run of them keeps.

- **Escrow** (`Escrow*.dfy`). Many multi-asset agreements share one token balance and pay
  out floored pro-rata shares through about ten entrypoints, with vesting schedules,
  basis-point milestones, multi-party approvals, a signature override and grace and refund
  windows. Proved: solvency and finality over every interleaving of calls, the exact dust
  bound, vesting and approval safety, conservation of milestone money, and for every live
  escrow the exact condition under which its money can still leave custody in full. What an
  opening asked for binds every later call: nothing before its unlock time, everything after.
- **Budget** (`Budget*.dfy`). Allowances whose windows are settled lazily, with rollover,
  caps, deficits and per-token records. Proved: conservation over whole histories, lazy
  settlement against any sequence of visits with the exact condition for one, at most one
  deficit, and exactly when a batch does what its legs do, in any order.
- **Multisig** (`Multisig*.dfy`, `Quorum.dfy`). A changing weighted signer set with live
  tallies, parked governance changes and nonced batches. Proved: it can never be bricked, a
  proposal executes if and only if the current signers who voted for it carry the threshold,
  a cancelled change never executes, and the threshold never moves without its delay.
- **Shared helpers** (`Arith.dfy`, `BalanceMaps.dfy`, `Quorum.dfy`). Overflow-free basis
  points, balance-map algebra, and the two independent quorum checks.

## How the model is built

Each contract has a value-level model (`*Model.dfy`): one function per entrypoint that
returns an error or the new state, with the guards in the order the code tests them. A
failed call leaves the state alone, because a Soroban invocation is atomic. The `*Calls.dfy`
and `EscrowOpenings.dfy` files state, apart from those functions, when each call of a run is
refused and what an accepted one does: as sums, vested amounts, floored shares, weights of sets
and fields of records. A call fails exactly when one of its refusals holds, and names one that
does. The theorem files reason about arbitrary sequences of these calls. The contract files hold
classes whose methods load records, loop and store as the code does, and each method is proved
to commit exactly the model's transition, so the theorems hold of any sequence of method calls.

Integers are unbounded with the `i128`, `u64` and `u32` ranges checked where the code checks
them, saturated where it saturates and truncated where it casts. Division truncates toward
zero. Tokens are an exact-transfer ledger; anybody else may move their own tokens at any time
and the clock may advance between any two calls. The contract's own address can authorize
nothing, so it is never an escrow's sender.

For the escrow theorems an observer keeps a book per escrow, outside the contract's state:
the log of every transfer made on its behalf and the share each payout operation paid. All
claims about deposits, payments and dust are about these logs and the token ledger.

## Where the code departs from its documentation

- **Funds can be stranded.** `reclaim` is documented as guaranteeing that funds cannot be
  stranded, and a condition as never locking up the depositor's money. Three families of
  escrows break this. The payout loop multiplies `amount * remaining` in `i128`, so a deposit
  of 2^64 units of one token never leaves custody (`StrandedExample`). Once a bounded refund
  window has closed, anybody may call `expire`, after which no path is open
  (`ClosedWindowExample`, 100 units). And a milestone escrow that expires can only be cancelled,
  which needs the same product, so 2^64 units in one milestone are sealed by anybody's `expire`
  although the arbiter could have released them before (`SealedExample`). `Recovery` is the
  exact condition for every reachable live escrow, read off its record and the clock: some
  continuation settles it if and only if it is
  - without milestones, and funded with computable products or with a schedule, or expired with
    computable products and a refund window still ahead;
  - with milestones, and funded with every open share computable, or expired with nothing
    remaining or a computable remainder.

  Otherwise no continuation settles it, and none pays any of it, except that a funded milestone
  escrow may still pay the milestones whose shares can be computed. `SenderExit` and
  `MilestoneExit` say of each exit, while it is open, that it succeeds exactly when the products
  fit.
- **A long grace period wraps.** `grace_end` is documented as reporting an overflow. It is cut to
  64 bits instead, so the window opens where it should exactly when `deadline + grace_period`
  fits (`GraceEndExact`); otherwise the recipient of a plain escrow may claim everything at once
  (`WrappedGraceExample`), and only then before the deadline (`EarlyClaimNeedsWrap`).
- **Release can run ahead of vesting.** The module documentation says a scheduled escrow
  cannot be released ahead of its schedule. The cliff gate tests `cliff_time` while a bullet
  vests at `end_time`, and the linear gate compares only the remainder with the vested
  amount. `EarlyReleaseExample` is a run; `ReleaseWithinVesting` gives the exact condition
  (`now >= end_time`) and `ReleaseNeverEarlyUnless` names the two families that fail.
- **Lazy settlement is not the same as visiting.** The budget documentation says a lazily
  settled budget equals one visited every period. Two families break this. Below 100% rollover a
  visit loses credit (`VisitsCanLoseCredit`). And when the first boundary books a deficit, the
  lazy settlement carries nothing for the further windows while a visited budget does, even with
  complete rollover (`VisitsCanGainCredit`). For every record in range, `LazySettlement` gives the
  exact condition for one visit; any sequence of visits leaves the same record but for its credit,
  never more of it without a deficit to book and never less with one (`VisitsAgainstLazy`). Token
  windows differ again: their lazy settlement credits one window however many lapsed
  (`AssetVisitsRaiseCredit`, exact condition in `AssetVisit`).
- **A reset forgives an overdraft.** Lifetime consumption can then exceed one limit per window
  and reset (`ResetForgivesAnOverdraft`). A reset keeps the bound, whatever counts an observer
  holds, exactly when the record is not overdrawn (`ResetConservesExactly`), and over all
  histories the excess is at most what resets forgave (`AllowanceIsConserved`).
- **A batch ignores rollover credit** that a single spend counts (`BatchIgnoresRolloverCredit`);
  `BatchSucceedsExactly` gives the exact condition.

## Model

| member | source | states |
|---|---|---|
| `EscrowTheorems.Solvency` | contracts/escrow/src/lib.rs:914-1059 | After any run, for every asset, the contract's balance covers the sum over all escrows of deposited minus paid, and each escrow has paid at most what was deposited for it |
| `EscrowTheorems.RunInv` | contracts/escrow/src/lib.rs:432-1572 | Every configuration reachable by any interleaving of openings, actions, time and foreign transfers satisfies the accounting invariant |
| `EscrowSteps.PerformKeeps` | contracts/escrow/src/lib.rs:863-2022 | Each of the sixteen actions on a sound agreement leaves it sound and custody covering its moves |
| `EscrowSteps.BeginKeeps` | contracts/escrow/src/lib.rs:432-860 | Each opening starts balanced books: the whole listed deposit came in and nothing else moved |
| `EscrowTheorems.MoneyStaysOnRoute` | contracts/escrow/src/lib.rs:12-21 | Every transfer ever made for an escrow goes sender to custody or custody to its recipient or sender |
| `EscrowTheorems.Finality` | contracts/escrow/src/lib.rs:1560-1572 | Once released, refunded or closed an escrow stays settled and its transfer log never grows |
| `EscrowTheorems.SettlementDust` | contracts/escrow/src/lib.rs:2048-2068 | A funded escrow settled after k payouts leaves between 0 and k-1 units of each asset unpaid, and 0 with one asset or one payout |
| `EscrowShares.DustBound` | contracts/escrow/src/lib.rs:944-946 | Floored shares adding up to the whole miss an amount by at most the number of shares minus one |
| `EscrowShares.NeverOverdraws` | contracts/escrow/src/lib.rs:1010-1012 | Floored shares of at most the whole never add up to more than the amount |
| `EscrowShares.PayEffect` | contracts/escrow/src/lib.rs:2048-2068 | A payout loop pays exactly the floored share of every asset, all to one party, and costs custody no more |
| `EscrowShares.PullEffect` | contracts/escrow/src/lib.rs:456-464 | A deposit loop brings exactly the listed amount of every asset into custody, all from the sender |
| `EscrowShares.PullTotals` | contracts/escrow/src/lib.rs:456-464 | And its running total is the sum of the list, within i128 |
| `EscrowTheorems.PayoutNeverBounces` | contracts/escrow/src/lib.rs:2043-2068 | In a reachable configuration a payout of an undrawn share never lacks tokens: it fails exactly when a product exceeds i128 |
| `EscrowTheorems.SenderExit` | contracts/escrow/src/lib.rs:1323-1558 | Inside the refund window refund, refund_timelock and reclaim, and before the deadline cancel, succeed exactly when the products fit, else Overflow |
| `EscrowMilestoneRecovery.Recovery` | contracts/escrow/src/lib.rs:1511-2022 | For every reachable live escrow of any kind, some continuation settles it if and only if its record and the clock allow it; otherwise its book never changes again, except for computable shares of a funded milestone escrow |
| `EscrowMilestoneRecovery.MilestoneRecovery` | contracts/escrow/src/lib.rs:1692-2022 | For every reachable live milestone escrow, some continuation settles it if and only if it is funded with every open share computable, or expired with nothing remaining or a computable remainder |
| `EscrowRecovery.PlainRecovery` | contracts/escrow/src/lib.rs:1511-1558 | For every reachable funded or expired escrow without milestones, some continuation settles it if and only if products and refund window allow it; otherwise no continuation changes its book |
| `EscrowMilestoneRecovery.LockedForever` | contracts/escrow/src/lib.rs:1692-2022 | A milestone escrow with an open share or an expired remainder that cannot be computed is never settled by any continuation |
| `EscrowMilestoneRecovery.LockedStep` | contracts/escrow/src/lib.rs:1692-2022 | No call frees a locked milestone escrow, and none at all succeeds once it has expired |
| `EscrowMilestoneRecovery.BlockedRemainder` | contracts/escrow/src/lib.rs:1744-1752 | While an open milestone's share cannot be computed, the remainder cannot be returned either |
| `EscrowMilestoneRecovery.CompleteAll` | contracts/escrow/src/lib.rs:1692-1932 | A funded milestone escrow with computable open shares is settled by resolving and approving them one by one |
| `EscrowMilestoneRecovery.SealedExample` | contracts/escrow/src/lib.rs:1298-1313 | 2^64 units in one milestone are never paid out after anybody's expire, whatever is called afterwards |
| `EscrowPromises.GraceEndExact` | contracts/escrow/src/lib.rs:2106-2117 | The grace period ends at deadline plus grace exactly when the sum fits 64 bits, and before the deadline otherwise |
| `EscrowPromises.EarlyClaimNeedsWrap` | contracts/escrow/src/lib.rs:984-1002 | An unscheduled escrow is claimed before its deadline only if that sum does not fit |
| `EscrowPromises.WrappedGraceExample` | contracts/escrow/src/lib.rs:2106-2117 | With deadline 10 and grace 2^64 - 10 a plain escrow is created and claimed in full at time 0 |
| `EscrowRecovery.StrandedForever` | contracts/escrow/src/lib.rs:2048-2128 | A stranded escrow, by oversized products or by a closed refund window, stays stranded with its book unchanged through every continuation |
| `EscrowRecovery.StrandedStep` | contracts/escrow/src/lib.rs:863-1572 | No action on a stranded escrow moves a token or frees it |
| `EscrowRecovery.GatherApprovals` | contracts/escrow/src/lib.rs:560-584 | From any funded escrow its participants can reach a configuration that meets the approval threshold, with nothing else changed |
| `EscrowRecovery.WithdrawalsRedeem` | contracts/escrow/src/lib.rs:914-966 | A matured schedule can always be withdrawn to the end, unit by unit, whatever the amounts |
| `EscrowRecovery.StrandedExample` | contracts/escrow/src/lib.rs:1511-1515 | 2^64 units of one token deposited by a plain create are never paid out by any further calls |
| `EscrowRecovery.ClosedWindowExample` | contracts/escrow/src/lib.rs:1298-1313 | 100 units whose refund window has closed are stranded by anybody's expire, whatever is called afterwards |
| `EscrowVesting.CalcVestedExact` | contracts/escrow/src/lib.rs:185-229 | The computation refuses malformed schedules, overflows exactly on an oversized product, and otherwise equals the clamped vesting curve |
| `EscrowVesting.VestedMonotone` | contracts/escrow/src/lib.rs:185-229 | The vested amount never decreases with time |
| `EscrowVesting.VestedBounds` | contracts/escrow/src/lib.rs:185-229 | It lies in [0, amount], is everything from the end on and less than everything before |
| `EscrowVesting.ClaimableExact` | contracts/escrow/src/lib.rs:233-246 | A positive claimable amount is exactly vested minus released |
| `EscrowPromises.VestingSafety` | contracts/escrow/src/lib.rs:926-1008 | Every reachable Funded escrow has released at most what has vested and less than everything; unscheduled ones nothing |
| `EscrowPromises.ClaimIsFullWithdrawal` | contracts/escrow/src/lib.rs:969-1033 | A scheduled claim makes the same payments and record as withdrawing all that is claimable, reaching exactly the vested amount |
| `EscrowPromises.ReleaseWithinVesting` | contracts/escrow/src/lib.rs:1107-1167 | A successful release brings the total paid to the funded amount, and that is within vesting if and only if the schedule has ended |
| `EscrowPromises.ReleaseNeverEarlyUnless` | contracts/escrow/src/lib.rs:1107-1137 | A release is never early unless the cliff precedes the end of a bullet or a line was partly withdrawn |
| `EscrowPromises.EarlyReleaseExample` | contracts/escrow/src/lib.rs:120-123 | A reachable escrow is released in full while nothing has vested |
| `EscrowPromises.MilestoneConservation` | contracts/escrow/src/lib.rs:1956-2022 | At every moment the recipient has exactly the released amount; full completion pays exactly the funded amount; cancelling returns exactly the rest |
| `EscrowMilestones.ReleaseMilestoneMeaning` | contracts/escrow/src/lib.rs:1692-1800 | An approval pays its floored share, the last one the remainder, never more than remains, and the last exceeds its share by at most n-1 |
| `EscrowMilestones.PayoutWithinRemaining` | contracts/escrow/src/lib.rs:1734-1752 | A floored milestone share fits the remaining balance in any approval order |
| `EscrowPromises.MilestoneNeverBounces` | contracts/escrow/src/lib.rs:1692-1766 | Approving a pending milestone fails only when amount times weight exceeds i128 |
| `EscrowPromises.MilestoneExit` | contracts/escrow/src/lib.rs:1956-2022 | Cancelling a live milestone escrow succeeds exactly when nothing remains or amount times remaining fits i128, and returns the remainder |
| `EscrowPromises.ApprovalsAgree` | contracts/escrow/src/lib.rs:560-604 | The stored counter, the number of flags and the length of release_approvals agree in every reachable state |
| `EscrowPromises.PaidOnlyWhenApproved` | contracts/escrow/src/lib.rs:2264-2271 | No call pays the recipient of a conditioned escrow below its threshold |
| `EscrowPromises.RecipientPaymentIsBacked` | contracts/escrow/src/lib.rs:552-584 | When the recipient of a conditioned escrow is paid, at least the threshold of distinct participants had each approved by its own earlier call |
| `EscrowPromises.PaymentsGoToRecipient` | contracts/escrow/src/lib.rs:914-1295 | Withdrawals, claims, releases and overrides pay the recipient alone, a withdrawal exactly the amount asked; the escrow becomes Released exactly when everything is paid |
| `EscrowPromises.ReturnsGoToSender` | contracts/escrow/src/lib.rs:1323-1558 | Refunds, reclaims and cancellations pay the sender alone, complete the payout and change nothing but the status to Refunded |
| `EscrowPromises.OnlyTheEntitledMoveMoney` | contracts/escrow/src/lib.rs:914-2022 | In any run a call that moves an escrow's tokens is made by the entitled party in its time: arbiter before the grace end, valid distinct configured keys before the deadline, sender between grace end and window close, cancellation before the deadline, on an escrow not yet settled |
| `EscrowPromises.SettlesOnce` | contracts/escrow/src/lib.rs:1078-1558 | Of all releases, overrides, refunds, reclaims and cancellations of one escrow in a run, at most one succeeds |
| `EscrowPromises.OverrideIsSigned` | contracts/escrow/src/lib.rs:1202-1272 | An override release carries only valid signatures of distinct configured keys, at least the threshold, and raises the nonce |
| `EscrowCalls.CallDecided` | contracts/escrow/src/lib.rs:560-2022 | Over every run, every call on an escrow fails exactly when one of its stated refusals holds, with an error naming one that does; an accepted one changes exactly the stated record, payments and answer and no other escrow |
| `EscrowCalls.WithdrawDecided` | contracts/escrow/src/lib.rs:914-966 | A withdrawal succeeds exactly for the recipient of an approved funded escrow, within what has vested and is not released, when the products fit; it pays the floored shares of that amount |
| `EscrowCalls.ClaimDecided` | contracts/escrow/src/lib.rs:969-1059 | A claim succeeds exactly after the grace period without a schedule, or with something vested and unreleased, and pays all of it; on an unfunded timelock it only settles |
| `EscrowCalls.ReleaseDecided` | contracts/escrow/src/lib.rs:1078-1180 | A release succeeds exactly for the arbiter before the grace period ends, past the schedule gates, and pays all that is left |
| `EscrowCalls.OverrideDecided` | contracts/escrow/src/lib.rs:1202-1290 | An override succeeds exactly with enough valid signatures of distinct configured keys, a higher nonce, before the deadline and past the gates, and pays all that is left |
| `EscrowCalls.KeysDecided` | contracts/escrow/src/lib.rs:1202-1290 | The signature loop fails exactly on an invalid, unknown or repeated key, with an error naming one of these |
| `EscrowCalls.RefundDecided` | contracts/escrow/src/lib.rs:1323-1558 | Refund and reclaim succeed exactly for the sender of a live escrow after deadline and grace inside the refund window when the products fit, and return all that is left |
| `EscrowCalls.RefundTimelockDecided` | contracts/escrow/src/lib.rs:1377-1430 | The timelock refund does the same without the deadline test, and settles an unfunded one |
| `EscrowCalls.CancelDecided` | contracts/escrow/src/lib.rs:1432-1510 | A cancellation succeeds exactly for sender or arbiter before the deadline with nothing vested, and returns all that is left |
| `EscrowCalls.ApproveDecided` | contracts/escrow/src/lib.rs:560-585 | An approval succeeds exactly once per participant of a funded conditioned escrow and adds one flag and one to the counter |
| `EscrowCalls.FundDecided` | contracts/escrow/src/lib.rs:863-905 | Funding succeeds exactly for the sender of a created escrow with whitelisted tokens, enough of each and a total that fits, and brings in exactly the list |
| `EscrowCalls.DepositDecided` | contracts/escrow/src/lib.rs:456-464 | A deposit loop fails exactly on a missing balance or an oversized total |
| `EscrowCalls.ReleaseMilestoneDecided` | contracts/escrow/src/lib.rs:1692-1808 | A milestone approval succeeds exactly for the arbiter on a pending milestone of a funded, uncancelled schedule when its product fits, and pays its floor or, when all others are completed, the rest |
| `EscrowCalls.CancelMilestonesDecided` | contracts/escrow/src/lib.rs:1946-2022 | Cancelling milestones succeeds exactly for sender or arbiter of a live uncancelled schedule when the product fits, freezes what is pending and returns the rest |
| `EscrowOpenings.EveryOpeningDecided` | contracts/escrow/src/lib.rs:432-1690 | Every opening fails exactly when one of its stated refusals holds, with an error naming one; an accepted one records exactly what it asked for and takes the whole deposit |
| `EscrowOpenings.TermsAsAsked` | contracts/escrow/src/lib.rs:432-2022 | From its opening on an escrow carries the parties, instants, windows, schedule, keys, condition and milestone weights asked for, and no call of any run changes them |
| `EscrowOpenings.EveryEscrowWasOpened` | contracts/escrow/src/lib.rs:432-860 | Every escrow of a run was opened by one of its calls |
| `EscrowTimelocks.NothingBeforeUnlock` | contracts/escrow/src/lib.rs:608-860 | In any run no call pays the recipient before the unlock time asked of a timelock, funded or not, or the cliff asked of a schedule |
| `EscrowTimelocks.EverythingAfterUnlock` | contracts/escrow/src/lib.rs:914-1059 | From the unlock time or schedule end asked for on, all a funded time-locked escrow holds is claimable, and the recipient's claim takes it exactly when the products fit |
| `EscrowTimelocks.ExpiryDecided` | contracts/escrow/src/lib.rs:1298-1320 | Expiring succeeds exactly on a funded escrow at or after deadline plus grace, for sums that fit, and changes only the status |
| `EscrowTimelocks.ExpiredIsPastGrace` | contracts/escrow/src/lib.rs:1298-1320 | In any run an expired escrow is past deadline plus grace, for sums that fit |
| `EscrowTransfers.CallReplays` | contracts/escrow/src/lib.rs:2048-2068 | Every successful call changes every holder's balance of every token by exactly what its transfer log says |
| `EscrowLoops.CheckAssets` | contracts/escrow/src/lib.rs:2141-2156 | The nested validation loops compute the model's verdict, which accepts exactly approved, non-empty, bounded, positive, distinct lists |
| `EscrowShares.AssetsFromMeaning` | contracts/escrow/src/lib.rs:2141-2156 | The shape check passes exactly when every amount is positive and no asset repeats |
| `EscrowLoops.CheckThreshold` | contracts/escrow/src/lib.rs:2228-2253 | The nested loops accept exactly an empty set with threshold 0, or a bounded duplicate-free set with an attainable threshold |
| `EscrowLoops.PayAll` | contracts/escrow/src/lib.rs:2057-2066 | The payout loop computes the model's tally or its first error |
| `EscrowLoops.PullAll` | contracts/escrow/src/lib.rs:874-882 | The deposit loop computes the model's tally or its first error |
| `EscrowLoops.VerifySignatures` | contracts/escrow/src/lib.rs:1248-1260 | The signature loop accepts exactly the distinct configured keys with valid signatures |
| `EscrowLoops.FreezeAll` | contracts/escrow/src/lib.rs:1981-1989 | Cancelling turns every pending milestone into a disputed one and leaves the others |
| `EscrowContract.EscrowContract.Create` | contracts/escrow/src/lib.rs:432-501 | Commits the model's opening of a plain escrow, or fails and changes nothing |
| `EscrowContract.EscrowContract.CreateWithReleaseCondition` | contracts/escrow/src/lib.rs:517-549 | Commits the opening with its participants and threshold recorded |
| `EscrowContract.EscrowContract.CreateTimelock` | contracts/escrow/src/lib.rs:608-690 | Commits the opening of a bullet escrow |
| `EscrowContract.EscrowContract.CreateScheduled` | contracts/escrow/src/lib.rs:694-785 | Commits the opening of a scheduled escrow with its effective deadline |
| `EscrowContract.EscrowContract.InitializeTimelock` | contracts/escrow/src/lib.rs:791-860 | Commits the unfunded opening; no token moves |
| `EscrowContract.EscrowContract.DepositWithMilestones` | contracts/escrow/src/lib.rs:1580-1673 | Commits the milestone opening after the weights add up to 10000 |
| `EscrowContract.EscrowContract.ApproveRelease` | contracts/escrow/src/lib.rs:560-584 | Commits one flag and one more on the counter, with the code's refusals |
| `EscrowContract.EscrowContract.ReleaseApprovals` | contracts/escrow/src/lib.rs:595-604 | Lists the flagged participants in declaration order |
| `EscrowContract.EscrowContract.Fund` | contracts/escrow/src/lib.rs:863-911 | Commits the deposit of an initialized escrow |
| `EscrowContract.EscrowContract.Withdraw` | contracts/escrow/src/lib.rs:914-966 | Commits the partial payout within the claimable amount |
| `EscrowContract.EscrowContract.Claim` | contracts/escrow/src/lib.rs:969-1059 | Commits the payout of all that is claimable, or the unfunded settlement |
| `EscrowContract.EscrowContract.Release` | contracts/escrow/src/lib.rs:1078-1184 | Commits the arbiter's settlement of the whole remainder |
| `EscrowContract.EscrowContract.OverrideRelease` | contracts/escrow/src/lib.rs:1202-1295 | Commits the signature settlement and the new nonce |
| `EscrowContract.EscrowContract.Expire` | contracts/escrow/src/lib.rs:1298-1313 | Commits the marker once the grace period is over |
| `EscrowContract.EscrowContract.Refund` | contracts/escrow/src/lib.rs:1323-1374 | Commits the sender's refund of the remainder |
| `EscrowContract.EscrowContract.RefundTimelock` | contracts/escrow/src/lib.rs:1377-1425 | Commits the timelock refund, also of an unfunded escrow |
| `EscrowContract.EscrowContract.Cancel` | contracts/escrow/src/lib.rs:1432-1509 | Commits the cancellation, routed to the milestone path for milestone escrows |
| `EscrowContract.EscrowContract.Reclaim` | contracts/escrow/src/lib.rs:1516-1558 | Commits the sender's reclaim of the remainder |
| `EscrowContract.EscrowContract.Close` | contracts/escrow/src/lib.rs:1560-1572 | Commits the terminal state of a settled escrow |
| `EscrowContract.EscrowContract.ReleaseMilestone` | contracts/escrow/src/lib.rs:1692-1800 | Commits the milestone's payout and status, settling on the last one |
| `EscrowContract.EscrowContract.DisputeMilestone` | contracts/escrow/src/lib.rs:1811-1868 | Commits a pending milestone as disputed |
| `EscrowContract.EscrowContract.ResolveMilestone` | contracts/escrow/src/lib.rs:1875-1932 | Commits a disputed milestone as pending |
| `EscrowContract.EscrowContract.CancelRemainingMilestones` | contracts/escrow/src/lib.rs:1956-2022 | Commits the refund of the undisbursed remainder and freezes the schedule |
| `BudgetTheorems.AllowanceIsConserved` | contracts/budget/src/lib.rs:1217-1434 | Under a fixed configuration, for any gaps, deficits and resets, net lifetime consumption plus what is left is at most limit times windows opened plus resets, plus the overdrafts that resets forgave |
| `BudgetTheorems.NothingForgiven` | contracts/budget/src/lib.rs:626-638 | Without a reset on an overdrawn record nothing is forgiven and the grants alone suffice |
| `BudgetTheorems.ResetConservesExactly` | contracts/budget/src/lib.rs:626-638 | A reset of a record keeps the bound, for all observer counts that satisfy it, if and only if the record is not overdrawn |
| `BudgetTheorems.ResetForgivesAnOverdraft` | contracts/budget/src/lib.rs:626-638 | A limit-100 deficit budget that spends 1000 and is reset breaks the bound |
| `BudgetTheorems.SpendConserves` | contracts/budget/src/lib.rs:1557-1641 | Every call that settles windows and then spends, releases or reads keeps the bound |
| `BudgetTheorems.VisitsAgainstLazy` | contracts/budget/src/lib.rs:1352-1355 | For every record in range, any sequence of visits leaves the lazily settled record but for its credit: never more without a deficit to book, never less with one, and the same with rollover off or complete without a deficit |
| `BudgetTheorems.LazySettlement` | contracts/budget/src/lib.rs:1352-1401 | For every record in range, one intermediate visit leaves the same record but for its credit, in the stated direction, and the very same record exactly under a stated condition |
| `BudgetTheorems.SettlesEarlierToo` | contracts/budget/src/lib.rs:1356-1447 | A settlement that succeeds at a later time succeeds at an earlier one |
| `BudgetTheorems.SplitBoundaries` | contracts/budget/src/lib.rs:1239-1280 | The same comparison for p and then q boundaries against p + q at once, with and without a deficit to book |
| `BudgetTheorems.VisitsCanLoseCredit` | contracts/budget/src/lib.rs:1352-1355 | At 50% rollover a visit in between leaves 75 credit where lazy settlement leaves 150 |
| `BudgetTheorems.VisitsCanGainCredit` | contracts/budget/src/lib.rs:1381-1396 | At 100% rollover an overdrawn deficit budget visited in between carries 100 where the lazily settled one carries nothing, with the same deficit |
| `BudgetTheorems.FullOverspends` | contracts/budget/src/lib.rs:296-318 | That record is reached from an allocated deficit budget by one spend |
| `BudgetTheorems.SettleMeaning` | contracts/budget/src/lib.rs:1356-1434 | A settlement of p lapsed windows stores the closed-form record: capped carry plus p-1 idle limits, or the booked deficit, and an anchor moved by p windows |
| `BudgetTheorems.SettlementIsAnchored` | contracts/budget/src/lib.rs:1326-1401 | After settlement now lies in the current window, the anchor moved by whole windows and settling again changes nothing |
| `BudgetTheorems.CreditStaysCapped` | contracts/budget/src/lib.rs:1144-1172 | In every reachable state credit is non-negative, at most a non-zero cap, zero while rollover is off, and all counters are in range |
| `BudgetTheorems.DeficitBookedAtMostOnce` | contracts/budget/src/lib.rs:1381-1396 | With the rollover policy left alone a deficit is booked at most once in a budget's life, across limits, transfers and resets |
| `BudgetTheorems.LeftIsEffectiveRemaining` | contracts/budget/src/lib.rs:1100-1108 | What the conservation bound calls left is what the contract reports as remaining |
| `BudgetTheorems.CreditIsCeiled` | contracts/budget/src/lib.rs:1161-1280 | A carried credit is at most the rolled-over share plus idle limits, at most the absolute cap and at most the percentage of the limit where these are set, and reaches one of them |
| `BudgetCalls.CallDecided` | contracts/budget/src/lib.rs:514-1641 | On every reachable record every call fails exactly when one of its stated refusals holds, with an error naming one; an accepted one stores and answers exactly what is stated on the settled record |
| `BudgetCalls.AnswersWhatIsLeft` | contracts/budget/src/lib.rs:1557-1641 | A spend or give-back answers limit plus credit minus deficit minus spent of the record it stored, overdrafts included; a read at the same instant answers the same, or 0 exactly where the window end leaves the clock's range or has not started |
| `BudgetCalls.SettleDecided` | contracts/budget/src/lib.rs:1356-1434 | Settlement fails exactly when the budget is over or a stated sum leaves its range, and otherwise stores the closed-form record |
| `BudgetCalls.AllocateDecided` | contracts/budget/src/lib.rs:414-492 | Allocation succeeds exactly on sound arguments and starts with nothing spent or carried |
| `BudgetAssets.BatchEqualsLegsInAnyOrder` | contracts/budget/src/lib.rs:937-998 | A successful batch leaves the same registry as its legs recorded one by one in any order |
| `BudgetAssets.BatchSucceedsExactly` | contracts/budget/src/lib.rs:937-998 | A well-shaped batch succeeds exactly when all the single spends do and no leg draws on rollover credit |
| `BudgetAssets.BatchSucceedsExactlyWhenLegsDo` | contracts/budget/src/lib.rs:937-998 | With rollover off a well-shaped batch succeeds exactly when all the single spends do |
| `BudgetAssets.BatchIgnoresRolloverCredit` | contracts/budget/src/lib.rs:976-979 | From a registered token that carried 50 over a lapsed window, a spend of 120 against limit 100 passes alone and fails as a batch |
| `BudgetAssets.RegistryStaysOk` | contracts/budget/src/lib.rs:757-998 | Whatever is registered, configured and spent, every token record stays in range, its credit within its cap, and zero without a window or with rollover off |
| `BudgetAssets.EachMeaning` | contracts/budget/src/lib.rs:874-917 | Single spends over distinct tokens succeed exactly when each does alone and replace exactly those records |
| `BudgetAssets.AssetSettlementIsAnchored` | contracts/budget/src/lib.rs:1451-1502 | A token window lands around now, moves by whole windows and settles idempotently |
| `BudgetAssets.AssetVisit` | contracts/budget/src/lib.rs:1451-1502 | A visited token window has the anchor and counter of the lazily settled one, carries once more per visit, and equals it exactly when another idle window leaves the carried credit as it is |
| `BudgetAssets.FullIdleCredit` | contracts/budget/src/lib.rs:1466-1478 | With complete rollover that credit is kept exactly when the limit is zero or the cap is reached |
| `BudgetAssets.AssetVisitsRaiseCredit` | contracts/budget/src/lib.rs:1451-1502 | A token limited to 100 carries 200 after two visited windows and 100 after two lazy ones |
| `BudgetAssets.SpendStaysWithinCapacity` | contracts/budget/src/lib.rs:874-917 | An accepted spend adds its amount and stays within limit plus counted credit |
| `BudgetAssets.SimulateBatch` | contracts/budget/src/lib.rs:951-985 | The first pass computes the simulated records or the first error |
| `BudgetAssets.WriteBatch` | contracts/budget/src/lib.rs:987-998 | The second pass stores every simulated record |
| `BudgetAssetCalls.CallDecided` | contracts/budget/src/lib.rs:757-998 | On every reachable registry registration, policy, spend and batch fail exactly when a stated refusal holds, with an error naming one, and otherwise store exactly the stated records |
| `BudgetContract.WindowTransition` | contracts/budget/src/lib.rs:1356-1434 | The step-by-step hook computes the model's settlement |
| `BudgetContract.AssetGateDecided` | contracts/budget/src/lib.rs:874-890 | The gates of the token entrypoints pass exactly for the owner of a stored, active, unexpired budget, and for a spend once it has started |
| `BudgetContract.RecurrenceArgumentsDecided` | contracts/budget/src/lib.rs:514-545 | The argument checks of a recurrence pass exactly on non-negative caps, a percentage below 100% and a positive custom period |
| `BudgetContract.BudgetContract.Allocate` | contracts/budget/src/lib.rs:387-492 | Commits a fresh record, or fails and changes nothing |
| `BudgetContract.BudgetContract.Consume` | contracts/budget/src/lib.rs:1557-1606 | Commits the settled record with the spend, including the overdraft branch |
| `BudgetContract.BudgetContract.Release` | contracts/budget/src/lib.rs:1612-1623 | Commits the settled record with the spend given back |
| `BudgetContract.BudgetContract.Remaining` | contracts/budget/src/lib.rs:1626-1641 | Commits the settlement and reports the effective remainder |
| `BudgetContract.BudgetContract.Reset` | contracts/budget/src/lib.rs:626-638 | Commits the model's reset |
| `BudgetContract.BudgetContract.Rollover` | contracts/budget/src/lib.rs:644-650 | Commits the forced settlement |
| `BudgetContract.BudgetContract.SetLimit` | contracts/budget/src/lib.rs:653-673 | Commits the new limit |
| `BudgetContract.BudgetContract.SetRecurrence` | contracts/budget/src/lib.rs:514-583 | Commits the new recurrence with its credit re-clamped |
| `BudgetContract.BudgetContract.SetRolloverConfig` | contracts/budget/src/lib.rs:586-622 | Commits the new rollover policy with its credit re-clamped |
| `BudgetContract.BudgetContract.TransferAllocation` | contracts/budget/src/lib.rs:715-750 | Commits both limits of a transfer or neither |
| `BudgetContract.BudgetContract.SetBudgetLimit` | contracts/budget/src/lib.rs:757-828 | Commits a fresh token record or reports the first failing check |
| `BudgetContract.BudgetContract.SetAssetRolloverConfig` | contracts/budget/src/lib.rs:831-871 | Commits the settled token record with the new policy and its credit clamped, or reports the first failing check |
| `BudgetContract.BudgetContract.CheckAndRecordSpend` | contracts/budget/src/lib.rs:874-917 | Commits the registry with one token's record replaced, or reports the first failing check |
| `BudgetContract.BudgetContract.CheckAndRecordBatchSpend` | contracts/budget/src/lib.rs:937-998 | Commits the whole batch, or nothing with the first failing check |
| `MultisigTheorems.NeverBricked` | contracts/multisig/src/lib.rs:106-268 | In every reachable state signers are non-empty, distinct, at most 20 and positive, the total fits u32, 1 <= threshold <= total and the delay is in bounds |
| `MultisigTheorems.ValidatedChangeKeepsInv` | contracts/multisig/src/lib.rs:1009-1118 | A change that validates against live state applies and keeps all of that |
| `MultisigTheorems.UnanimityMeetsThreshold` | contracts/multisig/src/lib.rs:826-854 | If every signer approved, the live tally is defined and reaches the threshold |
| `MultisigTheorems.ExecutionIsBacked` | contracts/multisig/src/lib.rs:427-579 | Every executed proposal has, at that moment, current signers who each voted for it themselves and whose current weights reach the current threshold |
| `MultisigTheorems.ExecutesAtMostOnce` | contracts/multisig/src/lib.rs:553-579 | No proposal executes twice in any run |
| `MultisigTheorems.ExecutionWaits` | contracts/multisig/src/lib.rs:427-579 | No proposal executes before its unlock time, and a governance proposal not before the delay in force when it was proposed, at least a day, has passed |
| `MultisigTheorems.BatchIsBacked` | contracts/multisig/src/lib.rs:606-678 | A batch runs only when its distinct registered approvers reach the threshold |
| `MultisigTheorems.NonceRunsAtMostOnce` | contracts/multisig/src/lib.rs:606-678 | A batch nonce, or a smaller one, never runs again |
| `MultisigTheorems.ThresholdChangesAreDelayed` | contracts/multisig/src/lib.rs:207-382 | Every threshold write installs the value one earlier call parked: pending without interruption for at least 17280 ledgers, or the very change that call proposed, executed inside its own [eta, expires_at) at least a day later; no other call moves the threshold |
| `MultisigTheorems.ChangesAreImmutable` | contracts/multisig/src/lib.rs:390-409 | Once proposed a change's content and eta never move, and it is never both executed and cancelled |
| `MultisigCalls.CallDecided` | contracts/multisig/src/lib.rs:146-680 | In every reachable state every call fails exactly when one of its stated refusals holds, with an error naming one; an accepted one changes exactly the stated fields, roster entries and votes |
| `MultisigCalls.ExecutionDecidedByVotes` | contracts/multisig/src/lib.rs:553-579 | In any run an execution succeeds if and only if the contract is unlocked, the caller a signer, the proposal open and past its unlock time, and the current signers who voted for it themselves weigh at least the threshold |
| `MultisigCalls.ChangeExecutionDecided` | contracts/multisig/src/lib.rs:348-382 | In any run a change executes if and only if it was proposed, no earlier call executed or cancelled it, its window is open and it is sound against live state; the roster, threshold or delay then takes the value it names |
| `MultisigCalls.ClosedForGood` | contracts/multisig/src/lib.rs:390-409 | After a successful cancellation or execution the change carries exactly that mark for ever and no later execution or cancellation of it succeeds |
| `MultisigCalls.MarksAreCalls` | contracts/multisig/src/lib.rs:1148-1153 | No change is executed or cancelled without such a call of the run |
| `MultisigCalls.ChangeDecided` | contracts/multisig/src/lib.rs:1009-1060 | Validation refuses a change exactly for a stated flaw against the live roster and threshold |
| `MultisigCalls.ChangeEnacts` | contracts/multisig/src/lib.rs:1063-1119 | A validated change alters exactly the roster entry, threshold or delay it names |
| `MultisigCalls.VerifyThresholdDecided` | contracts/multisig/src/lib.rs:1254-1275 | The read-only check answers the combined weight exactly when it reaches the threshold, or one of its refusals |
| `MultisigCalls.InitializeDecided` | contracts/multisig/src/lib.rs:106-143 | Initialization accepts exactly distinct, positive, bounded signer sets that can reach their threshold |
| `Quorum.AccumulateIsSetWeight` | contracts/multisig/src/lib.rs:908-933 | The accumulated weight is the weight of the set of caller and signatories, at most the total, refused exactly for strangers or overflow |
| `Quorum.AccumulateOrderInsensitive` | contracts/multisig/src/lib.rs:908-933 | Order and repetition never change the verdict |
| `Quorum.QuorumChecksAgree` | shared/src/validation.rs:90-145 | On duplicate-free lists over a valid signer set the multisig's verdict and verify_quorum's agree |
| `Quorum.VerifyQuorumDecided` | shared/src/validation.rs:90-145 | On every input of equal lengths verify_quorum fails exactly when one of its refusals holds, repeated approvals included, with an error naming one |
| `Quorum.ComputeAccumulatedWeight` | contracts/multisig/src/lib.rs:908-933 | The loop computes the model's accumulation |
| `Quorum.ComputeVerifyQuorum` | shared/src/validation.rs:90-145 | The nested loops compute the model's quorum verdict, error by error |
| `Quorum.ComputeTotalWeight` | contracts/multisig/src/lib.rs:746-756 | The loop computes the checked total weight |
| `MultisigContract.MultiSigContract.Initialize` | contracts/multisig/src/lib.rs:106-142 | Installs a validated signer set once |
| `MultisigContract.MultiSigContract.AddSigner` | contracts/multisig/src/lib.rs:146-180 | Commits the model's admission |
| `MultisigContract.MultiSigContract.RemoveSigner` | contracts/multisig/src/lib.rs:184-202 | Commits the removal only while the threshold stays attainable |
| `MultisigContract.MultiSigContract.SetThreshold` | contracts/multisig/src/lib.rs:207-230 | Commits the parked threshold |
| `MultisigContract.MultiSigContract.FinalizeThreshold` | contracts/multisig/src/lib.rs:235-268 | Commits the parked threshold after its delay, checked against live weights |
| `MultisigContract.MultiSigContract.ProposeChange` | contracts/multisig/src/lib.rs:962-1005 | Commits a governance change with its eta |
| `MultisigContract.MultiSigContract.ExecuteChange` | contracts/multisig/src/lib.rs:348-382 | Commits a re-validated change inside its window |
| `MultisigContract.MultiSigContract.CancelChange` | contracts/multisig/src/lib.rs:390-409 | Commits the cancellation of an open change |
| `MultisigContract.MultiSigContract.SetEmergencyLock` | contracts/multisig/src/lib.rs:413-422 | Commits the lock flag |
| `MultisigContract.MultiSigContract.Propose` | contracts/multisig/src/lib.rs:427-494 | Commits a proposal with its proposer's own approval |
| `MultisigContract.MultiSigContract.Approve` | contracts/multisig/src/lib.rs:500-542 | Commits one approval flag and the live tally |
| `MultisigContract.MultiSigContract.Execute` | contracts/multisig/src/lib.rs:553-579 | Commits the execution when the live tally reaches the threshold and the timelock is over |
| `MultisigContract.MultiSigContract.ExecuteBatch` | contracts/multisig/src/lib.rs:606-678 | Commits the nonce of an authorized batch |
| `MultisigContract.MultiSigContract.VerifyThreshold` | contracts/multisig/src/lib.rs:1254-1274 | Reports the accumulated weight or the first failing check, before initialization too |
| `MultisigContract.MultiSigContract.LiveTally` | contracts/multisig/src/lib.rs:826-841 | The loop over current signers computes the weight of the set of flagged ones |
| `Arith.SplitBpsExact` | contracts/budget/src/lib.rs:1300-1309 | The quotient/remainder form equals the floor of x times bps over 10000 on every non-negative i128 and never overflows |
| `Arith.BudgetRolloverExact` | shared/src/math.rs:700-728 | The rollover is that floor, capped, on every legal input, and never an error |
| `Arith.BudgetRolloverMonotone` | shared/src/math.rs:700-728 | More unspent allowance never rolls over to less |
| `BalanceMaps.MergeThenSubtract` | shared/src/balance.rs:360-383 | Subtracting what was merged restores a zero-free map |
| `BalanceMaps.MergedIsSubtractable` | shared/src/balance.rs:360-383 | A non-negative map that was merged can always be subtracted again |
| `BalanceMaps.MergeInto` | shared/src/balance.rs:360-368 | The loop succeeds, in any visiting order, exactly when all sums fit and the union of keys fits, and then adds every balance |
| `BalanceMaps.SubtractFrom` | shared/src/balance.rs:374-383 | The loop succeeds exactly when every balance suffices, subtracts them and drops zeros |
| `BalanceMaps.SufficientIffSubtractable` | shared/src/balance.rs:389-398 | On non-negative maps ensure_sufficient succeeds exactly when subtract_maps does |
| `BalanceMaps.EnsureSufficient` | shared/src/balance.rs:389-398 | The loop reports InsufficientFunds exactly when some balance is short |
| `BalanceMaps.ReconcileMaps` | shared/src/balance.rs:429-440 | The two loops pass exactly when the books agree at every asset |
| `BalanceMaps.Deltas` | shared/src/balance.rs:448-472 | Succeeds exactly on non-negative books and returns exactly the non-zero differences |
| `BalanceMaps.DeltasExplainTheGap` | shared/src/balance.rs:448-472 | The outside book equals the inside book plus the deltas at every asset |
| `BalanceMaps.ReconcilesIffNoDelta` | shared/src/balance.rs:429-472 | Two books reconcile exactly when there is no delta |
| `BalanceMaps.AggregateRoundTrip` | shared/src/balance.rs:283-341 | Aggregating any listing of a positive map of at most 32 entries gives the map back |
| `BalanceMaps.AggregateMeaning` | shared/src/balance.rs:283-303 | Aggregation sums every asset, keeps no zero entry and at most 32 assets |
| `BalanceMaps.AggregateEntries` | shared/src/balance.rs:283-303 | The loop computes the model's aggregation or its first error |
| `BalanceMaps.ToEntries` | shared/src/balance.rs:337-343 | Lists every entry exactly once |
| `BalanceMaps.BalanceMap.Credit` | shared/src/balance.rs:113-133 | Adds to one balance with the code's refusals and nothing else |
| `BalanceMaps.BalanceMap.Debit` | shared/src/balance.rs:141-161 | Takes from one balance, drops it at zero, and changes nothing else |
| `BalanceMaps.BalanceMap.SetBalance` | shared/src/balance.rs:205-222 | Writes one balance, dropping it at zero, and changes nothing else |

## Left out

- Events, telemetry, storage lifetimes, memos and descriptions: output or plumbing only.
- Authorization and cryptography: callers are taken as authenticated, the host's verdict on each signature is an input, and an invalid signature aborts the call.
- Token contracts: an exact-transfer ledger stands for them; their own error codes and fee-on-transfer tokens are not modelled.
- Escrow token whitelist administration: the whitelist is a set that may change between any two calls.
- Escrow views `is_refundable`, `is_unlocked`, `get_vested_amount` and the like: they repeat guards that are modelled.
- Calls executed by a multisig batch: foreign code, whose verdict is an input.
- Contract upgrades and initialization of the budget and escrow registries.
- Budget views `get_asset_budget`, `asset_remaining`, `rollover_preview`: reads that add no new behaviour.
- The `verify_batch_allowance` family and the alias functions of the shared helpers.
- The proposal and wallet contracts.
- EscrowTheorems.RunInv: stated for runs of at most 2^64 - 1 calls, because the escrow counter is cast to 64 bits and would reuse ids after that; the same bound stands on the run theorems built on it.
- MultisigTheorems.ExecutesAtMostOnce: stated for runs of at most 2^64 - 1 calls for the same reason; so is MultisigTheorems.ChangesAreImmutable.
- BalanceMaps.MergeInto: after a failure the partly updated map is not specified, since the host rolls the invocation back.
- EscrowCalls.CallDecided: when several refusals hold at once it does not fix which of their codes is reported; so do EscrowOpenings.EveryOpeningDecided, BudgetCalls.CallDecided, BudgetAssetCalls.CallDecided and MultisigCalls.CallDecided. The contract methods commit the model, which keeps the order of the code.
