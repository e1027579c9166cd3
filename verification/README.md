# Pole pool: a verified model

The program is a leveraged-yield pool on Solana. Users deposit liquidity; the pool deposits it
at a lending market, borrows against it, deposits the loan, and so on for `port_iterate`
instructions of one transaction. Redeeming goes backwards: each instruction works out, from
scratch and with three roundings per level, what to repay and what to withdraw so that the
instructions still to come stay funded. LP tokens record who owns what, in fixed-point
arithmetic. A verify instruction at the front of a transaction looks ahead through it and opens
a run that the following instructions consume.

The model has three layers.

- **Arithmetic** (`Wad`, `PortRate`, `LpShares`, `Share`, `Leverage`, `Unroll`): scaled
  integers, the market's exchange rate, share prices, a depositor's share, the forward loop
  and the backward recurrence.
- **State machine** (`Ledger`, `Plan`, `Pool`): the accounts, the instructions with the
  look-ahead, and one step function per instruction, with its guards and errors in the
  program's order. `Program` holds the account objects whose fields the instructions update in
  place; each method is proved to agree with its step function, and `ExecuteTransaction` to
  commit or to leave the pool as it was.
- **Theorems over runs** (`UnrollRun`, `RedeemRun`, `Redemption`, `LeverageRun`, `DepositRun`,
  `DepositCredit`, `Residue`, `Atomicity`, `Approved`, `Freshness`, `Upkeep`): whole unrolls, whole
  redeem and deposit runs, whole transactions and whole histories. `Guards` says what each
  guard refuses and with which error; `Instances` holds concrete runs.

`dafny verify dfyconfig.toml` checks the whole project.

## Assumptions

- Decimals and rates are naturals scaled by 10^18; products are exact, quotients truncate.
  Conversions back to u64 fail when they do not fit.
- The market converts liquidity x to floor(x * R / 10^18) collateral and collateral c to
  floor(c * 10^18 / R) liquidity, R > 0 fixed during a transaction. A position is worth its
  collateral's value less its debt. The market takes exactly the amounts it is given, may add
  a fee to a loan (recorded with the instruction), and refuses to give back more than the
  position holds. It may refuse more than that in reality (zero amounts, unhealthy positions):
  the theorems about accepted runs are not affected; the "if" half of the success theorems is
  about the pool's own arithmetic and its wallet.
- The market's loan-to-value is a percentage, at most 100, so what a loan may take of a deposit
  is below 100%. The bounds of `Leverage`, `LeverageRun.LeverageBounded` and
  `DepositCredit.NothingWraps` need that; the theorems about health and conservation do not.
- One pool, top-level instructions, distinct accounts, and nobody else moving the pool's tokens
  during a run. Any error aborts and undoes the whole transaction, which is the runtime's doing
  (`Program.PolePool.ExecuteTransaction` plays its part).
- `amount + pole_init_liquidity` and `available_liquidity * borrow_fraction` are unchecked in
  the source and no Cargo profile turns overflow checks on, so the model wraps them around at
  2^64 and proves when they do not wrap.

## Findings

- The redeemer can be paid more than the exact pro-rata share, before and after the fee,
  contrary to what tests/pole.ts:383 asserts of the amount net of it.
  `Instances.NetPayoutCanExceedWorth` is a run of two steps in a pool of 1236779 USDC, with a fee
  of one percent, that raises the user's wallet by more than 99% of the exact share.
  `LpShares.PayoutExceedsWorthIff` says exactly when the gross payout exceeds the share,
  `Redemption.NetPayoutExceedsWorthIff` when the net one does, and
  `Redemption.UserPaidOverWorthIff` when the user's wallet does over a completed run. The gross
  excess stays below one unit while the pool's worth is within the scaled rate.
- "Deposit then redeem never profits" is not true of every pool:
  `Instances.DepositThenRedeemCanProfit` is a deposit run and the redemption of its tokens,
  which pays out three units more. `DepositCredit.DepositThenRedeemProfitsIff` says exactly
  when it happens, and `DepositCredit.DepositThenRedeemNeverProfits` that it does not while the
  pool's worth is within the scaled rate.
- A deposit run fails at its last step when borrow fees or collateral rounding leave the
  position worth less than when it began, as in `Instances.SmallDepositFailsAtItsClose`.
  `DepositRun.DepositRunIff` gives the condition; outweighing the fees and one unit of
  collateral per step is enough (`DepositRun.EnoughSucceeds`). The program's own assertion of an
  empty wallet (programs/pole/src/lib.rs:284) never fires (`Atomicity.NeverPanics`).
- `create_pool` accepts a reserve percentage up to 20 and `change_min_deposit` any value, but
  every guarded instruction demands less than 10 and more than 10
  (`Atomicity.CreationValidIff`, `Atomicity.MinDepositKeepsValidIff`). A pool on the wrong side
  of either is frozen for ever (`Atomicity.InvalidConfigFreezesForever`).
- A run of two or more steps on a position worth zero is rejected, at its second step at the
  latest, while LP tokens are outstanding: before the deposit (`DepositRun.WorthlessRunStops`), or after the burn
  (`RedeemRun.WorthlessRunStops`). The recorded starting worth doubles as a flag. A redemption
  of the whole supply out of the wallet does go through (`Instances.WholeSupplyCanLeave`).
- The unroll always asks for at least one collateral unit per step more than the matching
  deposits credited, so a position built from nothing cannot be unrolled by all that went in
  (`Residue.WholePositionStays`).
- The look-ahead treats the default key as "no wallet yet"; `Plan.ScanExact` gives what it
  accepts with such keys, `Plan.ScanAccepts` without.
- The comment `leverage <= port_iterate` (programs/pole/src/states.rs:87) is looser than the
  code, which keeps it below, and `min_deposit` is configured but never enforced on a deposit.

## Model

| member | source | states |
|---|---|---|
| PortRate.WithdrawalCovers | programs/pole/src/helpers.rs:58-65 | withdrawing one collateral unit more than the converted amount frees at least that amount and at most floor(10^18/R) more |
| PortRate.PositionValueIs | programs/pole/src/helpers.rs:178-183 | a position has a worth iff its debt is within the exact value of its collateral; the worth is the exact one less under one scaled unit |
| PortRate.ValueRise | programs/pole/src/helpers.rs:178-183 | the rounded worth of the position rises by no more than its exact worth does |
| Unroll.ComputeAmounts | programs/pole/src/helpers.rs:49-71 | the loop yields level m of the recurrence and the withdrawal below it, or the error of the first turn that leaves u64 |
| Unroll.AmountsAfter | programs/pole/src/helpers.rs:54-71 | m turns succeed exactly when, at each of the m levels, the withdrawal, the freed amount plus one and the repayment are below 2^64 |
| Unroll.TurnErrors | programs/pole/src/helpers.rs:58-70 | which of those conversions and additions fails a turn, and with which error |
| Unroll.LevelExact | programs/pole/src/helpers.rs:58-70 | the numbers of a turn: the least withdrawal worth more than the level below, what it frees, and the least repayment of the percentage of one unit more |
| Unroll.LevelAtMost | programs/pole/src/helpers.rs:54-71 | level j is at most u + j * (floor(10^18/R) + 1) |
| Unroll.SmallAmountsFit | programs/pole/src/helpers.rs:54-71 | an amount whose n roundings, and their collateral, are u64 numbers never fails the loop |
| Unroll.RepaymentIsCeiling | programs/pole/src/helpers.rs:67-69 | the repayment is the exact ceiling of the percentage |
| Unroll.SlackBound | programs/pole/src/helpers.rs:54-71 | m levels gain at most m collateral units' worth of rounding |
| Unroll.RepaymentCoversWithdrawal | programs/pole/src/helpers.rs:58-70 | each repayment covers (strictly, for a positive percentage) that percentage of the exact value withdrawn with it |
| UnrollRun.UnrollSucceedsIff | programs/pole/src/helpers.rs:51-97 | the missing induction: an n-step unroll succeeds iff its amounts fit and the position covers the totals; the wallet is never the cause, and ends exactly the target plus the bounded rounding higher |
| UnrollRun.LaterSteps | programs/pole/src/helpers.rs:82-97 | from any step after the first, a wallet that covers the next repayment covers all later ones |
| UnrollRun.StepHealth | programs/pole/src/helpers.rs:73-97 | 100 * debt - percent * collateral value falls at every step after the first and rises at the first by exactly the value withdrawn |
| UnrollRun.RunHealth | programs/pole/src/helpers.rs:73-97 | after any number of steps it has risen by no more than the first withdrawal |
| UnrollRun.WithinRatioIff | programs/pole/src/helpers.rs:73-97 | exactly when the position is within any given ratio after k steps, on figures known before the run |
| UnrollRun.ReserveCoversFirstWithdrawal | programs/pole/src/lib.rs:388-391 | the reserve percentage keeps the loan within the market's ratio after step k, while it outweighs the first withdrawal on the collateral that k steps leave, known beforehand |
| UnrollRun.RunLoss | programs/pole/src/helpers.rs:73-97 | n steps lose at least zero and less than n units of exact assets |
| Residue.WholePositionStays | programs/pole/src/helpers.rs:24-71 | a position built from nothing cannot be unrolled by the whole amount that went in |
| Leverage.GeometricBound | programs/pole/src/helpers.rs:23-34 | the amount at step k is at most a0 * (f/100)^k and less than 100/(100-f) below it |
| Leverage.NoWrapIffFirstFits | programs/pole/src/helpers.rs:33 | no product of a run wraps around iff the first does not |
| Leverage.BorrowedWraps | programs/pole/src/helpers.rs:33 | what is borrowed when the product does wrap around |
| Wad.Wrapping | programs/pole/src/lib.rs:233-234 | what the unchecked sum and product come to when they leave u64 |
| Leverage.DepositsBounded | programs/pole/src/helpers.rs:23-35 | (100-f) * deposits stays within 100 * a0 and 100 * loans within f * deposits, whatever wraps |
| LeverageRun.LeverageRunIs | programs/pole/src/helpers.rs:15-37 | a leverage run never fails and leaves an empty wallet and exactly this position |
| LeverageRun.StepConserves | programs/pole/src/helpers.rs:23-35 | one step loses exactly its fee and less than one collateral unit of exact assets |
| LeverageRun.LeverageConserves | programs/pole/src/helpers.rs:23-35 | after every number of steps equity is conserved but for the fees so far and at most one collateral unit per deposit |
| LeverageRun.LeverageBounded | programs/pole/src/helpers.rs:23-35 | after every number of steps (100-f) * value of the collateral gained is at most 100 * the starting wallet, and 100 * loans at most f * deposits |
| LeverageRun.StepHealth | programs/pole/src/helpers.rs:23-35 | one step, its borrow included, raises 100 * debt - f * collateral value by no more than its fee and the exact remainder of its deposit, so never when both are zero |
| LeverageRun.LeverageHealth | programs/pole/src/helpers.rs:23-35 | after every number of steps, borrows included, it has risen by no more than the fees so far and one collateral unit per deposit |
| LpShares.RedeemBoundedBothSides | programs/pole/src/states.rs:112-132 | two-sided bound on every payout, with no side condition |
| LpShares.RedeemWithinOneUnit | programs/pole/src/states.rs:112-132 | when assets are within the scaled rate, every holder is paid strictly within one unit of the exact share |
| LpShares.WholeSupplyPaidExactly | programs/pole/src/lib.rs:348-352 | redeeming the whole supply of a pool of L units pays exactly L iff (LP * 10^18) mod L is below the rate |
| LpShares.SmallPoolPaidExactly | programs/pole/src/lib.rs:348-352 | it does whenever L is within the rate |
| LpShares.PayoutReachesIff | programs/pole/src/states.rs:127-132 | the payout comes to at least x units iff the rate's remainder reaches from the exact worth to x |
| LpShares.PayoutExceedsWorthIff | programs/pole/src/lib.rs:348-352 | the payout exceeds the exact share iff the rate's remainder reaches the distance to the next unit |
| LpShares.PayoutCanExceedWorth | programs/pole/src/lib.rs:348-352 | a concrete overpayment inside the accuracy condition |
| LpShares.MintNeverDilutes | programs/pole/src/lib.rs:297-301 | at a mint the other holders' worth per token does not fall |
| LpShares.RoundTripProfitsIff | programs/pole/src/lib.rs:297-301 | redeeming the minted tokens gives more than the gain iff the rate's remainder reaches the unit after it |
| LpShares.MintThenRedeemNeverProfits | programs/pole/src/lib.rs:297-301 | it never does within the accuracy condition |
| LpShares.RoundTripCanProfit | programs/pole/src/states.rs:127-132 | a concrete profit outside the accuracy condition |
| LpShares.FirstDepositorOwnsLeftovers | programs/pole/src/states.rs:113-114 | with no tokens outstanding the depositor can take all whole leftover units, and exactly the gain from a clean pool |
| Plan.ScanPlan | programs/pole/src/lib.rs:111-150 | both look-ahead loops compute the scan, error by error |
| Plan.ScanExact | programs/pole/src/lib.rs:160-205 | what the look-ahead accepts, exactly, default keys included |
| Plan.ScanAccepts | programs/pole/src/lib.rs:114-150 | without default keys: the next n pole instructions exist, are of one kind, share one wallet, only the first has an amount |
| Plan.ScanError | programs/pole/src/lib.rs:115-150 | the first unacceptable instruction, or their running out, decides the error |
| Program.PortState.Reset | programs/pole/src/states.rs:98-108 | clears everything but the slot of the last sale |
| Program.PolePool.CreatePool | programs/pole/src/lib.rs:37-85 | a new pool, or the configuration error |
| Program.PolePool.VerifyDeposit | programs/pole/src/lib.rs:108-155 | agrees with the step: flag and approved wallet set, or the scan's error |
| Program.PolePool.VerifyRedeem | programs/pole/src/lib.rs:157-210 | the same for redemptions |
| Program.PolePool.PortLendingLeveraging | programs/pole/src/helpers.rs:15-37 | agrees with one leverage turn on the accounts |
| Program.PolePool.PortLendingUnroll | programs/pole/src/helpers.rs:39-99 | agrees with one unroll step on the accounts |
| Program.PolePool.DepositLiquidity | programs/pole/src/lib.rs:213-328 | agrees with the deposit step, errors included |
| Program.PolePool.CloseDeposit | programs/pole/src/lib.rs:277-326 | agrees with the credit, mint and reset |
| Program.PolePool.RedeemLiquidity | programs/pole/src/lib.rs:332-468 | agrees with the redeem step, errors included |
| Program.PolePool.OpenRedeem | programs/pole/src/lib.rs:335-373 | agrees with the pricing and the burn |
| Program.PolePool.PayRedeem | programs/pole/src/lib.rs:412-452 | agrees with the fee and the payout |
| Program.PolePool.ClaimAndSell | programs/pole/src/lib.rs:471-517 | guarded; records the slot, adds the proceeds |
| Program.PolePool.ChangeLiquidityCap | programs/pole/src/lib.rs:537-541 | guarded; refuses a cap below one million |
| Program.PolePool.ChangeWithdrawFee | programs/pole/src/lib.rs:544-548 | guarded; sets the fee |
| Program.PolePool.ChangeMinDeposit | programs/pole/src/lib.rs:551-555 | guarded; sets any value |
| Atomicity.TransactionEndsIdle | programs/pole/src/lib.rs:108-210 | a successful transaction that starts idle ends idle |
| Atomicity.RunIsSteps | programs/pole/src/lib.rs:108-210 | a transaction is its steps in order, each seeing what follows it, and fails with the first error |
| Atomicity.FlagsExclude | programs/pole/src/helpers.rs:149-152 | the two verify flags are never both set, even in the middle of a transaction that fails later |
| Atomicity.NeverPanics | programs/pole/src/lib.rs:284-289 | the assertion of an empty wallet never fires, from any state, in any transaction |
| Atomicity.UnpaidRunsUnroll | programs/pole/src/lib.rs:375-413 | a begun and unpaid redeem run has something to unroll |
| Atomicity.StepKeepsSafe | programs/pole/src/lib.rs:152-466 | the invariant behind them: idle, or on a plan that the rest of the transaction completes |
| Atomicity.CreatedPoolsStayIdle | programs/pole/src/helpers.rs:133-175 | over every history: clean between transactions, LP record equal to the mint, valid iff percentage < 10 and minimum > 10 |
| Atomicity.CreationValidIff | programs/pole/src/instructions.rs:57 | a new pool is valid iff its reserve percentage is below 10 |
| Atomicity.MinDepositKeepsValidIff | programs/pole/src/lib.rs:551-555 | the setter keeps the pool valid iff the value is above 10 |
| Atomicity.InvalidConfigFreezes | programs/pole/src/helpers.rs:135-136 | no successful transaction changes a pool with an invalid configuration |
| Atomicity.InvalidConfigFreezesForever | programs/pole/src/helpers.rs:135-136 | nor does any history |
| Approved.VerifyApproves | programs/pole/src/lib.rs:143-154 | an accepted look-ahead sets its flag, approves the wallet of the last step it counted, and touches nothing else |
| Approved.VerifyIff | programs/pole/src/lib.rs:111-154 | a look-ahead is accepted iff the next n instructions are approvable, whatever else the pool holds |
| Approved.AcceptedStep | programs/pole/src/instructions.rs:183-219 | an accepted step uses the approved wallet, has its own flag and not the other, and an amount exactly when it is first |
| Approved.ApprovedRunIsComplete | programs/pole/src/lib.rs:143-154 | what follows an accepted verify in a successful transaction is exactly one complete run of its kind by the approved wallet |
| Approved.VerifiedRunIs | programs/pole/src/lib.rs:108-210 | verify and n steps, other programs' instructions in between, run as the steps do with their wallet approved, or fail if they are not one run |
| Approved.DepositTransactionIff | programs/pole/src/lib.rs:108-328 | exactly when a whole deposit transaction succeeds from a clean, valid pool |
| Approved.RedeemTransactionIff | programs/pole/src/lib.rs:157-468 | exactly when a whole redeem transaction does |
| Approved.RunSkipsForeign | programs/pole/src/lib.rs:115-142 | instructions of other programs in between change nothing |
| RedeemRun.OpeningIs | programs/pole/src/lib.rs:335-373 | exactly when a redemption opens (worth defined, price not zero, payout within u64, tokens there) and what it records |
| RedeemRun.RedeemRunIff | programs/pole/src/lib.rs:332-468 | exactly when a whole redeem run succeeds, in conditions on its first state, and the whole state it leaves |
| RedeemRun.CoveredRedemptionSucceeds | programs/pole/src/lib.rs:332-468 | a small redemption from a position that covers its unroll succeeds |
| Redemption.OneBurnOnePayout | programs/pole/src/lib.rs:334-466 | at every point of a run: step 0 alone burns; wallets and fee are untouched up to the paying step (0 if nothing is unrolled, else the last), final after it, and the flag rises there; fee and payout add up to the redeemed amount |
| Redemption.RedeemRunConserves | programs/pole/src/lib.rs:354-451 | the wallet keeps its spare liquidity plus at most n roundings; exact assets fall by the redeemed amount and less than n units |
| Redemption.OthersKeepTheirShare | programs/pole/src/lib.rs:348-451 | within the accuracy condition the remaining holders keep their exact share of the exact assets, less at most n + 1 and plus at most 2 units |
| Redemption.NetPayoutExceedsWorthIff | programs/pole/src/lib.rs:412-421 | the payout less the fee exceeds the exact share less the fee's rate iff the rate's remainder reaches the gross payout behind the next net unit |
| Redemption.UserPaidOverWorthIff | programs/pole/src/lib.rs:348-452 | the same of the rise of the user's wallet over a completed run, for every pool |
| Redemption.EveryRunIsAccepted | programs/pole/src/lib.rs:332-468 | what the theorems about accepted redemptions ask for holds of every redeem run that succeeds |
| Instances.NetPayoutCanExceedWorth | programs/pole/src/lib.rs:332-468 | an accepted run of two steps with a real unroll whose user gets more than 99% of the exact share at a fee of one percent |
| RedeemRun.WorthlessRunStops | programs/pole/src/helpers.rs:154-173 | a longer run on a worthless position is stopped at its second step unless it burns the whole supply |
| Instances.WholeSupplyCanLeave | programs/pole/src/helpers.rs:154-173 | an accepted longer run on a worthless position that burns the whole supply |
| RedeemRun.FeeAffordable | programs/pole/src/lib.rs:412-421 | the fee is the exact ceiling of its rate and never exceeds the payout |
| DepositRun.DepositRunIff | programs/pole/src/lib.rs:213-328 | exactly when a whole deposit run succeeds, in conditions on its first state and its fees: sale, opening, recorded worth, a worth at the end no smaller than at the start, tokens that fit |
| DepositRun.CloseIff | programs/pole/src/lib.rs:277-306 | of all the checks of the close only three can fail: no worth, a worth below the recorded one, tokens beyond u64 |
| DepositRun.EnoughSucceeds | programs/pole/src/lib.rs:277-306 | a deposit that outweighs the fees and one collateral unit per step closes whenever its tokens fit, and always for the first depositor |
| DepositRun.WorthlessRunStops | programs/pole/src/helpers.rs:154-173 | with tokens outstanding a longer run on a worthless position is stopped at its second step |
| Instances.SmallDepositFailsAtItsClose | programs/pole/src/lib.rs:291-294 | a deposit of two steps whose first is accepted and whose last fails, because the position fell from 4000 units to 3999 |
| DepositRun.OpeningIs | programs/pole/src/lib.rs:215-250 | exactly when a deposit opens and what it records; the cap makes the unchecked sum exact |
| DepositCredit.EveryRunIsAccepted | programs/pole/src/lib.rs:213-328 | what the theorems about accepted deposits ask for holds of every deposit run that succeeds |
| DepositCredit.DepositorCredit | programs/pole/src/lib.rs:291-296 | no deposit credits more than was paid in; an exact rise misses it by at most the total over 10^18, rounded up |
| DepositCredit.DepositNeverDilutes | programs/pole/src/lib.rs:278-306 | worth per token does not fall, nor below its starting position value |
| DepositCredit.IdleIsShared | programs/pole/src/lib.rs:233-234 | the idle liquidity swept in is shared: the others keep per token the position's worth and its part of the rise |
| DepositCredit.RisesByTotal | programs/pole/src/lib.rs:236-296 | the worth rises by all that went in, less fees, one collateral unit per step and one scaled unit |
| DepositCredit.OthersKeepTheirPrice | programs/pole/src/lib.rs:233-306 | a deposit leaves every token what it was priced at, idle liquidity included, but for the idle part of that cost |
| DepositCredit.EndsBelowCap | programs/pole/src/lib.rs:225-231 | a completed deposit ends worth less than the cap of its first step |
| DepositCredit.NothingWraps | programs/pole/src/lib.rs:233-234 | the sum never wraps; the products wrap iff the first does; a cap of (2^64-1)/100 suffices |
| DepositCredit.DepositMoves | programs/pole/src/lib.rs:236-320 | the whole final state of a completed deposit: wallets, tokens, position, cleared run state, and nothing else changed |
| DepositCredit.DepositConserves | programs/pole/src/lib.rs:236-289 | exact assets rise by the amount less fees and at most one collateral unit per step |
| DepositCredit.DepositThenRedeemProfitsIff | programs/pole/src/lib.rs:291-354 | depositing and redeeming the minted tokens is priced above the credit, or above the amount paid in, iff the rate's remainder reaches the unit after it |
| DepositCredit.DepositThenRedeemNeverProfits | programs/pole/src/lib.rs:291-354 | within the accuracy condition it never gives back more than was paid in |
| Instances.DepositThenRedeemCanProfit | programs/pole/src/lib.rs:213-468 | a whole deposit run and a whole redemption of its tokens that leave the user three units richer |
| Instances.TwoStepDepositIsAccepted | programs/pole/src/lib.rs:213-328 | an accepted deposit of two steps with a loan in between |
| Instances.FirstDeposit | programs/pole/src/lib.rs:37-328 | a pool from its creation and the whole transaction of its first deposit |
| Instances.RedeemedInTime | programs/pole/src/instructions.rs:209 | its tokens redeemed in a later transaction 50 slots after, and refused at 51 |
| Freshness.RecordedSlot | programs/pole/src/lib.rs:316-320 | only a sale and a first completed deposit change the recorded slot; no reset erases it |
| Freshness.AcceptedStepsAreFresh | programs/pole/src/instructions.rs:170 | after the first completed deposit every accepted step is at most 50 slots after a sale or that completion |
| Freshness.FreshStepsPass | programs/pole/src/instructions.rs:209 | the converse: within 50 slots of a refresh no step is refused for want of a sale |
| Freshness.HistoryIsTrace | programs/pole/src/lib.rs:37-85 | the committed instructions of every history of a created pool are such a trace |
| Guards.FreshIff | programs/pole/src/instructions.rs:209 | a sale is fresh for exactly 50 slots, and the error on either side |
| Guards.DepositRefused | programs/pole/src/instructions.rs:170-186 | which condition refuses a deposit step, with which error |
| Guards.RedeemRefused | programs/pole/src/instructions.rs:209-219 | which condition refuses a redeem step, with which error |
| Guards.DepositOpeningRefused | programs/pole/src/lib.rs:215-250 | why a deposit does not open |
| Guards.RedeemOpeningRefused | programs/pole/src/lib.rs:335-373 | why a redemption does not open |
| Guards.CloseRefused | programs/pole/src/lib.rs:277-306 | why a deposit does not close |
| Guards.UnrollRefused | programs/pole/src/helpers.rs:51-97 | why an unroll step fails, in the order of its checks |
| Guards.RatioRefused | programs/pole/src/lib.rs:252-268 | a reserve above the loan-to-value stops every turn and every unroll |
| Guards.PayoutRefused | programs/pole/src/lib.rs:412-452 | a payout fails exactly for want of liquidity |
| Upkeep.CreationIs | programs/pole/src/instructions.rs:55-58 | which parameters make a pool, and the whole pool they make |
| Upkeep.SaleIs | programs/pole/src/lib.rs:470-517 | a sale goes through on every valid pool; the proceeds and the slot are all it changes |
| Upkeep.SaleEnriches | programs/pole/src/lib.rs:470-517 | exact assets and price basis rise by exactly the proceeds, tokens and position stay |
| Upkeep.SaleReachesHolders | programs/pole/src/lib.rs:348-354 | what a holder can redeem after a sale: the old worth and the holder's part of the proceeds, up to the rate's remainder |
| Upkeep.IdlePoolsCanSell | programs/pole/src/lib.rs:470-517 | after every history a sale succeeds iff the configuration is valid |
| Upkeep.SettersAre | programs/pole/src/lib.rs:519-555 | when a setter is accepted, with which error not, and that it changes its own field only |
| Upkeep.StepSets | programs/pole/src/lib.rs:519-555 | no instruction but its own setter changes a field of the configuration |
| Upkeep.HistorySets | programs/pole/src/lib.rs:519-555 | over every history the configuration is what the committed setters make of it |
| Upkeep.LastSetterDecides | programs/pole/src/lib.rs:519-555 | the last setter of a field decides its value |
| Upkeep.UnsetStays | programs/pole/src/lib.rs:519-555 | a field nobody sets stays; bump, iterate and reserve always do |

## Left out

- Token, staking and swap programs, account ownership, derived addresses, signers: no state of the pool's own. Keys that are only compared with configured keys are not modelled.
- The lending market's own refusals, interest inside a transaction, and the staleness flags of reserve and obligation: they depend on port_anchor_adaptor and the lending program, which are not part of this model.
- Repaying more than is owed: the market is assumed to refuse it rather than to take less.
- Overflow inside the maths library (192- and 128-bit) beyond the final conversions.
- The reward claim and the swap of `claim_and_sell`: any proceeds, with the slot update.
- Several pools in one transaction and calls through other programs: the look-ahead does not see which pool an instruction names.
- Malformed instruction data: such an instruction fails the look-ahead like any instruction of this program it does not expect.
- `change_owner`, `change_fee_receiver`, `init_port_accounts`, user balances and events: one instruction with no effect on the modelled state.
- UnrollRun.ReserveCoversFirstWithdrawal: a sufficient condition in terms of the reserve; UnrollRun.WithinRatioIff is the exact one.
