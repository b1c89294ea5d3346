# Money Protocol: verified model

A Dafny model of the Money Protocol, a collateralised stablecoin: borrowers lock RBTC in vaults
and draw BPD, vaults below 110% are liquidated against the Stability Pool or redistributed over the
other vaults. The contracts are modelled in their own integer arithmetic, reverts included; the
redistribution theorem about ordering is proved in exact arithmetic and then measured against the
contracts' rounding; the Python economy is modelled over reals.

| file | what it holds |
|---|---|
| `SortedVaults.dfy` | the doubly linked list of vaults with hints, as a class over pointers |
| `VaultManager.dfy`, `Liquidation.dfy` | vault records, stakes, pending rewards, the two pools, the liquidation case table and batches |
| `LiquidationTable.dfy` | the collateral ratio and that table in amounts of collateral and debt |
| `RecoveryBatch.dfy`, `BatchMode.dfy` | whom a batch closes, by which rule and for what, in which mode, and when the mode changes |
| `BatchReverts.dfy` | exactly when a batch goes through |
| `VaultOperations.dfy` | each vault operation from outside: exactly when it goes through and what it leaves |
| `VaultRuns.dfy` | what holds in every reachable state of that accounting, and where its debt side falls short |
| `VaultContract.dfy` | the same accounting as a class that updates its storage in the order of the source |
| `ExactStakes.dfy` | corrected stakes in exact arithmetic; the sorted list over whole runs |
| `OrderDrift.dfy` | the order of vaults in the contracts' rounded arithmetic: exactly when a liquidation keeps it |
| `RewardDust.dfy` | what rounding leaves in the pools beyond all vaults' entire collateral |
| `StakeRates.dfy` | how near every stake stays to one common rate over whole runs, and the order of vaults from it |
| `OrderSwap.dfy` | a run in which a liquidation swaps two vaults |
| `StakeDrift.dfy` | the off-chain stake simulation and how far rounding takes it from exact stakes |
| `StabilityPool.dfy` | the `P`/`S` tracking of deposits and front-end stakes, as functions and as a class |
| `PoolOperations.dfy` | each Stability Pool transaction and reading from outside, in amounts |
| `PoolRuns.dfy` | sequences of Stability Pool transactions |
| `PoolEpochs.dfy` | where epochs and scales start, and how much of a deposit must be left for it to stay readable |
| `PoolLedger.dfy` | that tracking against a loop over all deposits that never reads `P` or `S` |
| `PoolSlip.dfy` | how close they stay, in the deposits and offsets of a run alone |
| `PoolRefinement.dfy` | that tracking against a ledger cut by the pool's common fraction |
| `PoolWithdrawals.dfy` | exactly when every depositor can withdraw |
| `PoolSolvency.dfy` | what keeps the pool solvent over runs, and how far it can fall short |
| `PoolStakes.dfy` | how far the deposits under a front end can exceed its stake |
| `PoolShortfall.dfy` | three runs after which a depositor cannot withdraw |
| `FuzzDriver.dfy` | the walk from the tail of the sorted list |
| `MacroVaults.dfy`, `MacroMarket.dfy` | the simulated economy: vault phases, arbitrage, redemption, periods |
| `Units.dfy`, `Arithmetic.dfy`, `Sums.dfy` | shared constants, steps of arithmetic and sums over maps |

## Main results

* **Order.** In exact arithmetic every liquidation moves the debt/collateral ratios of all vaults it
  spares by one and the same increasing affine map. So from the empty list on, over any sequence of
  openings, adjustments, closings, liquidations and reward applications, with insertions at any gap that
  brackets the ratio, the sorted list stays sorted although no liquidation re-inserts anything.
  The contracts round stakes and rewards, and there this is false: a concrete run shows a liquidation that
  swaps the NICRs of two vaults nobody touches. A list is sorted after a liquidation exactly when every
  two neighbours are in order at the accumulators as the liquidation will leave them, which can be worked
  out before the call; it is sorted in every state of a run exactly when each liquidation passes. And in
  every reachable state each stake is one common rate times its vault's entire collateral up to a tolerance worked out along the run and bounded by the number of transactions,
  vaults and reward payments; so an NICR that is further ahead than a stated amount is never overtaken
  over any run in which the two vaults are left alone.
* **List.** Whatever the hints, and whether or not the list is sorted, the search ends at neighbours that
  bracket the key, the first it meets from a hint that counts; insertion, removal and re-insertion change exactly one id and keep the links sound
  both ways. Every fitting gap gives the same sequence of ratios, and a sorted list stays sorted.
* **Rewards.** In every reachable state the DefaultPool's collateral covers all pending collateral
  rewards, with the carried remainders and without. The debt side is not always covered:
  `hasPendingRewards` looks at the collateral snapshot alone, so a redistribution that moves only the
  debt accumulator leaves snapshots behind, and a later collateral increase multiplies the pending debt.
  A concrete sequence ends in a vault below the minimum ratio that cannot be liquidated. The condition on
  a redistribution that prevents this is exact, and with it rewards can be applied in any order, with one
  and the same result.
* **Batches.** All of it is stated in amounts of collateral and debt. A batch runs in recovery mode exactly
  when the whole system is worth less than 150% of its debt, and is back in normal mode at a turn exactly
  when, at some point up to it, the system less what had gone to the Stability Pool by then was not. From
  150% up it closes exactly the listed vaults worth less than 110% of their debt, whatever their order and
  repetitions. Below, each turn closes its vault exactly if it is worth less than that, or is below the
  total ratio with its whole debt in the Stability Pool, and it is not the last vault. How each closed
  vault's collateral is divided is determined to the unit: half a percent of what its owner does not keep
  to the liquidator, the part of the offset debt to the Stability Pool, the rest to the other vaults.
  Any batch conserves debt and collateral and leaves the books balanced, and while the rewards are covered
  it goes through exactly when something is closed, not the last vault, the Stability Pool accepts its
  part and there are stakes to redistribute over.
* **Single operations.** Opening, applying rewards, adjusting, closing, retiring and redistributing, and
  every depositor's transaction and reading: exactly when each goes through, and what it leaves, in numbers
  rather than in the functions that compute it.
* **Stability Pool, the loop it stands for.** A ledger that sees only the BPD and RBTC moving, and at each
  offset takes from every deposit its share of the debt and credits it its share of the collateral, adds
  up to exactly what the pool has. Over every run, scale changes and emptied pools included, what the
  contract reads from its snapshots stays within a bound of it. The bound is stated in the deposits, the
  offsets and their number; while the deposit stays in reading it is a rounding for each own transaction
  and about a billionth of the deposit for each offset, and a deposit that goes out of reading can lose
  everything. An emptied pool starts its new epoch at a product of one whole, and a deposit stays in reading
  through any number of offsets as long as the share of it that survives them, less their deviations, is
  worth one unit of the product it was recorded at: 10^-18 of it for one recorded at a whole. Over any number of offsets a deposit keeps the product of the shares that survive each of
  them, up to the sum of their deviations.
* **Stability Pool, withdrawals.** All depositors can withdraw everything exactly when their readings fit
  the pool's BPD, their gains its RBTC, and the readings under each front end that front end's stake; the
  order does not matter. The same condition after an offset is stated in numbers known before it. All
  three can fail, each shown by a run: the deposits exceed the BPD, the gains exceed the RBTC so that not
  even a withdrawal of nothing goes through, or the stake of the null front end is one wei short. The
  guards under which an offset keeps deposits and gains covered are exact, and without them all three
  shortfalls are bounded over every run: that of a stake by what each reading of it loses, one unit or a
  billionth of what was recorded.
* **Economy.** From any sound table of vaults every period of the simulation ends with every vault at
  110% or more at the current price, the partly redeemed one and the arbitrageur's included; the
  redemption loop drops the longest prefix that fits, nobody at a higher recorded ratio than anybody it
  keeps, and never runs out of vaults; liquidity and Stability Pool add up to final debt plus redeemed debt.
  The line each period adds to the table follows from the line and the vaults before it: the price is the
  market's own between 0.99 and 1.11, 1.11 above, and below 0.99 what the redemption leaves, and the fees
  are that price times a hundredth of the debt added by adjusting, opening and minting.

## Where code and documentation differ

The model follows the code.

* README.md:347-355 relies on redistributions keeping the list sorted; with the contracts' rounding two
  vaults can swap (`OrderSwap.RoundingCanSwapTwoVaults`); `OrderDrift.LiquidationKeepsListSorted` says exactly when they do not.
* README.md:771 promises the liquidator 0.5% of the vault's collateral; in the capped branch
  (VaultManager.sol:479-486) it is 0.5% of the collateral offset, that is of 110% of the debt.
* README.md:150-155 leaves out equality of pool and debt below 110%; the code takes the minimum.
* `batchLiquidateVaults` does not take the collateral surplus off its running system collateral
  (VaultManager.sol:722), `liquidateVaults` does (VaultManager.sol:583).
* README.md:864-887 describes `P` and `S` without scale changes; the code reads a deposit as zero after
  two scale changes, and when less than a billionth of it is left (StabilityPool.sol:769-811).
* `errorAccumulationTest.js:861` leaves the system collateral unchanged by a liquidation; in the
  contracts the gas compensation leaves the system.
* `macro_model.py:316` reports, after a partial redemption, the price from before it.

## Model

| member | source | states |
|---|---|---|
| VaultList.InsertThenRemove | packages/contracts/contracts/SortedVaults.sol:167-202 | removing an id just inserted gives the list back, wherever it went |
| VaultList.InsertKeepsDescending | packages/contracts/contracts/SortedVaults.sol:111-155 | insertion at a gap that brackets the NICR keeps the whole list sorted |
| VaultList.SomeGapFits | packages/contracts/contracts/SortedVaults.sol:325-341 | any list, sorted or not, has a gap that brackets a given NICR, and where the first one is |
| VaultList.AnyGapGivesTheSameKeys | README.md:682-688 | a hinted position is as good as any other: all fitting gaps give the same sequence of NICRs |
| VaultList.SpliceRepresents | packages/contracts/contracts/SortedVaults.sol:126-155 | relinking around a new node keeps every forward and backward link right |
| VaultList.UnspliceRepresents | packages/contracts/contracts/SortedVaults.sol:167-202 | so does taking a node out |
| VaultList.SortedVaults.constructor | packages/contracts/contracts/SortedVaults.sol:80-94 | the list starts empty and well linked |
| VaultList.SortedVaults.Contains | packages/contracts/contracts/SortedVaults.sol:229-231 | true exactly of the ids in the list |
| VaultList.SortedVaults.ValidMeansFittingGap | packages/contracts/contracts/SortedVaults.sol:301-317 | the position check accepts exactly the pairs that are neighbours across a bracketing gap |
| VaultList.SortedVaults.DescendList | packages/contracts/contracts/SortedVaults.sol:325-341 | from any start it returns the first bracketing gap downwards, or zeros when there is none |
| VaultList.SortedVaults.AscendList | packages/contracts/contracts/SortedVaults.sol:349-365 | from any start it returns the last bracketing gap upwards, or zeros when there is none |
| VaultList.SortedVaults.FindInsertPosition | packages/contracts/contracts/SortedVaults.sol:377-408 | for arbitrary hints and a list that need not be sorted the search ends at neighbours that bracket the NICR: the first it meets downwards from a left hint that counts, else upwards from a right one, else from the head |
| VaultList.SortedVaults.Splice | packages/contracts/contracts/SortedVaults.sol:128-150 | the four linking cases connect the new node to both neighbours and nothing else |
| VaultList.SortedVaults.LinkIn | packages/contracts/contracts/SortedVaults.sol:126-155 | the id goes in at that gap, nothing else moves |
| VaultList.SortedVaults.Insert | packages/contracts/contracts/SortedVaults.sol:111-155 | each revert condition, and otherwise exactly the new id added at a bracketing gap, the hinted one when that is valid, else where the search from the hints ends; a sorted list stays sorted |
| VaultList.SortedVaults.Unsplice | packages/contracts/contracts/SortedVaults.sol:167-198 | the unlinking cases join the two neighbours |
| VaultList.SortedVaults.Remove | packages/contracts/contracts/SortedVaults.sol:167-202 | takes out exactly the given id, or reports that it is absent |
| VaultList.SortedVaults.ReInsert | packages/contracts/contracts/SortedVaults.sol:211-223 | each revert condition, and otherwise only the vault's own place changes, to the gap that insertion with these hints finds; if the others are sorted all are |
| FuzzDriver.BelowIsASuffix | packages/contracts/fuzzTests/PoolManager_AllDepositorsCanWithdrawTest.js:117-130 | in a sorted list the vaults below 110% are exactly the last ones |
| FuzzDriver.TotalDebtFromUndercollateralizedVaults | packages/contracts/fuzzTests/PoolManager_AllDepositorsCanWithdrawTest.js:117-130 | total debt of all vaults below 110% when `n` covers them, of the `n` lowest otherwise |
| ExactStakes.EntireCollIsProportional | README.md:1035-1047 | entire collateral times total stakes is stake times total collateral, for every active vault |
| ExactStakes.StepKeepsInv | packages/contracts/errorAccumulationTest/errorAccumulationTest.js:853-865 | every operation keeps stakes proportional and the totals the sums |
| ExactStakes.RunKeepsInv | packages/contracts/errorAccumulationTest/errorAccumulationTest.js:845-865 | so does every run |
| ExactStakes.StepExactly | packages/contracts/contracts/VaultManager.sol:1053-1260 | what each operation does to the vault it names, in entire amounts, and that every other record stays |
| ExactStakes.RedistributedInShares | packages/contracts/contracts/VaultManager.sol:1197-1231 | in exact arithmetic a redistribution gives every vault the part of the collateral and of the debt that its collateral is of all collateral |
| ExactStakes.AppliedKeepsEntire | README.md:1031-1033 | in exact arithmetic, applying rewards moves them from pending to recorded and nothing else; VaultAccounts.ApplyMovesNothing says it of the rounded amounts |
| ExactStakes.RedistributedRatio | README.md:1025-1029 | in exact arithmetic, the new debt/collateral ratio as an affine function of the old one, with coefficients that do not depend on the vault; StakeRates.RunKeepsLead says how far rounding departs from it |
| ExactStakes.StepIsAffine | README.md:1027-1033 | one increasing affine map moves the ratios of all vaults an operation spares |
| ExactStakes.RunIsAffine | README.md:1027-1033 | and so does a whole run |
| ExactStakes.OrderPreserved | README.md:347-355 | two vaults not operated on keep their order over every run |
| ExactStakes.ListStepKeepsSorted | README.md:347-355 | each operation, with the list change the contracts make for it, leaves a sorted list of the active vaults |
| ExactStakes.ListStaysSorted | README.md:347-355 | the list is never stale over any run, with any bracketing insertions |
| ExactStakes.SortedFromEmpty | README.md:347-355 | from the empty system on the list holds exactly the active vaults and is sorted, whatever happens |
| OrderDrift.SparedKeepLead | packages/contracts/contracts/VaultManager.sol:1022-1045 | between two states with the same records of two vaults, the lead of one over the other in the ratio of entire amounts grows by a common factor up to the rounding; their stakes stay near one common rate |
| OrderDrift.LeadAndRatios | packages/contracts/contracts/VaultManager.sol:1022-1045 | the lead decides the order of the NICRs, and a gap between the NICRs bounds the lead from below |
| OrderDrift.RatioIsAfter | packages/contracts/contracts/VaultManager.sol:640-679 | a spared vault's NICR after a liquidation, from its record before and the two increments worked out before the call |
| OrderDrift.LiquidationKeepsListSorted | README.md:347-355 | exactly when a list of vaults that a liquidation spares is sorted afterwards, in numbers known before it |
| OrderDrift.RunSortedExactly | README.md:347-355 | exactly when a sorted list of vaults that are left alone is sorted in every state of a run |
| RewardDust.DustStaysSmall | packages/contracts/contracts/VaultManager.sol:1053-1116 | in every reachable state the collateral that belongs to nobody is at most one unit per reward paid and per vault, and the carried remainder |
| StakeRates.StakesStayNear | README.md:1035-1047 | over every run every stake is one common rate times its vault's entire collateral, within the tolerance of the run |
| StakeRates.ToleranceIsSmall | README.md:1035-1047 | from the empty system on, that tolerance in the number of transactions, vaults and reward payments and the smallest collateral a liquidation left |
| StakeRates.RunKeepsLead | README.md:347-355 | from the empty system on, over every run in which two vaults are left alone: the lead grows by a common factor up to rounding, and an NICR far enough ahead is not overtaken |
| StakeRates.RunKeepsListSorted | README.md:347-355 | so a list of vaults that are left alone stays sorted if each is far enough ahead of the next |
| OrderDrift.NewStakeIsNear | packages/contracts/contracts/VaultManager.sol:1179-1195 | a stake just computed is within one unit of the snapshot rate times the collateral |
| OrderSwap.RoundingCanSwapTwoVaults | README.md:347-355 | a run whose one liquidation swaps the NICRs of two vaults that nobody touches |
| StakeDrift.Simulate | packages/contracts/errorAccumulationTest/errorAccumulationTest.js:853-877 | the loop's totals; stakes stay at most collateral and no entrant's stake exceeds its collateral |
| StakeDrift.EntryDrift | packages/contracts/errorAccumulationTest/errorAccumulationTest.js:859-865 | at each entry `S*C' - S'*C` lies in `[0, C)`, so stakes per collateral never rise |
| StakeDrift.DriftIsBounded | packages/contracts/errorAccumulationTest/errorAccumulationTest.js:875-877 | over any rounds the rounded totals stay below the exact ones by a bounded amount per collateral |
| StakeDrift.FinalDifference | packages/contracts/errorAccumulationTest/errorAccumulationTest.js:875-877 | the final gap in total stakes, from equal starts |
| StakeDrift.ContractEnters | packages/contracts/contracts/VaultManager.sol:1168-1195 | just after a liquidation opening a vault in the contract is one entry of the loop |
| VaultAccounts.Carry | packages/contracts/contracts/VaultManager.sol:1210-1218 | quotient times stakes plus remainder is the amount with the previous remainder |
| VaultAccounts.RewardsCovered | packages/contracts/contracts/VaultManager.sol:1093-1116 | with the totals covered nobody's reward exceeds what the DefaultPool holds |
| VaultAccounts.ApplyKeeps | packages/contracts/contracts/VaultManager.sol:1053-1078 | applying rewards keeps the books balanced and the remaining rewards covered |
| VaultAccounts.ApplySucceeds | packages/contracts/contracts/VaultManager.sol:1053-1078 | applying rewards does not revert when they are covered |
| VaultAccounts.ApplyLeavesNothingPending | packages/contracts/contracts/VaultManager.sol:1120-1129 | exactly when applying rewards leaves no debt reward behind |
| VaultAccounts.OpenKeeps | packages/contracts/contracts/BorrowerOperations.sol:190-207 | opening keeps every invariant and gives exactly the amounts asked for, with nothing pending |
| VaultAccounts.AdjustKeeps | packages/contracts/contracts/BorrowerOperations.sol:267-297 | so does adjusting |
| VaultAccounts.CloseKeeps | packages/contracts/contracts/BorrowerOperations.sol:328-349 | so does closing |
| VaultAccounts.ApplyMovesNothing | packages/contracts/contracts/VaultManager.sol:1053-1078 | applying rewards changes nobody's entire debt or collateral, nor the two pools together |
| VaultAccounts.AdjustMovesExactly | packages/contracts/contracts/BorrowerOperations.sol:249-318 | the borrower's entire amounts and the pools move by exactly what was asked, but that a debt reward left behind is recomputed from the new stake; the stake is at the snapshot rate, nobody else is touched |
| VaultAccounts.CloseMovesExactly | packages/contracts/contracts/BorrowerOperations.sol:321-349 | the borrower gets exactly the entire collateral; the pools lose it and exactly the entire debt less a debt reward left behind |
| VaultAccounts.RetireKeeps | packages/contracts/contracts/VaultManager.sol:314-346 | closing for liquidation leaves exactly the vault's entire debt and collateral in the ActivePool |
| VaultAccounts.RetireSucceeds | packages/contracts/contracts/VaultManager.sol:314-346 | and does not revert when rewards are covered and another vault remains |
| VaultAccounts.RedistributionKeepsGaps | packages/contracts/contracts/VaultManager.sol:1197-1231 | with the carried remainders a redistribution loses nothing: pool minus rewards minus remainder is unchanged |
| VaultAccounts.UncorrectedGapDrifts | packages/contracts/contracts/VaultManager.sol:1197-1231 | one redistribution whose remainders are forgotten leaves less than one unit per stake behind, on the safe side, whatever was carried into it |
| VaultAccounts.RedistributionKeepsCoherence | packages/contracts/contracts/VaultManager.sol:1120-1129 | exactly when a redistribution leaves no vault with debt rewards but no collateral rewards |
| VaultOperations.RewardIsFloor | packages/contracts/contracts/VaultManager.sol:1093-1116 | a pending reward is the stake times the growth of the accumulator in units of 10^-18, rounded down |
| VaultOperations.NewStakeIsFloor | packages/contracts/contracts/VaultManager.sol:1180-1195 | a stake is the collateral before the first liquidation, afterwards its part at the snapshot rate, rounded down |
| VaultOperations.OpenExactly | packages/contracts/contracts/BorrowerOperations.sol:156-207 | exactly when a vault can be opened, and its record, stake, snapshots and the pools afterwards |
| VaultOperations.ApplyExactly | packages/contracts/contracts/VaultManager.sol:1053-1078 | exactly when rewards can be applied and for whom that does nothing; otherwise the record and both pools afterwards |
| VaultOperations.AdjustExactly | packages/contracts/contracts/BorrowerOperations.sol:249-318 | exactly when an adjustment goes through, in the entire amounts |
| VaultOperations.CloseExactly | packages/contracts/contracts/BorrowerOperations.sol:321-349 | exactly when a vault can be closed |
| VaultOperations.RetireExactly | packages/contracts/contracts/VaultManager.sol:314-346 | exactly when a vault can be closed for liquidation, and vaults, stakes and pools afterwards |
| VaultOperations.RedistributeExactly | packages/contracts/contracts/VaultManager.sol:1197-1231 | exactly when a redistribution goes through, and both accumulators, remainders and pools afterwards |
| Liquidation.NormalConserves | packages/contracts/contracts/VaultManager.sol:431-463 | the parts sum to what the vault held and the offset is the minimum of debt and pool |
| Liquidation.RecoveryConserves | packages/contracts/contracts/VaultManager.sol:349-424 | the same for every branch of the recovery-mode table |
| Liquidation.MixedOffsetKeepsRatio | README.md:803-809 | a mixed offset splits collateral in the ratio of debt, both halves within one unit |
| Liquidation.CappedWorth | packages/contracts/contracts/VaultManager.sol:467-489 | at or above 110% the collateral taken exists and is worth 110% of the debt, rounded down |
| Liquidation.BatchInv | packages/contracts/contracts/VaultManager.sol:685-769 | at every point of a batch in either mode all values are accounted for |
| Liquidation.FinishKeeps | packages/contracts/contracts/VaultManager.sol:657-678 | if the transaction goes through, the Stability Pool's own offset included, offset, redistribution, surplus and compensation take exactly their amounts; snapshots are those of the new system |
| Liquidation.BatchLiquidateKeeps | packages/contracts/contracts/VaultManager.sol:640-679 | the whole transaction keeps every invariant, conserves debt and collateral, and the Stability Pool takes exactly its part |
| Liquidation.RetireLeavesOthers | packages/contracts/contracts/VaultManager.sol:741-769 | closing one vault changes no other vault's ratio, debt or collateral |
| Liquidation.NormalBatchExact | packages/contracts/contracts/VaultManager.sol:741-769 | a normal-mode batch closes exactly the listed vaults below 110%, once each, and uses up to the whole pool |
| LiquidationTable.RatioIsFloor | packages/contracts/contracts/Dependencies/MoneypMath.sol:102-112 | the collateral ratio is the value of the collateral per debt, rounded down |
| LiquidationTable.NoDebtIsMaximal | packages/contracts/contracts/Dependencies/MoneypMath.sol:108-111 | without debt it is the largest number of 256 bits |
| LiquidationTable.Thresholds | packages/contracts/contracts/Dependencies/MoneypBase.sol:19-25 | below 110%, below 150% and at most 100% in the value of the collateral against the debt |
| LiquidationTable.SplitIsUnique | packages/contracts/contracts/VaultManager.sol:314-346 | the division of a closed vault into the liquidator's half percent, the Stability Pool's part and the rest leaves no choice |
| LiquidationTable.SplitAtTheEnds | packages/contracts/contracts/VaultManager.sol:441-461 | with the whole debt offset all the collateral after compensation goes to the Stability Pool, with none nothing |
| LiquidationTable.NormalSplit | packages/contracts/contracts/VaultManager.sol:333-340 | normal mode offsets as much debt as the Stability Pool has and divides the whole collateral |
| LiquidationTable.RedistributedSplit | packages/contracts/contracts/VaultManager.sol:368-380 | at or below 100% in recovery mode nothing is offset |
| LiquidationTable.CappedSplit | packages/contracts/contracts/VaultManager.sol:467-489 | from 110% up the whole debt is offset and what is divided is worth 110% of it, rounded down; the owner keeps the rest |
| LiquidationTable.RecoverySplit | packages/contracts/contracts/VaultManager.sol:349-426 | the recovery-mode table as a whole: exactly when a vault is closed, and how it is then divided |
| RecoveryBatch.NormalTurn | packages/contracts/contracts/VaultManager.sol:757-769 | a turn in normal mode closes the vault if it is worth less than 110% of its debt, divided so, and otherwise changes nothing |
| RecoveryBatch.RecoveryTurn | packages/contracts/contracts/VaultManager.sol:703-731 | a turn in recovery mode: exactly which vault it closes, by which rule and for what, what is left of the tracked system, and whether that is back in normal mode |
| RecoveryBatch.TracksThroughout | packages/contracts/contracts/VaultManager.sol:731 | at every turn the batch is back in normal mode exactly when the system it tracks is at 150% or more |
| RecoveryBatch.EachTurn | packages/contracts/contracts/VaultManager.sol:685-738 | so every turn of a batch that goes through is one of these |
| BatchMode.ModeIsExact | packages/contracts/contracts/Dependencies/MoneypBase.sol:60-87 | a batch runs in recovery mode exactly when both pools together are worth less than 150% of their debt |
| BatchMode.ReturnIsExact | packages/contracts/contracts/VaultManager.sol:700-733 | the batch is back in normal mode at a turn exactly when at some point up to it the system, less what had gone to the Stability Pool, was at 150% or more |
| BatchMode.BatchCompensates | packages/contracts/contracts/VaultManager.sol:773-788 | over a batch the liquidator gets half a percent of every closed vault's collateral less its surplus, rounded down, and 200 BPD for each |
| BatchMode.NormalModeOutcome | packages/contracts/contracts/VaultManager.sol:640-679 | from 150% up the transaction closes exactly the listed vaults worth less than 110%, offsets their debt as far as the Stability Pool reaches, and what everybody gets of it |
| BatchMode.ClosedByRule | README.md:148-157 | whoever a batch below 150% closes is closed at its turn, by the rule for its amounts |
| BatchMode.LowStaysOnlyLast | packages/contracts/contracts/VaultManager.sol:685-738 | a listed vault worth less than 110% that is still there at the end is the last one |
| BatchMode.RecoveryModeOutcome | packages/contracts/contracts/VaultManager.sol:640-738 | below 150% the transaction closes only listed vaults, each by its rule, changes no other record, and leaves none listed below 110% unless it is the last |
| BatchMode.RecoveryModePayments | packages/contracts/contracts/VaultManager.sol:657-678 | what the Stability Pool, the liquidator and the other vaults then get, and what is left in the pools |
| BatchMode.BatchRedistributes | packages/contracts/contracts/VaultManager.sol:1197-1231 | a batch in either mode spreads what it redistributes over the stakes that are left, remainders carried, and takes new snapshots |
| BatchMode.NobodyHealthyIsClosed | README.md:148-157 | nobody worth 150% or more of its debt is ever closed |
| BatchReverts.NormalTurnReverts | packages/contracts/contracts/VaultManager.sol:757-769 | with covered rewards a turn in normal mode reverts exactly when it would close the last vault |
| BatchReverts.RecoveryTurnGoes | packages/contracts/contracts/VaultManager.sol:703-731 | and one in recovery mode never: the running amounts suffice |
| BatchReverts.NormalBatchReverts | packages/contracts/contracts/VaultManager.sol:741-769 | the loop in normal mode reverts exactly when every vault there is would be closed |
| BatchReverts.RecoveryBatchReverts | packages/contracts/contracts/VaultManager.sol:685-738 | the other loop exactly when, back in normal mode, it would close the last vault |
| BatchReverts.PayOutExactly | packages/contracts/contracts/VaultManager.sol:661-678 | the end of a batch fails only for want of stakes to redistribute over |
| BatchReverts.NormalModeGoes | packages/contracts/contracts/VaultManager.sol:640-679 | exactly when a batch from 150% up goes through |
| BatchReverts.RecoveryModeGoes | packages/contracts/contracts/VaultManager.sol:640-679 | exactly when a batch below 150% does |
| VaultRuns.TransactKeeps | packages/contracts/contracts/VaultManager.sol:640-679 | every transaction, reverting or not, keeps every invariant |
| VaultRuns.Run | packages/contracts/contracts/VaultManager.sol:1047-1260 | every state on every run is valid |
| VaultRuns.GuardedRunStaysDebtSafe | packages/contracts/contracts/VaultManager.sol:1197-1231 | debt rewards stay covered over every run whose redistributions move the collateral accumulator |
| VaultRuns.ApplyAllSucceeds | packages/contracts/contracts/VaultManager.sol:1047-1078 | rewards can be applied in any order, with repetitions, and end in one state |
| VaultRuns.OrderDoesNotMatter | packages/contracts/contracts/VaultManager.sol:1047-1078 | two orders over the same vaults give the same state |
| VaultRuns.CollateralAlwaysCovered | packages/contracts/errorAccumulationTest/errorAccumulationTest.js:278-298 | in every reachable state the DefaultPool covers all collateral rewards together |
| VaultRuns.UncorrectedAlwaysCovered | packages/contracts/errorAccumulationTest/errorAccumulationTest.js:278-298 | so it does over every run in which no remainder is ever carried, and rewards apply in any order if each redistribution moves the collateral accumulator |
| VaultRuns.RewardDifference | packages/contracts/errorAccumulationTest/errorAccumulationTest.js:285-298 | both differences printed by the comparison, ActivePool collateral times accumulator against the DefaultPool, are remainder plus gap; never negative for collateral, nor for debt while its rewards are covered |
| VaultRuns.CoherenceIsExact | packages/contracts/contracts/VaultManager.sol:1120-1129 | covered debt rewards stay covered under every collateral increase exactly when the state is coherent |
| VaultRuns.LaggingVaultOutgrows | packages/contracts/contracts/VaultManager.sol:1168-1195 | a vault whose debt snapshot alone is behind can grow its pending debt beyond the DefaultPool |
| VaultRuns.DebtSideCanFallShort | packages/contracts/contracts/VaultManager.sol:1120-1129 | a run after which a vault below the minimum ratio cannot be liquidated |
| VaultContract.VaultManager.constructor | packages/contracts/contracts/VaultManager.sol:70-126 | the storage starts empty |
| VaultContract.VaultManager.MovePendingRewards | packages/contracts/contracts/VaultManager.sol:801-806 | moves exactly the rewards between the pools, or reverts when the DefaultPool has less |
| VaultContract.VaultManager.ApplyPendingRewards | packages/contracts/contracts/VaultManager.sol:1053-1078 | its effect on the storage is the specification's, reverts included |
| VaultContract.VaultManager.UpdateStakeAndTotalStakes | packages/contracts/contracts/VaultManager.sol:1168-1195 | replaces one stake and adjusts the total by the difference; the assertion on the snapshot |
| VaultContract.VaultManager.OpenVault | packages/contracts/contracts/BorrowerOperations.sol:190-207 | its effect on the storage is the specification's |
| VaultContract.VaultManager.AdjustVault | packages/contracts/contracts/BorrowerOperations.sol:249-318 | its effect on the storage is the specification's |
| VaultContract.VaultManager.RemoveVault | packages/contracts/contracts/VaultManager.sol:1238-1253 | removes stake and record, not of the last vault |
| VaultContract.VaultManager.CloseVault | packages/contracts/contracts/BorrowerOperations.sol:321-349 | its effect on the storage is the specification's |
| VaultContract.VaultManager.RetireVault | packages/contracts/contracts/VaultManager.sol:330-331 | its effect on the storage is the specification's |
| VaultContract.VaultManager.RedistributeDebtAndColl | packages/contracts/contracts/VaultManager.sol:1197-1231 | its effect on the storage is the specification's |
| VaultContract.VaultManager.FinishLiquidation | packages/contracts/contracts/VaultManager.sol:657-678 | its effect on its own storage and on the Stability Pool's is the specification's, or it reverts |
| VaultContract.VaultManager.PayOutLiquidation | packages/contracts/contracts/VaultManager.sol:664-678 | what follows the offset has the effect of the specification |
| VaultContract.VaultManager.BatchLiquidateVaults | packages/contracts/contracts/VaultManager.sol:640-769 | the loops in both modes, with the end of the batch, have the effect of the specification |
| VaultContract.VaultManager.LiquidateInNormal | packages/contracts/contracts/VaultManager.sol:757-769 | one round of the normal-mode loop |
| VaultContract.VaultManager.LiquidateInRecovery | packages/contracts/contracts/VaultManager.sol:703-738 | one round of the recovery-mode loop, also after the system has left recovery mode |
| VaultContract.VaultManager.Transact | packages/contracts/contracts/VaultManager.sol:640-679 | a transaction takes effect or leaves the storage as it was; the storage is valid either way |
| PoolModel.CompoundedIsFloorOfHeld | packages/contracts/contracts/StabilityPool.sol:769-811 | a deposit reads as its exact value rounded down, or zero past two scale changes, an epoch or a billionth |
| PoolModel.GainAtMostOwed | packages/contracts/contracts/StabilityPool.sol:652-671 | a gain paid never exceeds the exact gain |
| PoolModel.LossAtMostOne | packages/contracts/contracts/StabilityPool.sol:546-556 | the loss per unit is at most one and balances the carried remainders exactly |
| PoolModel.OffsetHeld | README.md:811-819 | an offset cuts every live deposit by one and the same fraction, or to nothing when it empties the pool |
| PoolModel.OffsetOwed | README.md:813-819 | an offset credits every live deposit in proportion to what it held before the cut |
| PoolModel.OffsetKeepsValid | packages/contracts/contracts/StabilityPool.sol:506-520 | snapshots handed out earlier stay readable |
| PoolModel.UpdateOthers | packages/contracts/contracts/StabilityPool.sol:864-889 | one depositor's update changes nobody else's deposit or gain |
| PoolModel.UpdateTotals | packages/contracts/contracts/StabilityPool.sol:864-889 | how an update moves the totals of deposits and gains |
| PoolModel.SettledStakes | packages/contracts/contracts/StabilityPool.sol:891-914 | a depositor's transaction changes the compounded stake of its own front end only |
| PoolModel.ScaleBoundary | packages/contracts/contracts/StabilityPool.sol:590-606 | from the scale boundary up `P` never vanishes in one offset, and exactly when it stays at the boundary |
| PoolModel.StabilityPool.constructor | packages/contracts/contracts/StabilityPool.sol:177-226 | the pool starts empty and valid |
| PoolModel.StabilityPool.UpdateDepositAndSnapshots | packages/contracts/contracts/StabilityPool.sol:864-889 | records value and snapshots, or clears both |
| PoolModel.StabilityPool.UpdateFrontEndStakeAndSnapshots | packages/contracts/contracts/StabilityPool.sol:891-914 | records stake and snapshot, or clears both |
| PoolModel.StabilityPool.RegisterFrontEnd | packages/contracts/contracts/StabilityPool.sol:845-856 | registers an address that has no deposit and is not registered, or reverts |
| PoolModel.StabilityPool.ProvideToSP | packages/contracts/contracts/StabilityPool.sol:323-356 | deposit, snapshots, tag and front-end stake take effect as specified or the call reverts and changes nothing |
| PoolModel.StabilityPool.WithdrawFromSP | packages/contracts/contracts/StabilityPool.sol:370-404 | the deposit and the stake of its front end fall by the same amount, or the call reverts and changes nothing |
| PoolModel.StabilityPool.WithdrawRBTCGainToVault | packages/contracts/contracts/StabilityPool.sol:414-452 | the gain leaves, deposit and stake are recorded anew; without a vault, or when the adjustment of the vault at the end fails, it reverts and changes nothing |
| PoolModel.StabilityPool.ComputeRewardsPerUnitStaked | packages/contracts/contracts/StabilityPool.sol:523-562 | gain and loss per unit with both remainders, and when it reverts |
| PoolModel.StabilityPool.UpdateRewardSumAndProduct | packages/contracts/contracts/StabilityPool.sol:565-613 | the three cases of `P`: same scale, next scale, next epoch |
| PoolModel.StabilityPool.OffsetDebt | packages/contracts/contracts/StabilityPool.sol:506-520 | takes effect as specified or reverts and changes nothing |
| PoolOperations.ReadingExactly | packages/contracts/contracts/StabilityPool.sol:769-811 | what a recorded amount reads as, in its snapshot and the product: rounded down, through at most one scale change, and nothing below a billionth |
| PoolOperations.GainExactly | packages/contracts/contracts/StabilityPool.sol:652-671 | what a gain reads as, in the growth of the two sums, rounded down |
| PoolOperations.ProvideExactly | packages/contracts/contracts/StabilityPool.sol:323-356 | exactly when a deposit is accepted; deposits, gains, tags and stakes read as they should afterwards, everybody else's included |
| PoolOperations.WithdrawExactly | packages/contracts/contracts/StabilityPool.sol:370-404 | the same for a withdrawal |
| PoolOperations.ClaimExactly | packages/contracts/contracts/StabilityPool.sol:414-452 | and for moving a gain to a vault |
| PoolOperations.RegisterExactly | packages/contracts/contracts/StabilityPool.sol:845-856 | exactly who can become a front end, and that this changes nothing else |
| PoolOperations.LossExactly | packages/contracts/contracts/StabilityPool.sol:546-556 | the loss per BPD: all of it when the pool is emptied, otherwise rounded up and never exact, the excess carried |
| PoolOperations.NextPExactly | packages/contracts/contracts/StabilityPool.sol:590-606 | the new product, rounded down, and when it moves to the next scale |
| PoolOperations.OffsetExactly | packages/contracts/contracts/StabilityPool.sol:506-613 | exactly when the pool takes an offset, and product, scale, epoch, sums, remainders and balances afterwards |
| PoolEpochs.EmptyingStartsAfresh | packages/contracts/contracts/StabilityPool.sol:594-598 | emptying the pool always goes through and starts a new epoch at a product of one whole, scale 0, with no loss carried |
| PoolEpochs.FirstOfAnEpoch | packages/contracts/contracts/StabilityPool.sol:594-598 | then every older deposit reads as nothing and a new one as it was made |
| PoolEpochs.RunBelowOne | packages/contracts/contracts/StabilityPool.sol:565-613 | over every run the product is at most one whole, and less from the first scale change of an epoch on |
| PoolEpochs.CurrentWhileWorth | packages/contracts/contracts/StabilityPool.sol:781-797 | a deposit whose exact value is at least one unit of the product it was recorded at has seen at most one scale change |
| PoolEpochs.StaysReadable | packages/contracts/contracts/StabilityPool.sol:781-808 | in every reachable state: a deposit stays readable through any offsets that leave it that much, and then reads as the product of the surviving shares within their deviations |
| PoolEpochs.StaysReadableInAmounts | packages/contracts/contracts/StabilityPool.sol:781-808 | the same with the deviations bounded by the number of offsets and the smallest and largest pool they meet |
| PoolRefinement.FastRefinesDirect | packages/contracts/contracts/StabilityPool.sol:565-613 | over every run the snapshots stand for exactly what a ledger holds that cuts every deposit by each offset's own factor and records each depositor's reading |
| PoolRefinement.ReadsTheLedger | packages/contracts/contracts/StabilityPool.sol:741-811 | what the contract reads is that ledger's amount rounded down, with its cutoffs |
| PoolRefinement.CutIsProportional | packages/contracts/contracts/StabilityPool.sol:523-613 | the common fraction of one offset is the share of the pool that survives, up to remainder and one unit of `P` |
| PoolLedger.BooksBalance | README.md:811-819 | over every run the ledger of the loop over all deposits, which never reads `P` or `S`, adds up to exactly the pool's BPD and RBTC |
| PoolLedger.CutIsClose | packages/contracts/contracts/StabilityPool.sol:523-613 | an offset's common fraction is within a stated deviation of the share of the pool that survives it, the emptying one included |
| PoolLedger.RateIsClose | packages/contracts/contracts/StabilityPool.sol:523-562 | its credit per BPD is within a stated deviation of the collateral per BPD |
| PoolLedger.SnapshotsTrackTheLedger | README.md:864-887 | over every run from any state, what the snapshots stand for stays within the slip of the ledger's entry: what readings round away or cutoffs hide, what offsets deviate by and do not credit |
| PoolLedger.TheLoopIsTracked | README.md:811-887 | from the empty pool on, what the contract reads is within the slip of the ledger, and rounds down by less than one unit unless a cutoff applies |
| PoolSlip.ReadingsStayClose | README.md:811-887 | the same with a bound in the largest deposit, the smallest and largest pool offset, the RBTC per BPD and the number of transactions alone; with and without cutoffs |
| PoolLedger.OffsetsKeepTheShare | README.md:815-819 | over any sequence of offsets a deposit keeps the product of the shares that survive each, up to the sum of their deviations |
| PoolSolvency.ProvideStaysSolvent | packages/contracts/contracts/StabilityPool.sol:323-356 | a solvent pool accepts every deposit and stays solvent |
| PoolSolvency.WithdrawStaysSolvent | packages/contracts/contracts/StabilityPool.sol:370-404 | in a solvent pool a withdrawal goes through exactly when the front-end stake covers it; it touches nobody else and the pool stays solvent |
| PoolSolvency.ClaimStaysSolvent | packages/contracts/contracts/StabilityPool.sol:414-452 | the same for moving a gain to a vault |
| PoolWithdrawals.FullWithdrawal | packages/contracts/contracts/StabilityPool.sol:370-404 | exactly when one full withdrawal passes its three subtractions, and what it changes |
| PoolWithdrawals.EveryoneCanWithdraw | packages/contracts/fuzzTests/PoolManager_AllDepositorsCanWithdrawTest.js:167-208 | exactly when all can withdraw everything, whatever the order, and that they get exactly what they read at the start |
| PoolWithdrawals.OffsetLeavesEveryonePaid | packages/contracts/fuzzTests/PoolManager_AllDepositorsCanWithdrawTest.js:167-208 | exactly when they still can after an offset, in numbers known before it |
| PoolSolvency.SolventPays | packages/contracts/fuzzTests/PoolManager_AllDepositorsCanWithdrawTest.js:167-208 | in a solvent pool the deposits fit its BPD and the gains its RBTC |
| PoolSolvency.OffsetKeepsEveryBookCovered | packages/contracts/contracts/StabilityPool.sol:523-562 | the guard is exactly when an offset keeps every set of covered deposits covered |
| PoolSolvency.GrowingRemainderFavoursPool | packages/contracts/contracts/StabilityPool.sol:546-556 | the guard holds whenever the carried remainder does not shrink |
| PoolSolvency.OffsetKeepsGainsCovered | packages/contracts/contracts/StabilityPool.sol:523-562 | exactly when the gains with their remainder are covered by the RBTC after an offset, for every valid pool |
| PoolSolvency.GainsCoveredAfterOffset | packages/contracts/contracts/StabilityPool.sol:523-562 | in particular covered gains stay covered while the deposits that earn do not exceed the pool's BPD |
| PoolSolvency.ShortfallIsBounded | packages/contracts/fuzzTests/PoolManager_AllDepositorsCanWithdrawTest.js:167-208 | in every reachable state deposits exceed the pool by at most the largest pool divided by 10^18 |
| PoolSolvency.GainShortfallIsBounded | packages/contracts/fuzzTests/PoolManager_AllDepositorsCanWithdrawTest.js:167-208 | in every reachable state gains exceed the pool's RBTC by at most what the run credited per BPD times the largest pool divided by 10^18 |
| PoolStakes.StakeShortfallIsBounded | packages/contracts/fuzzTests/PoolManager_AllDepositorsCanWithdrawTest.js:167-208 | in every reachable state the readings under a front end exceed its stake by at most what the readings of that stake have lost |
| PoolStakes.StakeShortfallInUnits | packages/contracts/fuzzTests/PoolManager_AllDepositorsCanWithdrawTest.js:167-208 | so by at most one unit more than the transactions, each a billionth of the largest recorded stake if that is more |
| PoolSolvency.GuardedRunStaysSolvent | packages/contracts/fuzzTests/PoolManager_AllDepositorsCanWithdrawTest.js:167-208 | runs whose offsets pass the guard keep the pool solvent |
| PoolSolvency.EveryoneCanWithdrawAfter | packages/contracts/fuzzTests/PoolManager_AllDepositorsCanWithdrawTest.js:167-208 | after such a run all can withdraw everything, in any order, exactly when each front-end stake covers the deposits tagged with it |
| PoolShortfall.RoundingCanBlockAWithdrawal | packages/contracts/fuzzTests/PoolManager_AllDepositorsCanWithdrawTest.js:167-208 | a run in which the guard fails, the deposit exceeds the pool and its full withdrawal reverts |
| PoolShortfall.RoundingCanBlockEveryPayout | packages/contracts/fuzzTests/PoolManager_AllDepositorsCanWithdrawTest.js:167-208 | a run after which a depositor's gain exceeds the pool's RBTC, so that withdrawals of any amount, deposits and claims all revert |
| PoolShortfall.StakeCanBlockAWithdrawal | packages/contracts/fuzzTests/PoolManager_AllDepositorsCanWithdrawTest.js:167-208 | a run in which every guard on deposits holds and a full withdrawal still reverts, one wei short of front-end stake |
| MacroVaults.LiquidateVaults | packages/contracts/macroModel/macro_model.py:125-138 | exact split of rows, debt and collateral, and the gain; what is liquidated is worth less than 110% of its debt, which bounds the gain |
| MacroVaults.CloseVaults | packages/contracts/macroModel/macro_model.py:167-176 | drops exactly the sampled rows and keeps the others in order; when the reported number is -999 |
| MacroVaults.TriggeredExactly | packages/contracts/macroModel/macro_model.py:188-198 | exactly which rows are adjusted, in the recorded and initial ratios and the inattention |
| MacroVaults.AdjustVaults | packages/contracts/macroModel/macro_model.py:180-203 | triggered rows get exactly their initial ratio back, the others stay, the fee is the rate times the debt added |
| MacroVaults.AdjustedIsBacked | packages/contracts/macroModel/macro_model.py:190-202 | adjusting in either way leaves a row at 110% or more |
| MacroVaults.OpenVaults | packages/contracts/macroModel/macro_model.py:222-242 | every new row has exactly the ratio drawn, now and as the ratio it is adjusted back to, and the quantity and inattention drawn; the fee is the rate times the debt added |
| MacroMarket.SortByRatio | packages/contracts/macroModel/macro_model.py:319 | an ascending arrangement of the same rows |
| MacroMarket.PartlyRedeemedBacked | packages/contracts/macroModel/macro_model.py:329-334 | taking a residual at face value keeps the row sound and does not lower its ratio |
| MacroMarket.LongestPrefixUnique | packages/contracts/macroModel/macro_model.py:319-326 | the number of vaults redeemed is determined by the amount |
| MacroMarket.Redeem | packages/contracts/macroModel/macro_model.py:320-334 | drops the longest prefix that fits, takes the rest from the next vault, never runs out, and debt falls by exactly the amount |
| MacroMarket.RiskiestFirst | packages/contracts/macroModel/macro_model.py:318-334 | the redemption splits the given vaults into dropped and kept, no dropped one at a higher recorded ratio than any kept one, and only the lowest kept one repays the remainder |
| MacroMarket.PriceAndLiquidity | packages/contracts/macroModel/macro_model.py:273-283 | price above or below a bound means liquidity below or above the amount that gives it |
| MacroMarket.CeilingArbitrage | packages/contracts/macroModel/macro_model.py:281-297 | the minted debt is positive, fully backed at 110%, and lands the price exactly on the ceiling |
| MacroMarket.FloorAmount | packages/contracts/macroModel/macro_model.py:301-316 | the redemption is never negative, stays below the liquidity and never lifts the price above the floor |
| MacroMarket.FloorArbitrage | packages/contracts/macroModel/macro_model.py:301-337 | redeems exactly so from the given vaults, riskiest first, with its debt, its fee and the backing of who remains |
| MacroMarket.PriceStabilizer | packages/contracts/macroModel/macro_model.py:261-341 | which of the three cases applies, and price, liquidity, vaults, counts and fees in it; liquidity plus Stability Pool is final debt plus redeemed debt, and every vault stays backed |
| MacroMarket.HealthySurvive | packages/contracts/macroModel/macro_model.py:126-136 | as many vaults survive liquidation as are worth 110% at the new price |
| MacroMarket.LiquidateAndClose | packages/contracts/macroModel/macro_model.py:385-403 | which vaults remain, in which order, that they are backed, and exactly when the sample is impossible |
| MacroMarket.AdjustAndOpen | packages/contracts/macroModel/macro_model.py:407-416 | every vault is adjusted by its own draw, one opened for each draw, and all are backed afterwards; the fees are a hundredth of the debt added |
| MacroMarket.Period | packages/contracts/macroModel/macro_model.py:383-456 | from sound vaults a period ends with all vaults backed at its price and debt conserved; price, liquidity, redemption and fees of its line follow from the line before, and exactly when it ends the simulation or fails |
| MacroMarket.Simulate | packages/contracts/macroModel/macro_model.py:366-456 | the first line, that every later line and table of vaults follows from the one before by one period, and for which of the two reasons it stops; all vaults are backed at the end of each |

## Left out

- ExactStakes.OrderPreserved: stated over reals; with the contracts' rounding it is false, which OrderSwap.RoundingCanSwapTwoVaults shows; the exact condition is OrderDrift.LiquidationKeepsListSorted.
- ExactStakes.RedistributedRatio: stated over reals, for the same reason.
- StakeRates.RunKeepsLead: sufficient from the start of a run alone, the exact condition is OrderDrift.RunSortedExactly; the NICR part asks for positive debts, which the contracts' minimum debt guarantees.
- StakeRates.ToleranceIsSmall: the bound on `share` is in the smallest collateral and the largest remainder that the run's liquidations leave, which are parameters.
- VaultRuns.GuardedRunStaysDebtSafe: a sufficient condition on a run; the exact one for a single redistribution is VaultAccounts.RedistributionKeepsCoherence, for a state VaultRuns.CoherenceIsExact.
- PoolSolvency.GuardedRunStaysSolvent: the guard is checked at every offset, though a run may end solvent without it. The exact condition for one offset is PoolWithdrawals.OffsetLeavesEveryonePaid.
- PoolRefinement.FastRefinesDirect: its ledger takes the common fraction and the recorded values from the pool; PoolLedger compares with one that does not.
- MacroMarket.RiskiestFirst: about recorded ratios; after adjusting they are stale, so redemption need not follow the true ratios.
- MacroMarket.PriceStabilizer: no conservation of collateral, fully redeemed vaults are dropped with their surplus.
- Arithmetic overflow of 256-bit and 128-bit integers: naturals are unbounded here; the contracts revert on overflow.
- Floats, random distributions and seeds of the Python model: reals and arbitrary draws within their range; the demand curve is any positive, strictly decreasing, invertible function.
- Return on the Stability Pool, `stability_update` and `MP_market` in the Python model: the stability pool of each period is an arbitrary nonnegative amount.
- The exponential price draws that could make a price nonpositive: prices are positive.
- Collateral ratio, minimum debt, fee and mode requirements of `BorrowerOperations.sol`: openings and adjustments are arbitrary amounts, which includes all the contract lets through.
- `liquidateVaults(n)` and `liquidate`: the case table and the end of the batch are the same; the walk along the list is not modelled.
- `redeemCollateral`: a partial redemption is an adjustment and a full one a closing; hints, base rate and fees are not modelled.
- `VaultOwners` as an array with swap-removal: only its length, the number of active vaults, is modelled.
- MP rewards of the Stability Pool, kickback rates and the snapshots of `G`.
- Gas compensation in BPD and token balances: computed per vault, the GasPool and the token contracts are not modelled.
- PoolModel.StabilityPool.WithdrawRBTCGainToVault: whether the adjustment of the vault by `moveRBTCGainToVault` goes through is a parameter; what it does to the vault is VaultAccounts.AdjustMovesExactly.
- Access control, events, the price feed and re-entrancy.
