# funded.app in Dafny

A model of the parts of the funded.app launchpad where a mistake costs money or consent, with
proofs about every input and every run. `dafny verify dfyconfig.toml` checks all of it.

The project has five groups of modules.

* **Exact money.** `CumulativeFloor`, `AgencyRouter` and `MintRouter` are the cumulative-floor
  splits of the fee routers and the ledgers decoded against them, `PolicyBytes` is the account
  layout and `PolicyConditions` the acceptance in plain fields. `LargestRemainder` and
  `DistributionPolicy` are the creator-fee claim and its settlement map. `AutomaticRewards` is the
  time-weighted holder pool, `Portfolio` the first-in first-out profit calculation.
* **Merkle manifests.** `MerkleTree` is the shared construction, `RewardMerkle` and
  `CommunityMerkle` the two manifests. Leaves and inner nodes are real byte strings; the hash is a
  parameter, and soundness assumes only that nothing hashed while building the tree and verifying
  the claim collides.
* **Never pay twice.** `Chain` is the chain as a client meets it: a finalized height, transactions
  that land at most once and only up to their last valid height, and reads that may fail, lag or
  omit. `DeveloperRelease` and `AdminWithdrawals` are state machines over it; `LaunchExecutor` and
  `LaunchJournal` run a launch plan against a wallet, an RPC and a storage that may all misbehave.
* **Client concurrency.** `WalletSignIn`, `PilotConsent`, `RoutePolling` and `FollowingFeed`. A
  stretch of code between two awaits is one atomic step; the theorems are about every interleaving.
* **Amounts and history.** `DecimalText`, `ExactSolUnits`, `ReceiptExport` and `FundedBurn` read and
  print amounts; `TradeRoundTrip` walks a paged account history.

State that the source updates in place is a class whose methods are tied to a pure step function;
the invariants and run theorems are about that function. `Arith`, `Bytes` and `Wrappers` are shared
helpers.

Lamports, token units and weights are integers of the width the source gives them; percentages are
integer multiples of the ten-thousandth the source validates; lot quantities and prices are exact
reals.

## What the proofs found

* A middle category can lose a lamport when the settled total grows: with the published weights the
  operations target is 1 lamport at a total of 8 and 0 at 9 (`AgencyRouter.InnerTargetCanFall`), so a
  ledger that was accepted can stop being so (`AgencyRouter.AcceptedThenRefused`).
  `CumulativeFloor.ShrinksExactlyOnCarry` says exactly when, and `AgencyRouter.GrowthAcceptance`
  says exactly when an accepted ledger is still accepted after more is settled.
* The dust threshold changes a sale exactly when the sale reaches a lot boundary with no more than
  the threshold left to sell, or stops with less than it left in a lot (`Portfolio.ExactIffClear`).
  That never happens to tokens of at most nine decimals, and from ten on the sale of one raw unit
  is not matched at all (`Portfolio.AlwaysRefinesIffAtMostNine`, `Portfolio.TenDecimalsLoseAUnit`).
  What is dropped is accounted for in tokens and cost either way (`Portfolio.LotsConserved`).
* Payouts leave a remainder below the number of weighted wallets exactly when some wallet has
  weight; without one the whole pool is the remainder (`AutomaticRewards.PoolConserved`).
* A revoke can commit without deleting anything. When a read of the same tab fails while the
  revoke waits for its turn, the failure starts a new generation, the revoke's action finds itself
  stale, and the transaction raises the epoch and leaves the record
  (`PilotConsent.RevokeCanLeaveTheRecord`). `PilotConsent.RevokeRemovesUnlessOvertaken` says exactly
  when a revoke deletes. The tab that revoked stays stopped, but other tabs go on recording.
* The verdict that a developer release expired is true when the node's signature history is
  complete (`DeveloperRelease.ExpiredVerdictIsTrue`) and can be wrong when it is not
  (`DeveloperRelease.ExpiredVerdictCanBeWrong`). Even then, giving a release up still
  means that it had already landed or never will (`DeveloperRelease.GivenUpNeverLands`).
* Launch recovery advice is right for plans of any length, because an unfinished step writes fewer
  events than the journal keeps per launch (`LaunchExecutor.RecoveryNeverMisleads`).

## Model

| member | source | states |
|---|---|---|
| `CumulativeFloor.RunningTargets` | agency-mint-router-v3.js:33-38 | The one-pass split with a running weight and prior boundary pays every category the difference of its two floored boundaries. |
| `CumulativeFloor.SliceTargets` | mint-router-v3.js:149-154 | The slice-and-reduce split computes the same shares, so the two verifiers' targets are equal. |
| `CumulativeFloor.PartialSum` | agency-mint-router-v3.js:37 | The shares telescope: any prefix of them adds up to its boundary. |
| `CumulativeFloor.Conserved` | agency-mint-router-v3.js:33-38 | The shares add up to the whole amount. |
| `CumulativeFloor.WithinOne` | agency-mint-router-v3.js:37 | Every share is the floor of its exact fraction or one more, and strictly within one lamport of it. |
| `CumulativeFloor.BoundaryMono` | agency-mint-router-v3.js:37 | No prefix boundary moves back as the total grows. |
| `CumulativeFloor.DropAtMostOne` | agency-mint-router-v3.js:37 | A share never falls by more than one lamport, however large the growth. |
| `CumulativeFloor.FirstNeverShrinks` | agency-mint-router-v3.js:33-38 | A share with nothing in front of it never shrinks. |
| `CumulativeFloor.LastNeverShrinks` | agency-mint-router-v3.js:33-38 | A share with nothing behind it never shrinks. |
| `CumulativeFloor.ShrinksExactlyOnCarry` | agency-mint-router-v3.js:37 | A share shrinks if and only if its lower boundary carries and its upper one does not while both advance by the same number of whole lamports. |
| `CumulativeFloor.EqualPartsNeverShrink` | agency-mint-router-v3.js:40-44 | Splitting among at most three equal parts never takes a lamport back. |
| `CumulativeFloor.SettlementStep` | agency-mint-router-v3.js:70-76 | Released amounts exceed the targets after growth by at most one lamport, only strictly between first and last, and only where all of the old target was released. |
| `AgencyRouter.AgencyCategoryTargets` | agency-mint-router-v3.js:33-38 | The eight category targets, or the error for categories that do not total 20 percent or an amount outside 64 bits. |
| `AgencyRouter.AgencyAgentTargets` | agency-mint-router-v3.js:40-44 | The three agent targets of a selection mask, or its errors. |
| `AgencyRouter.AgentTargetsConserve` | agency-mint-router-v3.js:40-44 | Agent targets add up to the agency share, or are all zero for an empty selection. |
| `AgencyRouter.AgentTargetsNeverShrink` | agency-mint-router-v3.js:40-44 | No agent's target ever shrinks as the agency share grows. |
| `AgencyRouter.DecodeAgencyPolicyV3` | agency-mint-router-v3.js:61-85 | An account is accepted if and only if layout, identity, rates, ledger and agent activity all agree, and then its fields are returned. |
| `AgencyRouter.AcceptedLedgerConserves` | agency-mint-router-v3.js:69-81 | In an accepted ledger paid adds up to settled, withdrawn is within paid, directed and agent targets add up to their shares, and nothing was spent for an empty selection. |
| `AgencyRouter.GrowthAcceptance` | agency-mint-router-v3.js:70-81 | After further settlement an accepted ledger is accepted if and only if the six inner categories and the inner directed share still cover what was withdrawn; nothing else can fail. |
| `AgencyRouter.RefusedExactlyOnCarry` | agency-mint-router-v3.js:70-81 | Growth refuses an accepted ledger if and only if an inner category, or the inner directed share, is released in full and its boundary carries; a condition on the old ledger and the growth alone. |
| `AgencyRouter.HeadroomSurvivesGrowth` | agency-mint-router-v3.js:70-81 | One lamport left in every inner position keeps the ledger acceptable for any growth. |
| `AgencyRouter.InnerTargetCanFall` | agency-mint-router-v3.js:33-38 | With the published weights the operations target falls from 1 to 0 between the totals 8 and 9. |
| `AgencyRouter.AcceptedThenRefused` | agency-mint-router-v3.js:70-76 | A concrete ledger meets every condition at a total of 8 and, with one lamport more settled and nothing else changed, no longer does. |
| `PolicyConditions.AcceptsWrittenOut` | agency-mint-router-v3.js:61-81 | Exactly which accounts the decoder accepts, in decoded fields: plain cumulative shares for categories, directed shares and agents, bits of the two masks, and promotion time, count and agent one agreeing. |
| `PolicyBytes.ReadsWritten` | agency-mint-router-v3.js:65-69 | Reading a written account gives the policy back, field by field. |
| `PolicyBytes.AcceptsWritten` | agency-mint-router-v3.js:61-81 | A written account is accepted if and only if its money and activity conditions agree. |
| `PolicyBytes.AcceptedBytesThenRefused` | agency-mint-router-v3.js:61-81 | Concrete account bytes are accepted, and refused when nothing but one more lamport is settled. |
| `MintRouter.VerifyProtectedLedger` | mint-router-v3.js:131-161 | A protected ledger is accepted if and only if rates, sums, withdrawals and directed releases agree. |
| `MintRouter.VerifiersAgreeOnDirectedShares` | mint-router-v3.js:145-160 | Directed shares that either verifier accepts conserve the creator share, and releases stay within it. |
| `PolicyConditions.ProtectedWrittenOut` | mint-router-v3.js:131-160 | Exactly which protected ledgers verify, counter by counter in plain arithmetic. |
| `LargestRemainder.AllocateLamports` | distribution-policy.js:182-192 | Largest-remainder apportionment; the leftover loop never runs past the list. |
| `LargestRemainder.RemaindersTotal` | distribution-policy.js:186-188 | The fractional parts add up to exactly the lamports left over. |
| `LargestRemainder.LeftoverReachesOnlyRemainders` | distribution-policy.js:188-190 | The leftover is below the number of recipients and reaches only recipients with a fractional part. |
| `LargestRemainder.LargerRateFirst` | distribution-policy.js:189-190 | A larger rate never gets less than a smaller one. |
| `LargestRemainder.AllocationShape` | distribution-policy.js:186-191 | Each amount is the floor of its share, or the ceiling where the share is not whole; a zero rate gets nothing. |
| `LargestRemainder.AllocationIsFair` | distribution-policy.js:182-192 | All of it at once, for every gross and every rate list that has a positive total: conserved, floor or ceiling, nothing at rate zero, ordered by rate. |
| `LargestRemainder.LeftoverOrder` | distribution-policy.js:189-190 | Who receives the lamports left over: larger fractional part first, then larger rate, then earlier position. |
| `DistributionPolicy.CalculateCreatorFeeClaim` | distribution-policy.js:194-246 | The full claim or its error; the "every lamport exactly once" error is never the answer. |
| `DistributionPolicy.EveryLamportOnce` | distribution-policy.js:220-225 | All obligations of a claim add up to exactly its gross. |
| `DistributionPolicy.AcceptedRequests` | distribution-policy.js:194-199 | Exactly which requests are accepted, in the fields of the request. |
| `DistributionPolicy.EachDestinationItsShare` | distribution-policy.js:202-209 | Each destination of an accepted claim receives the floor or the ceiling of gross times its own percentage over the rate total. |
| `DistributionPolicy.ReferralsByRecipient` | distribution-policy.js:210-222 | Each referral level is claimable by its own recipient, or its amount goes to community. |
| `DistributionPolicy.MissingReferralsMoveOnlyToCommunity` | distribution-policy.js:210-222 | Changing who refers moves money only between referral payouts and community; every other destination and every level's amount stays. |
| `DistributionPolicy.ClaimLedger.SettleCreatorFeeClaim` | distribution-policy.js:248-260 | Settling answers the stored result for a known signature, an error without change for a bad one, and otherwise stores and answers the new result. |
| `DistributionPolicy.SettledOnceWithFirstResult` | distribution-policy.js:249-259 | Over any history a signature is settled if and only if some call with it succeeded, with the result of the first such call. |
| `DistributionPolicy.CreatedOnce` | distribution-policy.js:251-258 | Over any history exactly one call creates each settled signature's entry. |
| `DistributionPolicy.HistoryConserves` | distribution-policy.js:194-260 | Over any history of calls with repeats the obligations owed add up to the gross of the distinct settled signatures. |
| `DistributionPolicy.RepeatAnswersFirstResult` | distribution-policy.js:251 | A repeated call answers the first result and changes nothing. |
| `AutomaticRewards.HoldingWeights` | automatic-rewards.js:53-71 | Accepts exactly the valid periods and returns the accumulated, filtered, sorted weights. |
| `AutomaticRewards.AccumulatesIntegral` | automatic-rewards.js:57-69 | After any number of snapshots a wallet's weight is the second-by-second sum of what it held so far. |
| `AutomaticRewards.WeightsAreIntegrals` | automatic-rewards.js:53-71 | Published weights are positive, one per wallet, and equal the integral of the balance step function over the period. |
| `AutomaticRewards.AcceptedPeriods` | automatic-rewards.js:53-67 | Exactly which periods are accepted, in their fields. |
| `AutomaticRewards.PublishedWeights` | automatic-rewards.js:60-70 | An excluded wallet has no weight; any other has its whole holding in each snapshot but the last times the seconds to the next; wallets stand in ascending order. |
| `AutomaticRewards.ConstantSupplyTotal` | automatic-rewards.js:51-71 | With a constant snapshot supply and no exclusions the weights add up to supply times period. |
| `AutomaticRewards.AddRowsTwice` | automatic-rewards.js:61-68 | Holding the same rows for two durations is holding them for their sum, for the whole table and its order. |
| `AutomaticRewards.RedundantSnapshotChangesNothing` | automatic-rewards.js:51-71 | Inserting a repeat of a snapshot at a later second leaves the published weights exactly as they were. |
| `AutomaticRewards.AllocateHolderPool` | automatic-rewards.js:74-84 | Pro-rata payouts and the retained remainder, or an error for a missing or repeated recipient. |
| `AutomaticRewards.PoolConserved` | automatic-rewards.js:73-83 | Payouts and remainder make up the pool; the remainder is below the number of weighted wallets if and only if there is any weight. |
| `AutomaticRewards.PaidByWeight` | automatic-rewards.js:74-84 | Paid are exactly the wallets with a positive floored part by weight, each that part; the remainder is what these payments leave. |
| `AutomaticRewards.SplittingNeverPays` | automatic-rewards.js:81-82 | Moving part of a wallet's weight to a new wallet never raises the joint payout and changes nobody else's. |
| `MerkleTree.PairPreimageUnordered` | community-merkle.js:13 | Two pairs hash the same bytes if and only if they are the same unordered pair. |
| `MerkleTree.SmallerFirst` | reward-merkle.js:38-40 | Of two different hashes the one that is smaller at their first differing byte is hashed first, either way round. |
| `MerkleTree.SmallTrees` | reward-merkle.js:57-64 | The roots of one, two and three leaves as nested hashes, the odd third leaf promoted. |
| `MerkleTree.BuildNext` | community-merkle.js:54-55 | One level up: pairs hashed in order, an odd last node promoted. |
| `MerkleTree.BuildLevels` | community-merkle.js:52-57 | The level loop builds the whole tree, ending with the root. |
| `MerkleTree.BuildProof` | community-merkle.js:59-65 | The proof loop collects the existing siblings from the leaf up. |
| `MerkleTree.FoldProof` | community-merkle.js:20-22 | The verification loop folds the siblings into the node, one pair hash each. |
| `MerkleTree.RootIsLastLevel` | reward-merkle.js:79 | The single node of the last level is the recursively defined root. |
| `MerkleTree.ProofsVerify` | reward-merkle.js:58-73 | Completeness for every hash: each leaf's emitted proof folds to the root, promoted odd nodes included. |
| `MerkleTree.ProofIsShort` | reward-merkle.js:65-72 | A proof in a tree of at most 2^d leaves has at most d nodes. |
| `MerkleTree.ChainMeetsLevel` | community-merkle.js:19-23 | Any chain from a hashed leaf to the root passes through every level of the tree and from there follows the emitted proof. |
| `MerkleTree.AcceptsExactlyEmittedProofs` | community-merkle.js:19-23 | A leaf and a proof of any length and content reach the root if and only if the leaf is in the tree and the proof is the emitted one. |
| `RewardMerkle.PreimageInjective` | reward-merkle.js:33-36 | A reward leaf's bytes determine cycle, asset, recipient, amount and index. |
| `RewardMerkle.PreimageLayout` | reward-merkle.js:33-36 | What is where in a leaf: domain text, cycle, recipient, asset, amount and index, little-endian. |
| `RewardMerkle.BuildRewardManifest` | reward-merkle.js:47-83 | Succeeds exactly for a non-empty list of distinct recipients with encodable positive amounts, and returns that list's manifest. |
| `RewardMerkle.AcceptedAllocations` | reward-merkle.js:47-56 | Exactly which allocation lists are accepted, in their fields. |
| `RewardMerkle.ManifestLists` | reward-merkle.js:64-82 | The manifest lists the allocations in order with their own index, recipient and amount, and their total. |
| `RewardMerkle.VerifyRewardProof` | reward-merkle.js:85-89 | The verdict of folding a claim's leaf with its proof, or an error for what cannot be encoded. |
| `RewardMerkle.VerifyOutcome` | reward-merkle.js:85-89 | Which error a malformed claim, proof or root gets, and otherwise whether the fold of the leaf is the root. |
| `RewardMerkle.VerifiesExactlyItsLeaves` | reward-merkle.js:85-89 | A claim verifies against a manifest's root if and only if it is that manifest's leaf at that index with its emitted proof. |
| `CommunityMerkle.PreimageInjective` | community-merkle.js:15-17 | A community leaf's bytes determine drop, recipient, amount and index. |
| `CommunityMerkle.PreimageLayout` | community-merkle.js:15-17 | What is where in a leaf: domain text, drop, recipient, amount and index, little-endian. |
| `CommunityMerkle.DropWeightsAreBalances` | community-merkle.js:37-45 | Every weight is a positive snapshot balance of a wallet that is not excluded. |
| `CommunityMerkle.AllocationsAreProRata` | community-merkle.js:44-47 | Allocations and remainder make up the amount, and each allocation is the floor of a holder's share of the eligible balances. |
| `CommunityMerkle.EveryHolderIsAllocated` | community-merkle.js:45-47 | The converse: every holder who is not excluded and whose share reaches one unit is allocated exactly that share, and no wallet twice. |
| `CommunityMerkle.BuildCommunityManifest` | community-merkle.js:28-72 | Succeeds exactly for a covered, finalized, exact-slot snapshot with something payable, and returns its manifest. |
| `CommunityMerkle.AcceptedSnapshots` | community-merkle.js:28-47 | Exactly which snapshots are accepted, in their fields. |
| `CommunityMerkle.ManifestLists` | community-merkle.js:50-71 | The manifest lists the allocations in order with their own index, recipient and amount, and their total. |
| `CommunityMerkle.VerifyCommunityProof` | community-merkle.js:19-23 | The verdict of folding a claim's leaf with its proof, or an error for what cannot be encoded. |
| `CommunityMerkle.VerifyOutcome` | community-merkle.js:19-25 | Which error a malformed claim, proof or root gets, and otherwise whether the fold of the leaf is the root. |
| `CommunityMerkle.VerifiesExactlyItsLeaves` | community-merkle.js:19-23 | A claim verifies against a manifest's root if and only if it is that manifest's leaf at that index with its emitted proof. |
| `Portfolio.SortIsStable` | portfolio-model.js:24 | Trades are ordered by time and trades of one time keep their order; none is lost or added. |
| `Portfolio.MatchSale` | portfolio-model.js:33-45 | The queue loop of one sale. |
| `Portfolio.SaleIsInterval` | portfolio-model.js:33-45 | A sale takes the next interval of cumulative purchases, charges exactly that interval's cost, and drops less than the dust threshold, only after a complete match. |
| `Portfolio.DropConserves` | portfolio-model.js:37-45 | Removing the first tokens leaves the rest of the tokens and the rest of the cost. |
| `Portfolio.DropDrop` | portfolio-model.js:37-45 | Consecutive sales take consecutive intervals: two removals are one, and their costs add up. |
| `Portfolio.ExactIffClear` | portfolio-model.js:37-45 | A sale matches exactly all it can, at its exact cost, and loses nothing, if and only if the threshold stays out of every lot boundary it reaches. |
| `Portfolio.MatchedTradePnl` | portfolio-model.js:20-54 | The whole calculation: sort, skip unusable trades, run every queue. |
| `Portfolio.PurchasesOpenLots` | portfolio-model.js:25-32 | Unusable trades change nothing; a purchase opens one lot behind the others, of its raw amount in tokens and at its whole price. |
| `Portfolio.ProfitIsProceedsLessBasis` | portfolio-model.js:46-49 | Over every trade sequence profit plus basis charged is the matched part of the proceeds, sell by sell, and the sales counted are those that matched anything. |
| `Portfolio.BuyAndSellProfit` | portfolio-model.js:25-50 | Buying and then selling any raw amounts of a token of at most nine decimals gives the matched share of what was received less that of what was paid; equal amounts give the plain difference. |
| `Portfolio.RefinesIffClear` | portfolio-model.js:20-54 | For every trade sequence and every decimals, profit, matched sales, queues and basis agree with the interval reference after every trade if and only if the threshold stays out of every sale. |
| `Portfolio.QueueRefinesIntervals` | portfolio-model.js:20-54 | They always agree for tokens of at most nine decimals. |
| `Portfolio.AlwaysRefinesIffAtMostNine` | portfolio-model.js:28-29 | Every trade sequence over given tokens agrees if and only if none of them has ten or more decimals. |
| `Portfolio.SaleTakesNextInterval` | portfolio-model.js:33-45 | A sale of any quantity takes the next interval of all purchases, is charged exactly its cost, and then drops less than the threshold, at that cost. |
| `Portfolio.LotsConserved` | portfolio-model.js:20-54 | For every trade sequence and every decimals, per mint: bought is matched, dropped or left in lots, its cost is basis, lost with the drops or left, and each sell drops at most the threshold. |
| `Portfolio.NineDropNothing` | portfolio-model.js:37-44 | With at most nine decimals nothing is dropped and no cost is lost. |
| `Portfolio.TenDecimalsLoseAUnit` | portfolio-model.js:37 | For any token of ten or more decimals, the sale of a single raw unit just bought is not matched, and the reference matches it. |
| `Chain.ExpiredNeverLands` | developer-token-release.js:11-16 | A transaction past its last valid height that has not landed never lands later. |
| `DeveloperRelease.ReleaseClient.Release` | developer-token-release.js:36-46 | Starting a release: a stored receipt is reconciled, otherwise the checks before signing begin. |
| `DeveloperRelease.ReleaseClient.Verify` | developer-token-release.js:8-35 | Every segment of reconciling a receipt, with its verdicts. |
| `DeveloperRelease.ReleaseClient.Proceed` | developer-token-release.js:47-61 | Every segment of signing, persisting, sending and confirming; what is sent was persisted first. |
| `DeveloperRelease.AtMostOneLive` | developer-token-release.js:36-62 | In every run at most one release can still land, and none while the wallet is asked to sign a new one. |
| `DeveloperRelease.GivenUpNeverLands` | developer-token-release.js:43-44 | A receipt is removed only when its transaction has landed or can never land. |
| `DeveloperRelease.VerdictMeaning` | developer-token-release.js:8-35 | In every run a released or failed verdict is the finalized outcome of the stored receipt, an expired one says its last valid height is past, each drops the receipt; pending and an exception keep what is stored. |
| `DeveloperRelease.ReconciliationDecides` | developer-token-release.js:39-46 | From any world with a stored receipt, a call whose reads show its outcome ends with the right verdict, without asking the wallet. |
| `DeveloperRelease.SentOnlyReviewed` | developer-token-release.js:47-57 | In every run a release is sent only as the wallet's own signature of the reviewed message, stored first, with nothing stored before, after the network, wallet and block hash were read. |
| `DeveloperRelease.ExpiredVerdictIsTrue` | developer-token-release.js:11-16 | With complete signature history the verdict "expired, unlanded" is never followed by a landing. |
| `DeveloperRelease.ExpiredVerdictCanBeWrong` | developer-token-release.js:11-16 | With incomplete history a run ends with the verdict "expired" for a release that has landed. |
| `AdminWithdrawals.WithdrawalPanel.Click` | admin-withdrawals.js:36-38 | What each control starts, guarded by `busy` and `pending`. |
| `AdminWithdrawals.WithdrawalPanel.Withdraw` | admin-withdrawals.js:38-72 | Every segment of the submit handler; the transfer is saved before it is sent. |
| `AdminWithdrawals.WithdrawalPanel.Check` | admin-withdrawals.js:76-89 | Every segment of checking the pending transfer, with its two ways to drop one. |
| `AdminWithdrawals.WithdrawalPanel.Record` | admin-withdrawals.js:27-34 | Recording a receipt drops the pending transfer only when the signatures agree and the session is current. |
| `AdminWithdrawals.AtMostOneLive` | admin-withdrawals.js:35-73 | In every run, reloads and session changes included, at most one transfer can still land, and none from review until the next is saved. |
| `AdminWithdrawals.DroppedNeverLands` | admin-withdrawals.js:76-89 | A pending transfer is dropped only when it has landed or can never land. |
| `AdminWithdrawals.DropMeaning` | admin-withdrawals.js:27-34 | In every run the pending transfer is dropped only in the current session, because its exact receipt was verified, it failed on chain, or it was not found more than 32 blocks past its last valid height. |
| `AdminWithdrawals.PendingIsSettled` | admin-withdrawals.js:76-89 | The converse: with replies that come through, asking after a pending transfer drops it once it has landed, failed, or been absent for 33 blocks past its last valid height. |
| `AdminWithdrawals.SentOnlyReviewed` | admin-withdrawals.js:42-61 | In every run a transfer is sent only as its own saved row on a valid block hash, after plan, confirmation, network, wallet and the signature of that message, each in the current session. |
| `AdminWithdrawals.WithdrawalGoesOut` | admin-withdrawals.js:38-61 | The converse: with nothing pending these replies send a fresh transfer, and it is the one that may land. |
| `AdminWithdrawals.ExpiredDropIsTrue` | admin-withdrawals.js:80-87 | With complete history a transfer dropped as expired never lands at all. |
| `LaunchJournal.Journal.RecordLaunchEvent` | launch-journal.js:18-28 | Recording replaces the launch's row at the end of the journal, or leaves the journal alone when storage refuses. |
| `LaunchJournal.RecordedIsFound` | launch-journal.js:18-23 | What was recorded is what the next read finds, however full the journal is. |
| `LaunchJournal.RecordsItsRow` | launch-journal.js:18-28 | An event of a known launch moves its one row to the end, with the new state, the last known signature and the last sixty events; the other rows keep their order. |
| `LaunchJournal.RecordsNewRow` | launch-journal.js:18-28 | A launch's first event adds a row at the end; from fifty rows on the oldest give way. |
| `LaunchExecutor.Settle` | launch-executor.js:43-64 | Everything after the send: reconcile the same signature, never send again. |
| `LaunchExecutor.ExecuteStep` | launch-executor.js:10-66 | One step against an adversarial wallet, RPC and storage: its exact sequence of journal entries and sends. |
| `LaunchExecutor.ExecuteLaunchPlan` | launch-executor.js:7-69 | The loop: completes if and only if every step is finalized without error and its confirmation stored. |
| `LaunchExecutor.PlanSendsOnce` | launch-executor.js:33-65 | Each step is sent at most once, only as reviewed and directly after its stored "broadcasting" entry; a sent step is never journaled cancelled, and failed only if it failed on chain. |
| `LaunchExecutor.StepOutcome` | launch-executor.js:23-65 | Exactly which journal entries one step makes, in the fields of the wallet, RPC and storage replies. |
| `LaunchExecutor.SentExactlyAsReviewed` | launch-executor.js:26-43 | A step of a plan is sent if and only if all before it settled and its own replies are good: signed, well formed, the reviewed message, valid signatures, within the packet limit, current, ready and journaled. |
| `LaunchExecutor.WhatIsSent` | launch-executor.js:31-43 | Whatever a plan sends is the wallet's signed form of the step's reviewed message with valid signatures, within the packet limit. |
| `LaunchExecutor.NextStepAfterFinalized` | launch-executor.js:46-62 | A step does anything at all only after every earlier step was finalized without error. |
| `LaunchExecutor.RowEvents` | launch-journal.js:18-23 | Replaying any log leaves the row with the last sixty of all its events, and the state of the last. |
| `LaunchExecutor.RecoveryNeverMisleads` | launch-journal.js:29-35 | Whenever the page dies, over any earlier journal, the advice never says "no confirmed outcome" for a sent step not known to have failed. |
| `WalletSignIn.SignIn.BeginEnsure` | wallet-signin.js:13-46 | Entering `ensure`: answer, wait for the pending task, or become the pending task. |
| `WalletSignIn.SignIn.ResumeWaiter` | wallet-signin.js:16-26 | A waiter takes over the prior task's outcome or tries again. |
| `WalletSignIn.SignIn.ResumeSignIn` | wallet-signin.js:29-45 | Every segment of a sign-in task. |
| `WalletSignIn.SignIn.RememberReply` | wallet-signin.js:7-12 | A reply is remembered if and only if it confirms this address. |
| `WalletSignIn.SignIn.Logout` | wallet-signin.js:51-64 | Logging out forgets at once and queues behind the pending task. |
| `WalletSignIn.SignIn.ResumeLogout` | wallet-signin.js:55-60 | A log-out forgets again when its turn comes, before asking the server. |
| `WalletSignIn.SignIn.Finish` | wallet-signin.js:46-48 | A settled owner clears `pending` only if it is still its own. |
| `WalletSignIn.OneSequenceAtATime` | wallet-signin.js:13-64 | In every interleaving at most one task has requests under way, every later one waits for its predecessor, and `pending` is the tail of that chain. |
| `WalletSignIn.LogoutForgets` | wallet-signin.js:51-64 | When a log-out completes nothing is remembered, whatever sign-ins were in flight. |
| `WalletSignIn.TrueOnlyIfConfirmed` | wallet-signin.js:13-49 | `ensure` returns true only for an address, provider and version the server confirmed at some time. |
| `WalletSignIn.TrueOnServersWord` | wallet-signin.js:7-45 | Behind every true answer there is an event at which the server answered a task of that session, still current, that it is authenticated under that address. |
| `WalletSignIn.SignedOnlyWhenAsked` | wallet-signin.js:30-40 | In every run the wallet is asked to sign only for an interactive call, after the server did not know the address, it can sign, and the server sent a usable message, in this order. |
| `WalletSignIn.InteractiveNeverFalse` | wallet-signin.js:16-34 | In every interleaving an interactive call, waiting ones included, never returns false: it returns true or throws. |
| `WalletSignIn.HowEnsureStarts` | wallet-signin.js:13-46 | In every run, how a call begins: an outdated session throws, what is remembered for more than five seconds answers, a pending task is waited for, and otherwise the check starts. |
| `WalletSignIn.HowWaitersResume` | wallet-signin.js:16-27 | In every run, which outcomes a waiting call takes over and when it starts over. |
| `WalletSignIn.SignInCompletes` | wallet-signin.js:28-48 | From every reachable state with nothing pending or remembered, four good replies sign in and the call returns true. |
| `WalletSignIn.TrueOnlyIfConfirmedSinceLogout` | wallet-signin.js:13-64 | A call entered after a log-out settled returns true only for a session the server confirmed after that log-out. |
| `PilotConsent.PilotTab.ReadCurrent` | pilot-metrics-model.js:52-63 | Reading the record this tab follows: its own participant with a matching grant, or nothing, blocking the tab on any mismatch. |
| `PilotConsent.PilotTab.EnableRecording` | pilot-metrics-model.js:74-86 | Opting in keeps a consenting record of the same profile, refuses a conflicting one, and otherwise starts a new record with its grant. |
| `PilotConsent.PilotTab.Ask` | pilot-metrics.js:89-126 | What each action remembers when it is asked: generation, participant, expected epoch. |
| `PilotConsent.PilotTab.Answer` | pilot-metrics.js:60-88 | What a tab learns from a finished transaction, and when it reads again. |
| `PilotConsent.PilotDatabase.Transact` | pilot-storage.js:73-122 | One serialized transaction, committed or not: epoch fence, action, epoch increment and legacy clean-up. |
| `PilotConsent.ActionEffect` | pilot-metrics-model.js:49-99 | No action breaks "a record implies its grant"; only an opt-in creates a record, only a revoke removes it, and only its own participant's events change it. |
| `PilotConsent.StepEffect` | pilot-storage.js:93-120 | What any single step of any tab can do to the database and the epoch. |
| `PilotConsent.EpochCountsRevokes` | pilot-storage.js:106-112 | Over every interleaving a record implies its grant, and the epoch is exactly the number of committed revokes. |
| `PilotConsent.OptInFence` | pilot-storage.js:100-101 | An opt-in commits only if no revoke committed since its epoch was read. |
| `PilotConsent.OnlyOptInRestores` | pilot-storage.js:93-114 | Once no record is stored, only a committed opt-in asked for at the current epoch brings one back; events and legacy import never do. |
| `PilotConsent.RevokeRemovesUnlessOvertaken` | pilot-metrics.js:60-110 | A committed revoke always raises the epoch; it leaves no record if and only if, since it was asked, its tab asked no other revoke and took no aborted answer of its current generation; otherwise it leaves what was stored as it was. |
| `PilotConsent.RevokeCanLeaveTheRecord` | pilot-metrics.js:74-76 | In a run with a single revoke, a re-read of the same tab that fails while the revoke is queued makes it commit and leave the record. |
| `PilotConsent.AbortedNeverWrites` | pilot-storage.js:83-120 | In every run, an aborted or refused transaction changes neither the database nor the legacy storage, and its request writes at no other time. |
| `PilotConsent.CommittedEventIsStored` | pilot-metrics-model.js:37-45 | In every run a committed event for the stored participant is last in the stored record, unless it repeats one of that day or the record is full; the first one beyond 2000 only marks it full. |
| `PilotConsent.ForeignEventStoresNothing` | pilot-metrics-model.js:52-73 | In every run an event from a stopped or outdated tab, or for another participant or record, stores nothing. |
| `PilotConsent.OptInStores` | pilot-metrics-model.js:74-86 | In every run what a committed opt-in leaves: a new record with just its event, the event added to a record of the same profile, or a record of another profile untouched. |
| `PilotConsent.LegacyImport` | pilot-storage.js:8-15 | The first read imports a legacy record exactly if its consent names it, or is absent and the record predates the second format; afterwards legacy storage says off. |
| `PilotConsent.ShownWasStored` | pilot-metrics.js:60-88 | In every interleaving a record that a tab shows was stored, exactly so, at some time of the run. |
| `RoutePolling.RoutePoller.ScheduleTimer` | route-polling.js:7-10 | The remembered timer is cancelled and, while awake, a new one armed and remembered. |
| `RoutePolling.RoutePoller.OnTimer` | route-polling.js:11-15 | A tick starts a run only when awake, active and not running. |
| `RoutePolling.RoutePoller.OnRunEnded` | route-polling.js:16-23 | The end of a run: failures, back-off, and the remembered refresh. |
| `RoutePolling.RoutePoller.OnChanged` | route-polling.js:25-30 | What coming back, leaving or navigating does. |
| `RoutePolling.NoWakeUpLost` | route-polling.js:3-43 | In every reachable state at most one run and one timer exist, and an awake poller has one of them. |
| `RoutePolling.AlwaysPollsAgain` | route-polling.js:11-24 | From every reachable awake state the poller is at most two events away from a fresh run. |
| `RoutePolling.StoppedForGood` | route-polling.js:35-40 | After `stop` no run starts again. |
| `RoutePolling.RetryWithinCap` | route-polling.js:20-22 | In every run, the delay armed when a run of the poller ends is within the back-off cap. |
| `RoutePolling.DelayAfterRun` | route-polling.js:16-23 | Over every history the delay after a run is none if a refresh is due, and otherwise the interval doubled per failure since the last good run, eight times at most, within the cap. |
| `RoutePolling.HowRoutesChange` | route-polling.js:25-30 | In every run what is armed, aborted and remembered on leaving, returning and navigating. |
| `RoutePolling.HowPagesComeAndGo` | route-polling.js:31-40 | In every run a page that goes away polls nothing until it is shown, and a stopped one never reacts. |
| `RoutePolling.ReturnIsRemembered` | route-polling.js:25-29 | Coming back while an aborted run unwinds arms the next poll without delay when it ends, whatever else happens short of leaving again. |
| `FollowingFeed.Feed.SetContext` | following-feed.js:22-27 | New ids or a new setting invalidate every reply under way and start over; the same ones change nothing. |
| `FollowingFeed.Feed.RefreshPage` | following-feed.js:7-13 | A refresh supersedes earlier loads and takes away their cursor. |
| `FollowingFeed.Feed.OnReply` | following-feed.js:14-20 | A reply counts only for the latest load while enabled. |
| `FollowingFeed.RunFresh` | following-feed.js:2-34 | The freshness invariant over every interleaving of navigation, context changes and delayed replies. |
| `FollowingFeed.ShownIsCurrent` | following-feed.js:13-20 | What is shown is the reply to the one latest load for the current ids and cursor, and Next needs a cursor from that reply. |
| `FollowingFeed.SupersededChangesNothing` | following-feed.js:16-19 | In every run a superseded load stays so, and its reply changes nothing whenever it comes. |
| `FollowingFeed.AtMostTwentyShown` | following-feed.js:13-18 | In every run at most twenty creators are shown, and none while a page loads. |
| `FollowingFeed.HowRepliesShow` | following-feed.js:15-20 | In every run the reply to the load under way is shown as it came, or only reported as failed when it is malformed, too large or an error. |
| `FollowingFeed.HowReadersMove` | following-feed.js:28-31 | In every run what next, previous, first and refresh load and remember, and when they do nothing. |
| `FollowingFeed.PreviousUndoesNext` | following-feed.js:29-30 | Previous returns to exactly the cursor, history and ids from before Next, and loads them anew. |
| `TradeRoundTrip.ReadRoundTripHistory` | trade-roundtrip.js:72-89 | The paged walk over a growing history sees exactly the flat rows in reach, or reports that history is unavailable. |
| `TradeRoundTrip.WalkIsStretch` | trade-roundtrip.js:80-84 | The walk returns if and only if a sell and a later-listed buy are in reach, and then the contiguous stretch between the first such two. |
| `TradeRoundTrip.NothingBetween` | trade-roundtrip.js:39 | The walk returns just the two trades if and only if they are adjacent in the account's history. |
| `TradeRoundTrip.PositionByRows` | trade-roundtrip.js:8-22 | Exactly which position a transaction shows, row by row. |
| `TradeRoundTrip.ReceiptByRows` | trade-share-proof.js:1-12 | Exactly which receipts verify, row by row, for buys and sells. |
| `TradeRoundTrip.ClosedByRows` | trade-roundtrip.js:32-40 | What two receipts that close a position show, row by row: signer, slots, totals, and one account from nothing to some tokens and back. |
| `TradeRoundTrip.RowsClose` | trade-roundtrip.js:32-40 | The converse: nothing more is asked of the receipts. |
| `TradeRoundTrip.VerifyClosedRoundTrip` | trade-roundtrip.js:32-44 | Accepts if and only if both receipts verify in order, open and close one whole position, and the history is exactly the two; the result is that position and the net lamports. |
| `TradeRoundTrip.VerifyRoundTrip` | trade-roundtrip.js:91-99 | End to end: accepted if and only if the receipts close one position and nothing lies between them in the pages in reach. |
| `DecimalText.MatchesRendered` | exact-sol-units.js:8 | The scanner accepts every spelling of the amount grammar and reads it in only one way. |
| `DecimalText.AcceptedSpellings` | exact-sol-units.js:8 | Exactly which texts the scanner accepts, character by character. |
| `DecimalText.SpellDenotes` | receipt-export.js:4-8 | The printed spelling is canonical and denotes the number printed. |
| `DecimalText.SpellIsUnique` | receipt-export.js:4-8 | It is the only canonical spelling of that number. |
| `ExactSolUnits.ReadsExactly` | exact-sol-units.js:4-22 | An amount is read as `units` lamports if and only if it is a spelling of the grammar, within the limits, that denotes exactly that many. |
| `ExactSolUnits.ReadUndoesPrint` | exact-sol-units.js:4-22 | Reading a printed SOL amount gives the same lamports, for every amount reading can return. |
| `ExactSolUnits.PrintIsCanonical` | receipt-export.js:4-8 | Printing what was read gives its one canonical spelling, which reads back the same. |
| `ReceiptExport.TextAmountsAreCanonical` | exact-lamports.js:11-14 | Lamport text is accepted for a number if and only if it is that 64-bit number's printed form. |
| `ReceiptExport.SelectExactReceiptRows` | receipt-export.js:18-34 | The loop selects the first valid row of every signature, amounts spelled out, and counts all others as omitted. |
| `ReceiptExport.ShownWrittenOut` | receipt-export.js:18-34 | Which rows are shown and how: a base-58 signature, a positive safe slot, a positive 64-bit amount, and no earlier such row of that signature; the row then stands last with its amount in digits. |
| `ReceiptExport.SelectedIsSettled` | receipt-export.js:18-34 | The selected rows are valid, exact and distinct, and every valid signature is among them. |
| `ReceiptExport.ExportShowsThePage` | receipt-export.js:17-40 | Selecting again for the export keeps every row shown, with the same amount. |
| `FundedBurn.ParsesExactly` | funded-burn.js:9-18 | A text is read as an amount if and only if, trimmed, it is a plain spelling with few enough decimals that denotes it, and it is positive. |
| `FundedBurn.TrimKeepsTheMiddle` | funded-burn.js:10 | Trimming removes exactly the white space around a text, for the listed code points. |
| `FundedBurn.ParseOfFormat` | funded-burn.js:9-26 | Reading a formatted amount, blanks around it or not, gives the amount rounded down to the digits shown, or the error when that is zero. |
| `FundedBurn.ParseUndoesFormat` | funded-burn.js:9-26 | With all digits shown reading undoes formatting, for every positive amount and 0 to 18 decimals. |
| `FundedBurn.FormatOfParse` | funded-burn.js:20-26 | Formatting what was read from a canonical text gives that text back. |
| `FundedBurn.PlanTokenAccountBurns` | funded-burn.js:34-47 | The plan, or an error exactly when the amount is not positive or exceeds what the accounts hold. |
| `FundedBurn.PlanBurnsTheAmount` | funded-burn.js:38-46 | A plan burns exactly the amount asked for. |
| `FundedBurn.PlanNeverOverdraws` | funded-burn.js:38-44 | No address burns more than it holds and no burn is of nothing. |
| `FundedBurn.EarlierAccountsFirst` | funded-burn.js:38-44 | An account is touched only when every account before it gives all it has. |

## Left out

- Floating point: percentages are integer ten-thousandths, lamports integers and lots reals, so rounding of JavaScript numbers (`roundAmount`, `Math.round`, `effectivePercent`) is not modelled.
- AgencyRouter.DecodeAgencyPolicyV3: does not model PDA and bump derivation or the trailing rules record; the expected address bytes and bump are parameters and the rules field is not read.
- `decodeAgencyConfigV3`, `decodeAgencyClaimV3`, the claim and withdrawal verifiers and all instruction builders: field comparisons and byte layouts without arithmetic.
- MintRouter.VerifyProtectedLedger: does not model account ownership, discriminators and identity bytes, only the decoded rates and counters of a protected policy.
- `directedGrossUnits` and `protocolGrossUnits`: float conversions of percentages into the integer weights the model starts from.
- Base58 addresses: keys are 32 bytes, and `CommunityMerkle` takes the decoding of an address as a parameter.
- `snapshotHash` of the community manifest and `createRewardCycleId`: single hashes of their inputs.
- Hex text of hashes and proof nodes: nodes are byte strings; text that is no 32-byte hash is the error case.
- RewardMerkle.VerifiesExactlyItsLeaves: soundness is relative to the hash not colliding on the byte strings actually hashed; SHA-256 itself is not part of this model.
- CommunityMerkle.VerifiesExactlyItsLeaves: soundness is relative to the hash not colliding on the byte strings actually hashed; SHA-256 itself is not part of this model.
- `localeCompare`: wallets and accounts are sorted by code unit rather than by locale, and the order that `AutomaticRewards.PublishedWeights` states is that one.
- Portfolio.MatchedTradePnl: quantities, costs and profit are exact reals where the source has doubles.
- Portfolio.QueueRefinesIntervals: for tokens of at most nine decimals, because it is false for all others; `Portfolio.RefinesIffClear` is the exact statement for every token.
- `aggregateTokenAccounts`, `burnedSupplyBaseUnits`, `formatLamportsAsSol`: one-step sums and prints.
- Developer release: overlapping calls are excluded, the escrow account and token balance comparisons are one nondeterministic answer, and a wallet that broadcasts by itself is not modelled.
- Admin withdrawals: several browser tabs have separate panels, and the administration server's record of a receipt is a nondeterministic reply that is truthful about finality.
- LaunchExecutor.RecoveryNeverMisleads: other launches that push this one out of the fifty journal rows are not modelled.
- Launch journal text: rows are values, not JSON with truncated fields; the step kind is its number in the plan.
- The steps after the plan (registration and verification) and `policyMatchesJournal`.
- PilotConsent.PilotTab.ReadCurrent: does not model the branch that adopts a record without a grant; every record in the database is written in version 2 form, so only the legacy import takes it (`Imported`).
- PilotConsent.PilotTab.EnableRecording: does not model that same branch, nor the check of the role.
- PilotConsent: record normalisation with its sorting, the start and observation times of a record, and all pilot summaries; records keep participant, profile, events and whether they are full.
- `createPilotStorage().open` and its time-outs: a transaction completes, aborts, or completes without its tab learning of it.
- RoutePolling: `active()` and the listeners do not throw, and visibility changes arrive together with their event.
- DistributionPolicy.CalculateCreatorFeeClaim: does not model shares off the millionth-of-a-percent grid or the rounding of JavaScript numbers.
- AutomaticRewards.HoldingWeights: does not say which of several errors an invalid period raises.
- CommunityMerkle.BuildCommunityManifest: does not model the comparison of slot, time, mint and coverage field by field, which is one flag, nor address parsing.
- DeveloperRelease.ReleaseClient.Verify: does not model the instruction, escrow and balance comparisons, which are reply flags.
- AdminWithdrawals.WithdrawalPanel.Withdraw: does not model the amount limits and the comparison of plan and form, which are reply flags.
- LaunchJournal.Journal.RecordLaunchEvent: does not model field truncation, timestamps and the error for an unknown state.
- FollowingFeed.Feed.SetContext: does not model the filtering, sorting and capping of ids; ids are the normalised list.
- TradeRoundTrip.VerifyRoundTrip: the wallet is given; `candidateRoundTripWallet`, which guesses it from the receipts, is not modelled.
- TradeRoundTrip.ReadRoundTripHistory: signatures in an account's finalized history are distinct and finalized history only grows; a node that reorders or omits rows is outside the statement.
- `receiptPageCsv` quoting and the other columns, `selectExactReceiptRows` beyond signature, slot and amount, and `waitForSignatureConfirmation`.
- Amounts that are fractional or infinite numbers: they are rejected like other malformed amounts.
