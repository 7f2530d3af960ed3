# The money core, verified

A Dafny model of the API's billing store and of the algorithms it leans on, with proofs about whole
runs. `dafny verify dfyconfig.toml` checks everything.

What is modelled, and where:

- **Arithmetic** (`Common`, `Billing`): int64 with its wrap-around, the checked operators, cost, fee,
  reserve and the delegation bound.
- **The off-chain ledger** (`Tables`, `Transactions`, `Projection`, `LedgerRuns`, `LedgerHistory`,
  `Gate`, `Answers`, `PostgresStore`): tables are maps, every SQL transaction is one atomic step with the
  migrations' CHECK and UNIQUE constraints as abort conditions. `PostgresStore` holds the transactions as
  methods on mutable tables, each proved equal to its transaction function; the run theorems are about
  those functions, and `Answers` says of each what it answers and leaves, without its own steps.
- **On-chain settlement** (`Claims`, `ClaimProofs`, `RailProofs`, `Settlement`, `ClaimCost`,
  `ClaimPass`, `ClaimSuccess`, `ClaimMachine`, `ClaimOverlap`, `ClaimBalance`, `ClaimBatches`,
  `ClaimWitness`, `Batches`, `Replicas`, `SettlementStore`): the claim pass that nets ledger legs into batches and
  consumes allowances, then the batch state machine under replicas that act on stale reads.
  `SettlementStore` is the imperative form, in int64 arithmetic.
- **The deposit watcher** (`Watcher`, `WatcherRuns`): backward paging, forward processing and the
  compare-and-set cursor, with replicas.
- **The faucet lease** (`Faucet`): reserve, send, complete or clear, in time.
- **Algorithms**: base58 (`Base58`, `Base58Codec`), the Merkle tree, what it proves and its leaf
  encoding (`Merkle`, `MerkleBinding`, `LeafCodec`), the stream parser (`Lines`, `StreamParser`), the
  token bucket (`Bucket`), the routing set (`Quotes`), page cursors and keyset paging (`Bytes`,
  `Cursors`, `Paging`).

Transactions are serialised. Ledger row i has id i + 1 and batch row i has id i + 1: sequence gaps
change nothing the proofs use. Replies of the database that SQL leaves open (the order of fee rows, the
rows SKIP LOCKED hands out, map iteration) are parameters constrained by what the query guarantees.
RPC results, clocks, wallets and hashes are parameters too.

Where the code does not do what it is meant to do, the model follows the code, a lemma names an input,
and another lemma gives the exact condition:

- `UpsertAllowance` adds to the credit without an overflow check; a grant that overflows drops
  the credit to what is reserved, and the shortfall it reports is negative or not the drift it causes
  (`Projection.ShortfallExact`, `Projection.GrantCanOverflow`).
- The allowance bounds each reservation, not their total: open reservations stay within the on-chain
  delegation exactly when the account's whole credit does (`Gate.AllowanceBoundsOpenIff`,
  `Gate.OpenExceedsAllowance`).
- The anchor constraint does not make a second delegate or a cursor regression harmless, as the comment in
  `migrations/0012_delegation_settlements.sql:30-32` has it. A successful pass leaves the books balanced
  exactly when, for every buyer that pays, no processed leg of positive amount is anchored and no ref of its
  destinations is taken (`ClaimBalance.PassBalancesIff`, `ClaimBalance.PositivePassIff`). Otherwise a leg is
  batched twice (`ClaimWitness.TwoDelegatesDouble`), or the allowance is drawn on and no batch is made
  (`ClaimWitness.AlikeDelegatesPayForNothing`, `ClaimWitness.CursorRegressionPaysForNothing`).
- One buyer can fail a claim pass for everybody: its price is not positive, or its row covers the price
  while some destination's legs sum to zero, as when requests whose whole cost is the fee are all a
  seller is owed; a positive leg to the same destination repairs it (`ClaimSuccess.ClaimSucceedsIff`,
  `ClaimSuccess.ReceivesIff`, `ClaimPass.LinkedBuyerBlocks`, `ClaimWitness.ZeroShareFails`).
- The empty byte string has no decodable encoding (`Base58Codec.DecodeEncode`).
- The verifier of Merkle paths checks neither the path's length nor the leaf's, and a node hashes its
  children unframed. For a leaf as long as a digest, acceptance proves membership exactly for the path
  lengths from the tree's height up; for a leaf of any other length something wrong is accepted exactly when
  the path has from one to height entries and the leaf is no longer than two digests
  (`MerkleBinding.LengthsBindIff`, `MerkleBinding.ShortPathAccepted`, `MerkleBinding.EmptyLeafAccepted`).
  Whoever hashes the ledger row for the check needs neither length (`LeafCodec.ProvenRowIff`). The tree is
  padded level by level, not to a power of two as its header comment says.
- Reaping idle buckets is stricter, against its comment, and lets a caller exceed its rate, for exactly the
  settings where an idle period does not refill the bucket (`Bucket.NeverStricterIff`,
  `Bucket.ReapingCanDeny`, `Bucket.RateBoundIff`).
- A watcher cursor that left the listed history blocks or replays, depending on the history's length
  (`Watcher.LostCursor`).
- The faucet's guarantee needs the reserve-to-complete window to be at most the TTL
  (`Faucet.PaysOnceIff`).

## Model

| member | source | states |
|---|---|---|
| `Billing.CheckedMul` | internal/billing/billing.go:563-574 | the divide-back test after a wrapping multiplication reports overflow for exactly the non-negative products above int64 (and every negative operand), and the product otherwise |
| `Billing.CheckedAdd` | internal/billing/billing.go:578-587 | the sum-went-down test reports overflow for exactly the sums above int64 |
| `Billing.CeilDiv` | internal/billing/billing.go:602-613 | succeeds exactly when the rounding addition fits, with the least integer not below the quotient |
| `Billing.Cost` | internal/billing/billing.go:622-653 | computable exactly when the rates are valid and the combined sum with its rounding fits int64; the result is that sum in millionths rounded up once, at most (2^63-1)/10^6 |
| `Billing.Fee` | internal/billing/billing.go:658-681 | never fails on a value Cost can return; the fee is the floor of cost times the clamped basis points, and fee plus seller share is the cost |
| `Billing.FeeClamped` | internal/billing/billing.go:658-681 | a negative rate takes nothing and one above 10000 basis points everything; between them the fee is the floor of cost times rate |
| `Billing.WorstCaseCost` | internal/billing/billing.go:687-710 | exact success condition and the rounded-up price of the whole input ceiling at the dearer input rate plus the output ceiling |
| `Billing.ReserveAmount` | internal/billing/billing.go:719-731 | the loop returns the largest worst case, or the first quote's error |
| `Billing.ReserveCovers` | internal/billing/billing.go:712-731 | if the reserve succeeds, then for every quote in the snapshot and every usage within the ceilings Cost succeeds and is at most the reserve |
| `Billing.ReserveAttained` | internal/billing/billing.go:683-731 | the reserve is the least such amount: some quote and usage within the ceilings cost all of it |
| `Billing.ReserveComputableIff` | internal/billing/billing.go:687-731 | the reserve is computable if and only if the ceilings are not negative and every quote's worst case, from its rates, rounds within int64; otherwise it fails with the error of the first quote that is not |
| `Billing.DelegationAvailable` | internal/billing/billing.go:207-228 | never above the documented bound min(available credit, sum of active allowances), and equal to it unless the unchecked sum wraps into the open interval between zero and the available credit |
| `Tables.DepositRefInjective` | internal/store/deposit.go:17-19 | two different deposit events never share a ledger ref, whatever the signature contains |
| `Tables.ApplyDelta` | internal/store/billing.go:658-680 | both columns move together, other accounts keep theirs, and it is refused exactly when 0 <= reserved <= credit or the bigint range would break |
| `Tables.FindQuote` | internal/store/billing.go:878-885 | returns the snapshot's quote for the peer, or none exactly when no quote names it |
| `Tables.FindQuoteFirst` | internal/store/billing.go:878-885 | when several quotes name the peer it is the first of them |
| `PostgresStore.Postgres.SumActiveAllowances` | internal/store/allowance.go:200-209 | the sum over the account's unrevoked positive rows, whatever order the table is read in |
| `PostgresStore.Postgres.ReserveBilling` | internal/store/billing.go:267-360 | leaves the tables and the result the reserve transaction defines, error paths included |
| `PostgresStore.Postgres.SettleBilling` | internal/store/billing.go:459-600 | the settle transaction step by step: release on an unknown peer or zero cost, otherwise three balance updates, the request update and up to three legs, all or nothing |
| `Answers.UnknownPeerReleases` | internal/store/billing.go:476-487 | settling an open request for a peer no quote of the snapshot names always succeeds, releases it, lowers the buyer's reserved by exactly its reservation and changes no credit, no ledger row and no other request |
| `Answers.FreeUsageReleases` | internal/store/billing.go:489-505 | so does a usage whose price at the peer's first quote is computable and zero |
| `Answers.SettleCharges` | internal/store/billing.go:489-600 | otherwise the charge, with cost the exact price rounded up once and fee its floored share, is made if and only if the token counts fit 32 bits, the buyer still covers its other reservations and both receivers' balances fit int64; it then moves exactly those balances, appends exactly the two or three legs with their counterparties, and records the charge, and otherwise nothing changes |
| `Answers.SettleLeaves` | internal/store/billing.go:469-493 | a finalized request is returned as it is, an unknown one is not found, and a price that is not computable leaves the request open |
| `PostgresStore.Postgres.ReleaseBilling` | internal/store/billing.go:607-631 | the release transaction; a finalized request is returned unchanged |
| `Answers.ReleaseAnswers` | internal/store/billing.go:607-656 | releasing an open request always succeeds: exactly that request is released and exactly its reservation given back; a finalized one is returned as it is, an unknown one not found |
| `PostgresStore.Postgres.SweepStaleReservations` | internal/store/billing.go:821-873 | releases every row the locking query handed out, or none |
| `PostgresStore.Postgres.UpsertAllowance` | internal/store/allowance.go:21-128 | registry row, mirror leg, clamp and shortfall as one transaction, replays of an observation included |
| `Answers.ObservationMirrored` | internal/store/allowance.go:53-112 | a well-formed observation of a new amount under a ref not yet used for its leg always succeeds, grant or revocation: one ledger row with the whole difference, the credit moved by it but not below the reservations, the rest reported as shortfall, the registry row replaced; a sum above int64 leaves the credit at the reservations |
| `Answers.ObservationReplayed` | internal/store/allowance.go:79-119 | an unchanged amount or a replayed ref changes the registry row only and reports nothing applied |
| `Answers.ObservationRefused` | internal/store/allowance.go:22-30 | a malformed observation is refused and changes nothing |
| `LedgerHistory.EventRecordedOnce` | internal/store/deposit.go:29-50 | once per (signature, index): over every later run the recorded event keeps its wallet and amount, and recording the same transfer instruction again, whatever it claims, reports no insertion and changes nothing |
| `Answers.DepositRecorded` | internal/store/deposit.go:29-50 | a well-formed event that is not on record is recorded, unassigned, with its wallet and amount; one on record is left |
| `PostgresStore.Postgres.ApplyDeposit` | internal/store/deposit.go:109-158 | credits an unassigned event, is a no-op for the same account, refuses another account and skipped events |
| `Answers.DepositCredited` | internal/store/deposit.go:141-195 | an unassigned event is credited to the account that was given, if and only if its balance can hold the amount: that account's credit is up by exactly the amount, no other balance changes, one deposit leg is added and the event is assigned to it; otherwise nothing changes |
| `Answers.DepositLeft` | internal/store/deposit.go:109-140 | an event assigned to the account or skipped is returned with nothing changed; another account's is refused, an unknown one not found |
| `PostgresStore.Postgres.ReconcileDepositsForWallet` | internal/store/deposit.go:199-252 | credits every unassigned event of the wallet, or none |
| `Answers.WalletCredited` | internal/store/deposit.go:199-252 | all unassigned events of the wallet go to the account that was given, if and only if its balance can hold their sum: credit up by the sum, one leg per event in order, each assigned; otherwise none does |
| `Answers.WalletRefused` | internal/store/deposit.go:199-205 | without a wallet or an account nothing is credited |
| `LedgerHistory.OneWithdrawalPerKey` | internal/store/withdrawal.go:83-180 | in every run an idempotency key names at most one withdrawal, which has exactly one withdraw leg, debiting its amount from its account |
| `Answers.WithdrawalTaken` | internal/store/withdrawal.go:83-180 | under a new key the amount is taken at once, with its leg and record, if and only if what is left covers the reservations; otherwise nothing changes |
| `LedgerHistory.WithdrawalRepeats` | internal/store/withdrawal.go:83-180 | repeating a successful request, at any later point of a run and with any amount and destination, returns the first withdrawal and moves nothing; another account using the key is refused |
| `PostgresStore.Postgres.RestoreWithdrawal` | internal/store/withdrawal.go:322-367 | returns an open withdrawal's amount with its restore leg; any other state is returned unchanged |
| `Answers.WithdrawalGivenBack` | internal/store/withdrawal.go:322-367 | an open withdrawal is restored, with exactly its amount and one restore leg on its account, if and only if the balance can hold it; a closed one is returned as it is |
| `Answers.WithdrawalMarked` | internal/store/withdrawal.go:206-320 | which states may follow which, and that marking changes nothing else |
| `Projection.ReservationCovered` | internal/store/billing.go:633-656 | an open reservation is always backed by its buyer's reserved balance, so giving it back cannot violate a constraint |
| `Projection.ShortfallExact` | internal/store/allowance.go:79-123 | one observation moves credit minus ledger sum by exactly the shortfall it reports, and that is not negative, unless and only unless it is a fresh grant whose amount would take the credit past int64 |
| `Projection.GrantCanOverflow` | internal/store/allowance.go:100-112 | the overflow is reachable: a second grant of 2^62 units empties the account, and the shortfall it reports is the most negative int64 |
| `Projection.UnassignedHasNoLeg` | internal/store/deposit.go:164-195 | an unassigned event has no deposit leg, so the unique-violation branch cannot be taken |
| `Projection.OpenHasNoRestore` | internal/store/withdrawal.go:322-367 | an open withdrawal has no restore leg yet |
| `LedgerRuns.ProjectionHolds` | internal/store/billing.go:687-743 | in every run of all operations, for every account: 0 <= reserved <= credit, reserved equals the open reservations, and credit minus ledger sum equals the shortfalls reported to it, so drift is zero exactly when none was clamped (accounts whose grant overflowed int64 excepted for the credit part) |
| `LedgerRuns.CreditConserved` | internal/store/billing.go:525-564 | in every run in which no grant overflowed int64 (each such grant drops credit, see Projection.GrantCanOverflow), over all accounts, total credit is what deposits, mirrored delegations and withdrawals put in plus the shortfalls: the market makes no money, also when buyer, seller and treasury coincide |
| `LedgerRuns.ChargedAtMostOnce` | internal/store/billing.go:459-600 | a request is settled if and only if its buyer leg exists, that leg is unique and debits the recorded cost, and the request's legs sum to zero |
| `LedgerRuns.DepositCreditedAtMostOnce` | internal/store/deposit.go:109-252 | an event is assigned if and only if its deposit leg exists, and every such leg carries the event's own account and amount and is the only one |
| `LedgerHistory.NothingUndone` | migrations/0006_billing.sql:108-140 | over every run the ledger is append-only, finalized requests never change, quotes and reservations are frozen, a deposit keeps its wallet and amount and is frozen once assigned or skipped, a withdrawal changes at most its state until it is closed |
| `LedgerRuns.UnsettledHasNoLegs` | internal/store/billing.go:525-564 | a request without a charge has no usage leg, so a settlement never meets an existing leg |
| `LedgerRuns.SettleCannotOverdraw` | internal/store/billing.go:459-600 | settling an open request with any usage within its ceilings, whichever quoted peer served it, charges at most the reservation and finalizes it, if and only if the new balances of the seller and the treasury fit int64; otherwise it is refused and nothing changes |
| `Gate.ReserveAdmitsIff` | internal/store/billing.go:267-360 | a reservation is accepted if and only if it is well formed and new and its worst case is at most the unreserved credit, capped by the active allowances if any; it then reserves exactly that and freezes the quotes, and a refusal changes nothing |
| `Gate.ReserveRefused` | internal/store/billing.go:267-345 | which error a refused reservation reports, the first reason first |
| `Gate.AllowanceBoundsOpenIff` | internal/billing/billing.go:207-212 | the promise that reservations never overspend the delegation, over every sequence of reservations: the open total stays within the active allowances if and only if the account's whole credit does |
| `Gate.OpenExceedsAllowance` | internal/store/billing.go:313-329 | four units of allowance, six units of open reservations |
| `Gate.SettleMoves` | internal/store/billing.go:459-600 | a settlement charges the served peer's own quote rounded up once, splits it by the clamped fee and moves exactly that between buyer, seller and treasury, or releases the reservation and moves nothing |
| `Gate.SweepReleases` | internal/store/billing.go:821-873 | a sweep releases exactly the stale open requests it was handed and posts nothing |
| `Claims.SelectLegs` | internal/store/delegation_settlement.go:97-131 | eligible earn legs behind the cursor, ascending, at most the limit |
| `Claims.SelectLegsComplete` | internal/store/delegation_settlement.go:97-131 | no eligible leg up to the last selected one is passed over |
| `Claims.RefNamesLegs` | internal/store/delegation_settlement.go:321-341 | equal batch refs name the same smallest and largest leg, whatever the truncated accounts are |
| `ClaimProofs.PlanAllOk` | internal/store/delegation_settlement.go:190-256 | netting: every planned batch is the sum of its own legs, no leg is planned twice, and an unskipped buyer's total is the sum of all its processed legs |
| `ClaimProofs.TotalsFit` | internal/store/delegation_settlement.go:190-213 | totals and batch amounts stay within int64 while the processed legs' sum does |
| `RailProofs.RefsDistinct` | internal/store/delegation_settlement.go:321-341 | two different batches never share a ref |
| `RailProofs.FreshRef` | internal/store/delegation_settlement.go:274-287 | a batch of legs no batch carries never finds its ref taken, so the ON CONFLICT skip is not taken |
| `RailProofs.BatchExactIffFresh` | internal/store/delegation_settlement.go:274-302 | a new batch equals the sum of the legs anchored to it if and only if what it shares with earlier batches nets to zero |
| `RailProofs.InsertAllOk` | internal/store/delegation_settlement.go:271-312 | inserting a plan of fresh legs keeps every batch equal to its legs' sum, anchors exactly those legs and adds exactly their amounts |
| `Settlement.CommitAllOk` | internal/store/delegation_settlement.go:258-312 | committing all buyers takes from each row exactly the totals of the buyers that settle and anchors exactly their legs |
| `ClaimCost.InvLedgerOk` | internal/store/billing.go:525-564 | what a claim pass needs of the ledger holds of every ledger the billing transactions can produce |
| `ClaimCost.EarnPlusFee` | internal/store/delegation_settlement.go:136-166 | seller shares plus the fees paired by ref are exactly what the selected requests debited from the buyer |
| `ClaimPass.PassIsFresh` | internal/store/delegation_settlement.go:83-131 | with one delegate, no earn or fee leg a pass processes is anchored yet |
| `ClaimPass.ClaimKeeps` | internal/store/delegation_settlement.go:70-319 | a pass keeps all batch sums and the uniqueness of anchors, only adds batches, never moves the cursor back, and for every allowance row what is left plus what was claimed from it is unchanged |
| `ClaimPass.ClaimKeepsCursor` | internal/store/delegation_settlement.go:304-313 | after a pass every anchored leg belongs to a request whose earn leg the cursor has passed |
| `ClaimPass.ClaimChargesExactly` | internal/store/delegation_settlement.go:70-319 | a buyer pays if and only if it owes, every wallet is linked and its row covers the price; it then pays exactly the cost of its selected requests (with a treasury) and all its processed legs are anchored, otherwise nothing and none |
| `ClaimPass.LinkedBuyerBlocks` | internal/store/delegation_settlement.go:375-389 | one linked buyer whose selection nets to zero or less fails the whole pass and leaves everything, the cursor included, as it was |
| `ClaimSuccess.ClaimSucceedsIff` | internal/store/delegation_settlement.go:70-319 | said on the state before the call: a pass succeeds if and only if its parameters are set, every selected buyer's wallet has a token account, and every buyer with all sellers linked owes a positive price and, where its row covers it, a positive sum to every destination (the treasury for fees), each with a token account |
| `ClaimSuccess.ReceivesIff` | migrations/0012_delegation_settlements.sql:15-15 | over every ledger the billing transactions can produce, a destination's batch satisfies amount_raw > 0 if and only if one of the buyer's selected legs to it is positive: a zero share beside a positive one does no harm |
| `ClaimPass.PlannedSucceedsIff` | internal/store/delegation_settlement.go:258-312 | the same of the netted plans: every linked buyer's total is positive and, where its row covers it, every batch has a token account and a positive amount |
| `ClaimPass.PassedStays` | internal/store/delegation_settlement.go:304-313 | a pass leaves every leg whose request's earn leg lies behind the delegate's cursor as it is, anchored or not |
| `ClaimBatches.NewBatchesDraw` | internal/store/delegation_settlement.go:215-302 | every batch a successful pass inserts is a paying buyer's and either a transfer from that buyer's own token account, for exactly the sum of its selected legs to one wallet, or the treasury's fees; its destination token account is its wallet's, its ref names its smallest and largest leg, and every earn leg it carries is owed to an account paid at that wallet |
| `ClaimBatches.PassAnswers` | internal/store/delegation_settlement.go:304-319 | a failed pass changes nothing; a successful one returns exactly the batches it added and puts only its own delegate's cursor on the last earn leg it selected, having selected every earn leg up to it whose allowance is active |
| `ClaimMachine.MachineIsExact` | internal/store/delegation_settlement.go:190-213 | over every ledger the billing transactions can produce, a pass in wrapping int64 arithmetic does exactly what it does in exact arithmetic: the unchecked additions of the netting never wrap |
| `ClaimBalance.PassBalancesIff` | internal/store/delegation_settlement.go:258-312 | for a whole successful pass, said on the state before the call and whatever is anchored already: every batch equals the legs anchored to it and every allowance row plus its batches is conserved if and only if, for every buyer that pays, no processed leg of positive amount is anchored yet and no batch on record has a ref one of its destinations would get |
| `ClaimBalance.PositivePassIff` | internal/store/delegation_settlement.go:258-312 | where every share is positive the condition is that no processed leg of a paying buyer is anchored |
| `ClaimBalance.FreshPassBalances` | internal/store/delegation_settlement.go:274-302 | with zero shares among the legs too, that nothing of a paying buyer is anchored is enough |
| `ClaimWitness.TwoDelegatesDouble` | internal/store/delegation_settlement.go:97-131 | two delegates holding allowances of one buyer both batch the same leg: the second batch has no anchored leg |
| `ClaimWitness.AlikeDelegatesPayForNothing` | internal/store/delegation_settlement.go:274-287 | two delegates that share the eight characters a ref keeps: the second pass succeeds, draws on its allowance row and leaves no batch and no anchor |
| `ClaimWitness.CursorRegressionPaysForNothing` | migrations/0012_delegation_settlements.sql:30-32 | against the comment, a cursor regression is not harmless: after a top-up of the row, the repeated pass draws on it and leaves no batch |
| `ClaimWitness.ZeroShareFails` | migrations/0012_delegation_settlements.sql:15-15 | a concrete pass: a covered buyer's only selected request was all fee, so the seller's batch violates amount_raw > 0 and the pass fails |
| `SettlementStore.BatchRef` | internal/store/delegation_settlement.go:325-341 | the min/max loop builds the specified ref |
| `SettlementStore.NetLeg` | internal/store/delegation_settlement.go:190-213 | the slice search and in-place update, in wrapping int64 arithmetic, are the wrapped netting step |
| `SettlementStore.Settlements.UnsettledLegs` | internal/store/delegation_settlement.go:97-131 | the ordered, limited scan selects the specified legs |
| `SettlementStore.Settlements.NetEarns` | internal/store/delegation_settlement.go:215-240 | the loop over earn legs computes the specified plans, each sum wrapped to int64, or aborts |
| `SettlementStore.Settlements.NetFees` | internal/store/delegation_settlement.go:241-250 | the loop over fee legs adds the paired fees, wrapping |
| `SettlementStore.Settlements.InsertBatches` | internal/store/delegation_settlement.go:271-312 | the loop over a buyer's batches inserts and anchors as specified, stopping at the first error |
| `SettlementStore.Settlements.ClaimDelegationSettlements` | internal/store/delegation_settlement.go:70-319 | the whole method leaves exactly the state and result of the claim transaction in int64 arithmetic, which ClaimMachine.MachineIsExact shows to be the exact one |
| `SettlementStore.Settlements.MarkSettlementSigned` | internal/store/delegation_settlement.go:455-470 | writes the wire only to a pending row and reports whether it did |
| `SettlementStore.Settlements.MarkSettlementBroadcast` | internal/store/delegation_settlement.go:473-484 | moves only a signed row |
| `SettlementStore.Settlements.FinalizeSettlement` | internal/store/delegation_settlement.go:488-499 | moves only a broadcast row |
| `SettlementStore.Settlements.RestoreSettlement` | internal/store/delegation_settlement.go:505-567 | restores an open row and refunds an unrevoked allowance, or changes nothing when the refund overflows |
| `Batches.UpdatesAnswer` | internal/store/delegation_settlement.go:455-503 | a pending row takes its wire, a signed row becomes broadcast, a broadcast row final; in any other state the update changes nothing, and no other row ever changes |
| `Batches.RestoreAnswers` | internal/store/delegation_settlement.go:505-550 | an open batch is restored and its amount goes back to its unrevoked allowance row, unless that row would overflow; then, and for a closed batch, nothing changes |
| `Batches.UnknownBatch` | internal/store/delegation_settlement.go:455-535 | an update of a batch that is not there changes nothing |
| `Batches.RestoreRefunds` | internal/store/delegation_settlement.go:542-557 | a restore gives back exactly what the claim took, and leaves a revoked row alone |
| `Replicas.RunKeeps` | internal/delegations/worker.go:192-340 | over any interleaving of replicas acting on stale reads, claims, new charges and poller writes, the invariant holds and every batch only moves forward, its terminal states and its wire staying |
| `Replicas.OneWirePerBatch` | internal/delegations/worker.go:258-297 | all broadcasts of a batch send the same stored bytes |
| `Replicas.RefundedOnceOrFinalized` | internal/store/delegation_settlement.go:488-567 | a batch is refunded at most once, finalized at most once and never both; a finalized batch was sent |
| `Replicas.BatchesAddUp` | internal/store/delegation_settlement.go:258-312 | in every reachable state each batch equals the sum of its anchored legs, each leg is anchored to at most one batch, and refs differ |
| `Replicas.RunConserves` | internal/store/delegation_settlement.go:370-374 | while the poller does not write the row and it stays unrevoked, allowance + open batches + finalized batches is constant |
| `Replicas.PassedIsFinal` | internal/store/delegation_settlement.go:304-313 | the rail decision on a passed leg is final: over any interleaving, once the delegate's cursor is past a request's earn leg, its legs are anchored later if and only if they are anchored then |
| `Watcher.Collect` | internal/deposits/deposits.go:174-199 | the paging loop, with the chain growing between calls, yields what the first call's history determines, or fails at the first failing call with the full pages before it counted |
| `Watcher.CollectedAfterCursor` | internal/deposits/deposits.go:157-199 | with a cursor that is still listed, exactly the later signatures are collected |
| `Watcher.FirstRun` | internal/deposits/deposits.go:165-230 | without a cursor exactly the newest page is collected, newest first |
| `Watcher.LostCursor` | internal/deposits/deposits.go:174-199 | with a cursor that left the history, a pass collects nothing if and only if the history's length is a multiple of the page size, and otherwise replays all of it |
| `WatcherRuns.CursorNeverSkips` | internal/deposits/deposits.go:200-226 | from an established cursor, over any interleaving of replicas, growth and failures, the stored cursor only moves forward and everything it passed was processed successfully by some pass |
| `WatcherRuns.EstablishedStart` | internal/deposits/deposits.go:157-174 | any stored, still listed cursor is such a starting point, with nothing assumed processed |
| `WatcherRuns.FirstCursorNeverSkips` | internal/store/deposit.go:82-90 | before a cursor exists, whichever replica inserts it inserts a signature it processed, and nothing behind it is skipped from then on |
| `WatcherRuns.FurthestIs` | internal/deposits/deposits.go:200-226 | the advance ends right before the first failure |
| `WatcherRuns.Service.AdvanceDepositCursor` | internal/store/deposit.go:75-100 | compare-and-set: moves exactly when the stored cursor is the expected one |
| `WatcherRuns.QuietWalk` | internal/deposits/deposits.go:200-226 | undisturbed, a pass processes every candidate it can and ends the cursor at the end of the contiguous successful prefix |
| `WatcherRuns.WalkNeverSkips` | internal/deposits/deposits.go:200-226 | whatever other replicas store and whichever store calls fail, a pass leaves the persisted cursor where it was or where another replica put it, or advances it over signatures it processed all of |
| `WatcherRuns.LostPassStops` | internal/deposits/deposits.go:208-221 | a pass whose compare-and-set is lost overwrites nothing, adopts the reloaded cursor and leaves the rest unprocessed |
| `WatcherRuns.Service.ProcessPending` | internal/deposits/deposits.go:200-226 | the loop computes the specified walk: failures, lost compare-and-sets, store errors and reloads included |
| `WatcherRuns.Service.RunOnce` | internal/deposits/deposits.go:165-227 | one pass with its error returns: the examined count, partial when a listing call fails, and the walk over the listed candidates otherwise |
| `Faucet.CompletedStays` | internal/store/faucet.go:56-75 | once a signature is stored nothing changes the row and no new request gets in, whatever the timing |
| `Faucet.LeaseExcludes` | internal/faucetapi/api.go:136-172 | with windows no longer than the TTL at most one request is inside its window, the pending row is its own, and signature-returning sends number at most one plus those lost to faults |
| `Faucet.ClearIsOwn` | internal/store/faucet.go:76-87 | a clear inside the window removes the caller's own row |
| `Faucet.RowsAnswer` | internal/store/faucet.go:39-88 | which rows a reservation replaces and with what, and that only a pending claim takes a signature or is removed |
| `Faucet.PaysOnceIff` | internal/store/faucet.go:26-30 | windows up to W never pay twice without a fault if and only if W is at most FaucetPendingTTL |
| `Faucet.Store.ClaimFaucet` | internal/store/faucet.go:32-54 | reserves a missing or stale pending row, refuses otherwise, and touches no other account |
| `Faucet.Store.CompleteFaucetClaim` | internal/store/faucet.go:56-72 | stores the signature on a pending row only |
| `Faucet.Store.ClearFaucetClaim` | internal/store/faucet.go:74-87 | deletes a pending row only |
| `Base58.RoundTrip` | internal/solana/base58.go:23-105 | converting between bases with leading zeros kept and back gives the original, for both directions of the codec |
| `Base58.MulAddDigits` | internal/solana/base58.go:43-57 | one pass of the carry loop multiplies the number by the base and adds the digit |
| `Base58.CapacityHolds` | internal/solana/base58.go:82-82 | 256^n <= 58^(n*138/100+1) for every n |
| `Base58.EncodedFits` | internal/solana/base58.go:82-93 | the encoder never needs more digits than the capacity it reserves |
| `Base58Codec.DecodeEncode` | internal/solana/base58.go:21-105 | every non-empty byte string within the limit decodes back from its encoding; the empty one does not, because its encoding is refused as empty |
| `Base58Codec.DecodeValid` | internal/solana/base58.go:21-70 | a non-empty string over the alphabet decodes to bytes that re-encode to it, or is too long exactly when all its bytes exceed the limit |
| `Base58Codec.DecodeSucceedsIff` | internal/solana/base58.go:21-70 | decoding succeeds if and only if the string is non-empty, over the alphabet and fits; the non-canonical error is never returned |
| `Base58Codec.ScanValid` | internal/solana/base58.go:36-57 | the early exit inside the loop fires exactly when the finished value would be too long |
| `Base58Codec.DecodeFaults` | internal/solana/base58.go:20-65 | the first character outside the alphabet is reported, unless white space stands at an end or what precedes it already exceeds the limit |
| `Base58Codec.EncodeBase58` | internal/solana/base58.go:73-105 | the array loops compute the encoding within the reserved capacity |
| `Base58Codec.DecodeBase58` | internal/solana/base58.go:23-70 | the array loops compute the decoding, first error first |
| `Merkle.Completeness` | internal/billing/merkle.go:111-175 | every leaf's own path has the tree's height and is accepted against the root |
| `MerkleBinding.BindingIff` | internal/billing/merkle.go:142-175 | for a one-to-one hash with digests of one length and a leaf of that length, a path of the tree's height, its entries of any length, is accepted if and only if the leaf is the one at that index and every sibling that is not padding is the real one |
| `MerkleBinding.LeafHashBindsIff` | internal/billing/merkle.go:142-175 | for the hash of something under the leaf prefix no length need be checked: it is accepted if and only if it is the one at the index and the path is the real siblings, height many |
| `MerkleBinding.RootBinds` | internal/billing/merkle.go:88-107 | under the same hypotheses on the hash, equal roots over equally many digests mean equal digests |
| `MerkleBinding.RootDetermines` | internal/billing/merkle.go:88-107 | over leaf hashes the root determines the list, its number of leaves included: the three domain prefixes keep leaves, nodes and padding apart |
| `MerkleBinding.LeavesRunTogether` | internal/billing/merkle.go:72-78 | without digest-length leaves it does not: nodes are unframed, and moving the cut between two leaves leaves the root as it is, for every hash |
| `MerkleBinding.ShortPathAccepted` | internal/billing/merkle.go:142-175 | the path length is not checked: for every length up to the tree's height, a path of that length is accepted at index 0 for the first node that many levels below the root |
| `MerkleBinding.LengthsBindIff` | internal/billing/merkle.go:142-175 | exactly which lengths prove membership: everything accepted with a leaf of m octets and a path of len entries carries the leaf at its index if and only if, for m the digest length, len is at least the tree's height, and for any other m, len is zero or above the height or m is above two digests |
| `MerkleBinding.EmptyLeafAccepted` | internal/billing/merkle.go:72-78 | for every hash, the empty leaf passes in a two-leaf tree with a path of exactly its height: the concatenation of both leaves |
| `MerkleBinding.LongPathAccepted` | internal/billing/merkle.go:142-175 | the leaf count is not bound by the root: claiming one leaf, a one-entry path is accepted against a two-leaf root |
| `MerkleBinding.PadLeafHidden` | internal/billing/merkle.go:88-107 | a trailing leaf equal to the padding hash leaves the root of an odd list unchanged |
| `Merkle.SizeAtLevelStep` | internal/billing/merkle.go:181-189 | the verifier's ceil-halving agrees with the padded level loop, level by level |
| `Merkle.SmallRoots` | internal/billing/merkle.go:72-107 | the roots of up to three leaves written out: prefixes, left child first, padding for a missing right one |
| `Merkle.MerkleRoot` | internal/billing/merkle.go:88-107 | the level loop computes the root |
| `Merkle.MerklePath` | internal/billing/merkle.go:111-134 | the level loop computes the path, and refuses an index out of range |
| `Merkle.VerifyMerklePath` | internal/billing/merkle.go:142-175 | the climb loop decides the specified check |
| `LeafCodec.Decodable` | internal/billing/merkle.go:46-70 | rows whose strings are below 2^32 bytes and whose hash inputs are equal are equal in every field |
| `LeafCodec.LayoutIs` | internal/billing/merkle.go:46-70 | where every field stands in what is hashed: the two integers in two's complement and each length, least significant byte first, then source, leg, counterparty, ref and time in this order |
| `LeafCodec.EqualRootsEqualLedgers` | internal/billing/merkle.go:46-107 | under the same hypotheses on the hash, equal roots mean equal ledgers, without assuming equally many rows |
| `LeafCodec.ProvenRowIff` | internal/billing/merkle.go:136-175 | a proof for a row, with a path of any length and entries of any length, is accepted if and only if the row is the one at that position and the path is its real siblings, height many |
| `LeafCodec.LedgerPreimage` | internal/billing/merkle.go:46-70 | the writes into the running hash build the encoding |
| `Lines.LinesAreTheStream` | internal/perf/parser.go:100-127 | complete lines and tail concatenate to the stream |
| `Lines.LinesAreLines` | internal/perf/parser.go:100-127 | each complete line ends in its only newline |
| `StreamParser.Parser.FeedSse` | internal/perf/parser.go:100-127 | after any feed the buffer is the bytes after the last newline (empty past the cap) and the observations are those of the complete lines of at most the cap, a function of all bytes fed |
| `StreamParser.Parser.Feed` | internal/perf/parser.go:69-82 | the same for both dialects; a JSON body is captured as the stream's first bytes up to the cap |
| `StreamParser.Parser.Finish` | internal/perf/parser.go:86-98 | parses a captured body once, if its last non-blank byte closes an object |
| `StreamParser.ChunkingDoesNotMatter` | internal/perf/parser.go:100-127 | two parsers fed the same bytes in different chunks are in the same state, within the line cap |
| `StreamParser.CountersAreMaxima` | internal/perf/parser.go:186-240 | each counter is the largest of zero and what the delivered frames report; the two flags say whether any frame set them |
| `StreamParser.CountersOverFields` | internal/perf/parser.go:186-243 | said on the fields: input is the largest prompt_tokens, or input plus cache creation where there is none; cached the largest detail or cache read; output the largest under either name; and which frames set the two flags |
| `StreamParser.ModelIsLast` | internal/perf/parser.go:186-196 | the model is the one the last frame that names any names, its own before its message's |
| `StreamParser.BodyIsOneFrame` | internal/perf/parser.go:186-221 | a whole body counts as one frame, and any output shows it generated |
| `StreamParser.PayloadAnswers` | internal/perf/parser.go:133-142 | a line is a frame exactly when, between white space, something other than [DONE] follows data: |
| `StreamParser.OrderDoesNotMatter` | internal/perf/parser.go:223-240 | reordering or repeating frames changes no counter and no flag |
| `StreamParser.SettledInputAddsUp` | internal/perf/parser.go:242-247 | the settled regular input is never negative nor above the reported one, and for an aggregate input it plus the cached part is the aggregate whenever that covers the cached part |
| `Bucket.RateBound` | internal/aclapi/api.go:923-957 | in a stretch of d seconds in which its bucket is not reaped a caller is allowed at most burst + rps*d calls |
| `Bucket.RateBoundIff` | internal/aclapi/api.go:923-957 | with reaping, the bound burst + rps*d holds over every stretch of every run if and only if burst <= rps * bucketIdleTTL |
| `Bucket.RetryIsEnough` | internal/aclapi/api.go:946-953 | a call made at least the Retry-After later, with none by the same caller between, is allowed |
| `Bucket.RetryIsLeast` | internal/aclapi/api.go:940-957 | and it is the least: after n >= 1 whole seconds the denied caller is let in if and only if n is at least the hint, or its bucket was reaped meanwhile |
| `Bucket.AllowTakesOne` | internal/aclapi/api.go:936-957 | a call is let in exactly when a token is there, takes exactly one, and changes nobody else's tokens |
| `Bucket.ReapingInvisibleIff` | internal/aclapi/api.go:29-35 | reaping changes no decision on any sequence of calls if and only if burst <= rps * bucketIdleTTL |
| `Bucket.NeverStricterIff` | internal/aclapi/api.go:29-35 | "never stricter": on no sequence of calls does reaping deny what the limiter without it allows, if and only if burst <= rps * bucketIdleTTL |
| `Bucket.ReapingCanDeny` | internal/aclapi/api.go:29-35 | for every other setting some run's last call is denied with reaping and allowed without |
| `Bucket.RateLimiter.Reap` | internal/aclapi/api.go:927-934 | keeps exactly the buckets used within the TTL |
| `Bucket.RateLimiter.Allow` | internal/aclapi/api.go:923-957 | the method decides, updates and hints as the specification does |
| `Quotes.SortQuotes` | internal/billinggate/gate.go:436-450 | insertion sort leaves a permutation ordered by input rate, then peer |
| `Quotes.ResolveQuotes` | internal/billinggate/gate.go:275-353 | none exactly when peers serve the model and none is affordable; otherwise the allowed list: every quote is a serving, payable peer's with its seller, at the three rates of the peer's last ask or free where that is allowed, each rate under its own cap, in order of input rate and peer, each peer once, and nothing that belongs there is missing except behind a full list of 128, whatever the iteration order |
| `Quotes.AllowedIsUnique` | internal/billinggate/gate.go:275-353 | there is only one such list, so the map's iteration order does not matter |
| `Cursors.LedgerRoundTrip` | internal/billingapi/api.go:950-978 | every (time, id) pair of int64, negatives included, comes back from its bytes |
| `Cursors.LedgerFields` | internal/billingapi/api.go:950-962 | the time stands before the id, most significant byte first |
| `Cursors.LedgerCanonical` | internal/billingapi/api.go:964-978 | every 16 bytes are the encoding of what they decode to |
| `Cursors.DepositRoundTripIff` | internal/billingapi/api.go:980-1027 | a deposit cursor comes back if and only if its signature has no zero byte and its index is in [0, 2^32) |
| `Cursors.PutInt64` | internal/billingapi/api.go:954-961 | the shift loop writes the big-endian bytes of the two's-complement value |
| `Cursors.GetInt64` | internal/billingapi/api.go:972-976 | the wrapping shift-and-or loop reads them back |
| `Cursors.EncodeLedgerCursor` | internal/billingapi/api.go:952-962 | the buffer is the two big-endian fields, time first |
| `Cursors.DecodeLedgerCursor` | internal/billingapi/api.go:964-978 | refuses any length but 16 and decodes otherwise |
| `Paging.PagesAreComplete` | internal/store/billing.go:749-803 | following cursors through their codec, the pages concatenate to the account's rows, each once, newest first |
| `Paging.ChainEnds` | internal/store/billing.go:749-803 | every chain of pages ends: all but the last are full |
| `Paging.PageExists` | internal/store/billing.go:757-776 | the page query is satisfiable for every set of rows with unique ids |

## Left out

- Solana RPC, ed25519, SHA-256 and transaction bytes: sends have nondeterministic results, the hash is
  a parameter, assumed one-to-one with 32-octet digests where a lemma says so; octets are unbounded, because
  no such hash exists over bytes (`MerkleBinding.IdealExists` shows that one does here). Whether a restored batch's transaction can still
  land on chain is therefore not modelled.
- Base64 around the page cursors: the cursors are modelled as the bytes inside it.
- HTTP handlers, authentication, configuration, logging, ACL evaluation, catalog, leaderboard, pricing
  publication and the thinkfix scanner: plumbing, or facts of one branch.
- JSON decoding in the stream parser: a parameter, as is the JSON body inspection behind the two
  token ceilings of a reservation.
- The allowance poller's and the reconciler's expected-chain figures: their sign differs from the
  claim step's; the poller's writes appear as arbitrary observations.
- `source_ata` of fee batches: the code takes it from the last leg processed; it is modelled that way
  and nothing is claimed about it.
- Withdrawal signing data, listing and sweeping, and LiveAsks, caps merging and asks: only what moves
  money or picks quotes is modelled; SetAccountCaps appears as the zero row it may insert. A failed withdrawal is not restorable in the model because
  RestoreWithdrawal returns it unchanged, although a comment speaks of a manual restore.
- Deposit and withdrawal list paging: the same keyset scheme as the ledger's, with one more key column.
- Multi-byte white space: TrimSpace is modelled on single characters and bytes; such input is refused
  either way by the base58 decoder, with another error.
- Bucket.RateBound, and the other Bucket results: time and tokens are reals, so the rounding of float64 is not modelled.
- Faucet.LeaseExcludes: a transaction that lands although its send reported an error, or after a crash
  during the send, is not counted, because no signature was returned.
- Sweeping delegation settlements: FOR UPDATE SKIP LOCKED outside a transaction holds no lock past the
  query, so a sweep is modelled as a plain read per row.
