# Sultan L1: a verified model of the node's core

Sultan L1 is a proof-of-stake chain whose accounts are spread over shards by address hash. This project
models, in Dafny, the parts of `sultan-core` that decide who owns what, and proves what they keep.

* **The sharded ledger** (`Ledger`, `LedgerSafety`, `Batches`, `TwoPhaseCommit`, `Timeouts`, `QueuePasses`,
  `Expansion`, `LedgerRuns`, `AtMostOnce`, `ShardingCoordinator`). Same-shard transactions run in batches per shard, in any
  order of shards; cross-shard transfers wait in a queue and run prepare, commit and rollback, any attempt may
  time out at five points, and the number of shards can grow. What a batch reports is complete: a transaction
  is reported if and only if its shard accepts it when its turn comes. In every reachable state no idempotency key has
  taken effect twice, no queued entry was attempted more than three times, and everything lives in its home
  shard. Without timeouts the supply is constant and every sender's nonces count up without gap or repeat.
  With them, what a failed attempt does to the supply and to nonces is exact: rollback restores what was there
  under a condition that is proved necessary and sufficient, and the supply of any run is the initial one plus
  what its failed attempts created minus what they destroyed.
* **Replication** (`Ordering`, `Replication`, `TransferEffects`, `CatchingUp`, `WaitingQueues`, `NodeChain`,
  `BlockRules`, `ChainRuns`, `ReplicationLimits`, `LoneExpansion`, `SultanBlockchain`). A follower that applies a proposer's
  blocks reaches the proposer's ledger, whatever the proposer's queue held, whatever it rejected, and in
  whatever order either node's shard groups finished. When the follower accepts a block is characterized
  exactly. Block application never compares state roots, so this is what keeps nodes together. A follower may
  have a queue of its own: it ends with the proposer's ledger exactly when the block applies whatever the
  follower applies first, in whatever order. Any number of nodes taking turns as proposer agree exactly as
  long as that holds at every block, while idempotency keys tell transfers apart; expansion on one node alone
  parts them.
* **The constant-product exchange** (`PoolMath`, `LiquidityPool`, `PoolSafety`, `RoundTrips`, `TokenLedger`, `Dex`,
  `DexSafety`, `DexPayments`, `DexBacking`, `DexBackedRuns`, `DexEffects`, `PoolOutcomes`, `DexOutcomes`,
  `NativeDex`). Newton's integer
  square root is exact; the square of the LP supply stays below the product of the reserves over any run whose
  swap amounts are safe, deposits and withdrawals dilute nobody; round trips gain nothing; every operation's
  effect on every balance is exact, and when the token ledger backs what the pools record is proved both ways
  for each operation. When each operation is accepted, and that it keeps the caller's limits, is stated both
  ways, and a deposit takes what matches the pool's ratio.
* **Consensus** (`Consensus`, `StakeAccounting`, `StakeEffects`, `Quorum`, `Proposer`, `ConsensusEngine`). Weighted quorums
  and agreement between engines, stake accounting under slashing and jailing, and proposer selection that is
  proportional to power exactly while the total fits the word. Who signs and proposes after each event is exact:
  a removed or slashed validator sits out every later state until it is released.
* **Merkle proofs** (`Bytes`, `MerkleLevels`, `SpvProof`, `MerkleTree`). Parsing of Bitcoin payment proofs in
  both directions, completeness and soundness of their Merkle paths (section 8 of the Bitcoin whitepaper), and
  the level loop over a shard's state. Nothing is assumed of the hash function: a binding theorem returns
  either equality or two byte strings that collide.
* **Two smaller machines**: the single-chain ledger (`LegacyChain`, `LegacyEffects`, `LegacyBlockchain`), in
  which no admitted transaction is lost unless a pending list fails to apply, and the proposal lifecycle
  (`Governance`, `Doubles`, `GovernanceSafety`, `GovernanceEffects`, `Snapshots`, `GovernanceManager`), in which
  a paused proposal is never executed and an executed one is nine days of blocks old.

Each part has a specification as functions on values, lemmas about runs of that specification, and a module of
classes that change their fields in place as the program does. Every class method is proved to take exactly
the step its specification function describes.

The release profile of the program switches overflow checks off, so unchecked arithmetic wraps; the model says
so wherever a word can overflow (`Common.WrapAdd`, `PoolMath.Wrap`), and theorems that need a bound name it.
Where a bound is needed, an example or an exact condition shows why: `PoolSafety.ProductIsKeptExactly`,
`RoundTrips.RoundTripPaysExactly`, `DexBacking.SwapBackedExactly`, `Quorum.QuorumIntersection`,
`Proposer.ProportionalExactly`, `GovernanceSafety.TallyIsTrueExactly`, `StakeAccounting.StepBalances`,
`TwoPhaseCommit.RollbackIsExact`, `Timeouts.RollbackConservesSupply`, `LegacyChain.ApplyConserves`.

Where the code and its documentation disagree, or the code does what its documentation does not mention, the
model follows the code:

* a software upgrade is documented to need five validator signatures, but `execute_proposal` executes any
  passed proposal without them, and signers are not checked to be validators
  (`GovernanceSafety.EnteringExecuted`);
* the rate limit counts proposals in voting only, so proposals still in discussion do not count
  (`Governance.SubmitError`);
* rollback after an incomplete commit takes the amount back from a receiver that was never credited, if that
  receiver holds enough (`TwoPhaseCommit.RollbackIsExact`);
* an entry that timed out goes back into the queue with its rollback data, and when a later attempt fails
  before capturing anew, that old data is restored: money is created or destroyed and a used nonce opens
  again, although nothing timed out (`TwoPhaseCommit.StaleRollbackCreatesMoney`, with the exact condition in
  `StaleRollbackIsExact`);
* an entry queued before an expansion keeps its shard indices; if its receiver moved, the sender pays and the
  receiver never sees the credit (`LedgerRuns.MovedEntry`);
* a node keeps attempting its own retained entries while it applies other nodes' blocks; if it applies one
  that the block does not, it no longer agrees with the others (`WaitingQueues.WaitingFollower`,
  `ReplicationLimits.QueuedFollowerDiverges`);
* only the proposer of a block expands its shards, and expansion forgets the nonce trackers, so the next block
  may carry a transaction again that every other node refuses (`LoneExpansion.ReplayPartsThem`);
* a swap that the user cannot pay for has already changed the reserves (`DexBacking.SwapBackedExactly`);
* a withdrawal whose share of the first token rounds to zero burns the LP tokens and pays nothing
  (`DexEffects.WithdrawalSettles`, `DexEffects.ZeroShareIsAccepted`);
* an SPV check without proof data succeeds once there are enough confirmations, and a proof's branch length
  and the requested transaction are never looked at (`SpvProof.VerifySpvProof`, `SpvProof.RootNeedsNoBranch`,
  `SpvProof.RequestIsIgnored`);
* the emergency pause is documented to take 67 percent of the validators; for some multiples of 100 rounding
  asks for one vote more (`Governance.RoundingAsksForMore`).

## Model

| member | source | states |
|---|---|---|
| LedgerSafety.ApplyMoves | sultan-core/src/sharding_production.rs:378-406 | for every address: an accepted transaction moves its amount from sender to receiver, advances the sender's nonce by one, and changes nothing else |
| LedgerSafety.ApplyKeeps | sultan-core/src/sharding_production.rs:378-406 | applying one accepted same-shard transaction conserves the supply, keeps every account in its home shard, and moves only the sender's nonce, by one |
| LedgerSafety.BatchKeeps | sultan-core/src/sharding_production.rs:314-349 | the same for a whole batch, whatever is rejected in it; the transactions reported carry consecutive nonces ending at the tracker |
| LedgerSafety.GroupsKeep | sultan-core/src/sharding_production.rs:679-736 | the same for all shard groups of a call, in any order |
| Batches.BatchReports | sultan-core/src/sharding_production.rs:314-349 | the positions of the reported transactions, in order, are exactly those whose transaction the shard accepts when its turn comes: a positive amount the sender then holds, the tracker's nonce at that point, a good signature |
| Batches.BatchConcat | sultan-core/src/sharding_production.rs:314-349 | running one list after another is running the second from where the first ended, with both reports one after the other |
| Batches.RefusedIsSkipped | sultan-core/src/sharding_production.rs:317-336 | a refused transaction costs the others nothing, wherever it stands in the batch |
| Batches.GroupOfOne | sultan-core/src/sharding_production.rs:646-676 | a transaction goes into the group of a shard exactly when both its parties live there |
| Batches.GroupConcat | sultan-core/src/sharding_production.rs:646-676 | every group keeps the order of arrival and drops nothing |
| Batches.CrossGroupOfOne | sultan-core/src/sharding_production.rs:646-676 | a transaction between two shards becomes one queue entry for them, with its own key and no attempt made, unless such transfers are disabled |
| Batches.GroupsConcat | sultan-core/src/sharding_production.rs:679-736 | groups that are joined later run on the shards the earlier ones left and report after them |
| Batches.GroupAlone | sultan-core/src/sharding_production.rs:679-736 | a group changes its own shard and no other, and leaves it marked healthy |
| Batches.QueueGrows | sultan-core/src/sharding_production.rs:679-736 | the queue is first in, first out |
| Batches.DrainConcat | sultan-core/src/sharding_production.rs:1055-1103 | attempting one list of entries after another is attempting the second on what the first left, with their results one after the other |
| Batches.EntryAlone | sultan-core/src/sharding_production.rs:1075-1095 | an entry that succeeds is committed, as applied or, if its key was known, as skipped; one that fails goes back with one more attempt on its count unless that was its third |
| Batches.ShardIsRest | sultan-core/src/sharding_production.rs:192-201 | the shard of an address is its hash modulo the number of shards |
| TwoPhaseCommit.CommitIsAtomic | sultan-core/src/sharding_production.rs:739-819 | without a timeout an attempt succeeds exactly when its key is known or the source can pay; it then moves the amount once and records the key, and every other attempt ends marked aborted, with the ledger as it was unless it rolls back data of an earlier timeout |
| TwoPhaseCommit.CommitMoves | sultan-core/src/sharding_production.rs:920-978 | for every shard and address: a fresh transfer that succeeds moves its amount from the source's sender to the destination's receiver, advances the sender's nonce, and changes nothing else |
| TwoPhaseCommit.TransferKeepsSupply | sultan-core/src/sharding_production.rs:920-978 | debit and credit conserve a supply that fits the word |
| TwoPhaseCommit.TransferKeepsPlacement | sultan-core/src/sharding_production.rs:920-978 | debit and credit keep every account and nonce in its home shard and apply the sender's next nonce |
| TwoPhaseCommit.DrainIsSafe | sultan-core/src/sharding_production.rs:1055-1103 | one pass over entries that never timed out conserves the supply, applies consecutive nonces, uses only fresh idempotency keys, each once, and leaves no lock |
| TwoPhaseCommit.TimeoutRestoresSource | sultan-core/src/sharding_production.rs:980-1052 | wherever a timeout strikes once the source is captured, the attempt fails, the lock is gone, no key is recorded, and the source shard answers every query as before, whatever data earlier attempts left |
| TwoPhaseCommit.ReceiverAfterTimeout | sultan-core/src/sharding_production.rs:1025-1039 | at the destination only the receiver's balance can differ, and it is unchanged exactly under the rollback condition |
| TwoPhaseCommit.RollbackIsExact | sultan-core/src/sharding_production.rs:980-1039 | for every failure point rollback restores every observable balance and nonce if and only if: after a full debit and credit, the credit did not saturate; after less than that, the receiver holds less than the amount; before the capture, older data is absent or still agrees with both sides |
| TwoPhaseCommit.StaleRollbackIsExact | sultan-core/src/sharding_production.rs:980-1039 | a retried entry that carries data of an earlier timeout and fails before capturing anew changes nothing observable if and only if the source still answers the old balance (or is missing with the old nonce) and the receiver holds less than the amount |
| TwoPhaseCommit.StaleRollbackCreatesMoney | sultan-core/src/sharding_production.rs:1083-1087 | a concrete retry that fails without any timeout, sets the sender from 3 back to 10 and its nonce from 1 back to 0, takes 5 from the receiver, and so raises the supply |
| Timeouts.FailedAttempt | sultan-core/src/sharding_production.rs:739-1052 | every balance and nonce on every shard after an attempt that fails for any reason: only the sender at the source and the receiver at the destination can differ, and to what |
| Timeouts.FailureSupply | sultan-core/src/sharding_production.rs:980-1039 | a failed attempt changes the supply by exactly what it changes at the sender and at the receiver |
| Timeouts.RollbackConservesSupply | sultan-core/src/sharding_production.rs:980-1039 | the supply survives a failed attempt if and only if what is put back at the sender equals what is taken at the receiver; after a fresh capture that is the condition of exact rollback |
| Timeouts.FailureIsExact | sultan-core/src/sharding_production.rs:980-1039 | every query is answered as before a failed attempt if and only if none of the sender's balance, the sender's nonce and the receiver's balance moves |
| Timeouts.FailureKeepsNonces | sultan-core/src/sharding_production.rs:1005-1020 | the consecutive nonces of everything applied so far survive a failed attempt if and only if the sender's tracker does not move |
| QueuePasses.PassProceeds | sultan-core/src/sharding_production.rs:1055-1103 | a pass in which any attempt may time out keeps home placement, health and locks in order, uses only fresh idempotency keys, each once, and retains only entries that can be attempted again |
| QueuePasses.PassSupply | sultan-core/src/sharding_production.rs:1055-1103 | such a pass changes the supply by exactly what its failed attempts gain and lose |
| QueuePasses.PassNonces | sultan-core/src/sharding_production.rs:1055-1103 | as long as no failed attempt moves a tracker, the transfers a pass applies carry consecutive nonces ending at the tracker |
| QueuePasses.PassRequeues | sultan-core/src/sharding_production.rs:1083-1095 | the entries put back are, in order, those whose attempts failed before their third, each with its transfer unchanged and one more attempt on its count |
| QueuePasses.CalmPassIsExact | sultan-core/src/sharding_production.rs:1055-1103 | a pass without timeouts over entries that never timed out gains, loses and reopens nothing |
| Expansion.ExpansionKeepsBalance | sultan-core/src/sharding_production.rs:1148-1158 | a balance query is answered after an expansion as before it |
| Expansion.ExpansionKeepsSupply | sultan-core/src/sharding_production.rs:1288-1345 | collecting, rehashing and redistributing all accounts conserves the supply |
| Expansion.ExpansionIsSafe | sultan-core/src/sharding_production.rs:1288-1345 | balances, placement for the new count, supply and the configured maximum are kept; nonce trackers restart at zero |
| Expansion.ExpansionCounts | sultan-core/src/sharding_production.rs:1288-1345 | asked for more shards the ledger gets that many, as far as the maximum goes, and an expansion that adds none changes nothing |
| LedgerRuns.RunIsSafe | sultan-core/src/sharding_production.rs:679-1103 | in every state of every run of batches, expansions and queue passes with a failure point for each attempt: home placement, no lock, each idempotency key effective at most once, every queued entry attempted at most three times; the supply is the initial one plus what failed attempts created minus what they destroyed, and nonces are consecutive per sender since the last expansion unless a failed attempt moved a tracker |
| LedgerRuns.CalmRunConserves | sultan-core/src/sharding_production.rs:679-1103 | in every run in which nothing times out the supply is constant and every sender's nonces are consecutive |
| LedgerRuns.ExpansionKeepsEntry | sultan-core/src/sharding_production.rs:1288-1345 | a queued entry still names the home shards of its parties after an expansion if and only if both parties keep their shard |
| LedgerRuns.MovedEntry | sultan-core/src/sharding_production.rs:1288-1345 | an entry whose sender moved is never payable; if only the receiver moved, the sender pays and no balance query ever sees the credit |
| AtMostOnce.AppliedOnce | sultan-core/src/sharding_production.rs:351-406 | in every run, as long as no failed attempt moved a tracker, no two transactions applied since the last expansion share sender and nonce: none is applied twice, same-shard or cross-shard |
| AtMostOnce.NeverAcceptedAgain | sultan-core/src/sharding_production.rs:351-376 | an applied transaction is not acceptable again before the next expansion |
| AtMostOnce.ReopenedByExpansion | sultan-core/src/sharding_production.rs:1288-1345 | an expansion makes acceptable exactly the transactions within one new shard whose nonce is zero, whose amount is positive and held, and that are signed |
| AtMostOnce.ReopensAtMostOne | sultan-core/src/sharding_production.rs:1288-1345 | of one sender's transactions applied since the last expansion, the next reopens at most one |
| Replication.BatchReplays | sultan-core/src/sharding_production.rs:314-349 | running only the accepted transactions of a batch again accepts all of them and ends in the same shard |
| Replication.GroupsByShard | sultan-core/src/sharding_production.rs:679-736 | in whatever order groups finish, each shard ends as its own batch leaves it and reports its own accepted transactions in order |
| Replication.DrainReplays | sultan-core/src/sharding_production.rs:1055-1103 | a follower's pass over fresh entries for what the proposer committed commits all of them and ends with the same shards and keys |
| Replication.FollowerReplicates | sultan-core/src/sharded_blockchain_production.rs:394-471 | executing the proposer's block from an equal ledger and an empty queue gives the proposer's accounts, nonces and keys, an empty queue, and the same cross-shard transfers |
| TransferEffects.DrainMoves | sultan-core/src/sharding_production.rs:1055-1103 | for every address: a pass over a queue changes balance, nonce, account and tracker by exactly what the transfers it applies add up to, in a supply within the word |
| CatchingUp.NobodyIsAhead | sultan-core/src/sharding_production.rs:846-918 | when the proposer applies a transfer the follower did not apply itself, it has already applied everything the follower applied of that sender |
| CatchingUp.CoveredEndsAlike | sultan-core/src/sharding_production.rs:1055-1103 | own entries first and the block's after them end in the proposer's shards and keys, if the block applies whatever was applied first, in whatever order and whoever was paid in between |
| WaitingQueues.WaitingFollower | sultan-core/src/sharded_blockchain_production.rs:394-471 | a follower with any queue ends with the proposer's ledger if every transfer its own pass applies is one the block applies, and only if so while no two different transfers among those share a key |
| WaitingQueues.IdleFollower | sultan-core/src/sharded_blockchain_production.rs:394-471 | waiting entries that are skipped or cannot be paid after the block's same-shard part are harmless, whatever keys the block has and however large the supply |
| WaitingQueues.IndependentFollower | sultan-core/src/sharded_blockchain_production.rs:394-471 | with one entry per sender, distinct keys, and none paying a later one's sender, the follower ends with the proposer's ledger if (and, while keys tell, only if) each entry is idle beforehand or committed by the block |
| WaitingQueues.CreditWakesEntry | sultan-core/src/sharding_production.rs:1055-1103 | why none may pay a later one's sender: an entry that is idle for want of funds is applied once an earlier one brings them |
| NodeChain.DrainIgnoresArrival | sultan-core/src/sharded_blockchain_production.rs:269-281 | mempools with the same transactions drain to the same sequence, a sorted permutation, whatever the arrival order, if no two share timestamp, sender and nonce |
| BlockRules.DrainIsOrdered | sultan-core/src/sharded_blockchain_production.rs:269-281 | draining loses nothing, and puts older transactions first, then smaller senders, then smaller nonces |
| Ordering.SortIsStable | sultan-core/src/sharded_blockchain_production.rs:274-278 | transactions that tie keep the order in which they arrived |
| NodeChain.CommittedIsSigned | sultan-core/src/sharding_production.rs:846-918 | every cross-shard transfer that moved funds was signed; the list put into a block is signed exactly when the skipped duplicates are |
| NodeChain.ProducedIsSigned | sultan-core/src/sharded_blockchain_production.rs:163-255 | a produced block carries only valid signatures exactly when the skipped queue entries do |
| NodeChain.RoundReplicates | sultan-core/src/sharded_blockchain_production.rs:394-471 | a follower in step accepts the proposer's block exactly when the clock advanced, no transaction carries a gas fee and skipped entries are signed; after applying it, in any group order, both nodes are in step again |
| BlockRules.ProducedBlockCarries | sultan-core/src/sharded_blockchain_production.rs:163-255 | a produced block holds what the groups processed and then what the queue committed, is appended at its height, and the ledger is the one after both; the mempool is not touched |
| BlockRules.AppliedBlockClears | sultan-core/src/sharded_blockchain_production.rs:394-471 | applying appends the block as it is, executes it unless it is empty, and takes from the mempool every transaction the block has, in all its copies, and nothing else |
| BlockRules.LeftOverExactly | sultan-core/src/sharded_blockchain_production.rs:429-436 | a pending transaction whose key is not in the block stays as often as it waited |
| BlockRules.LeftOverConcat | sultan-core/src/sharded_blockchain_production.rs:429-436 | and in order |
| BlockRules.IncludedExactly | sultan-core/src/sharded_blockchain_production.rs:429-436 | for addresses without colons, a block takes along exactly the pending transactions that share sender, receiver and nonce with one of its own |
| BlockRules.SealedBlock | sultan-core/src/sharded_blockchain_production.rs:223-241 | a new block is one above the last, linked to it, and carries the digest of its own header |
| BlockRules.AcceptedExtends | sultan-core/src/sharded_blockchain_production.rs:624-675 | an accepted block keeps the chain linked and sealed, is later than the last, and holds only signed, fee-free transactions |
| BlockRules.ValidIsAccepted | sultan-core/src/sharded_blockchain_production.rs:394-423 | on a linked chain a block that validation passes is also accepted by the checks of height and linkage that follow |
| BlockRules.ChangedBlockIsRefused | sultan-core/src/sharded_blockchain_production.rs:678-692 | a block whose header was changed after sealing is refused, or the two headers collide |
| BlockRules.HashBinds | sultan-core/src/sharded_blockchain_production.rs:678-692 | two accepted blocks with one hash agree in every part of the header, or the headers collide |
| BlockRules.TransactionsAreNotBound | sultan-core/src/sharded_blockchain_production.rs:678-692 | but which transactions they hold is not bound: any others of the same number that are signed and fee-free pass as well |
| BlockRules.LastHashBinds | sultan-core/src/sharded_blockchain_production.rs:499-527 | two linked and sealed chains of one length with the same last hash have the same headers, or two headers collide |
| BlockRules.SignatureBinds | sultan-core/src/sharding_production.rs:209-311 | one signature accepted under one key for two transactions is either over one message, or shows two messages that key's signature passes for |
| BlockRules.UnsignedIsRefused | sultan-core/src/sharding_production.rs:209-225 | without a signature or a public key no shard accepts a transaction |
| BlockRules.KeyBinds | sultan-core/src/sharding_production.rs:485-491 | one idempotency key means one amount, one nonce and the same two addresses written one after the other, or the digest collides |
| ChainRuns.BlockDrawsFrom | sultan-core/src/sharded_blockchain_production.rs:163-255 | a block holds only transactions that were handed in or waited in the queue |
| ChainRuns.CleanBlockIsAccepted | sultan-core/src/sharded_blockchain_production.rs:624-675 | a proposer given only signed, fee-free transactions produces a block its follower accepts once the clock advances |
| ChainRuns.RunReplicates | sultan-core/src/sharded_blockchain_production.rs:394-471 | over any number of rounds proposer and follower stay in step |
| ChainRuns.IdleQueueIsHarmless | sultan-core/src/sharded_blockchain_production.rs:394-471 | a follower with nothing waiting, or only idle entries, is harmed by no block |
| ChainRuns.TurnAgrees | sultan-core/src/main.rs:920-950 | after a block nodes that agreed before, each with a queue of its own, agree again if the block harmed none of them, and only if so while keys tell the transfers apart |
| ChainRuns.RotationAgrees | sultan-core/src/main.rs:920-950 | any number of nodes that take turns as proposer, whatever waits in their queues and in whatever order each node's shard groups finish, agree on chain and ledger up to the first block that harms a follower |
| ChainRuns.RotationAgreesExactly | sultan-core/src/main.rs:920-950 | and, while keys tell the transfers apart, they agree after every block if and only if no block harmed anyone |
| ReplicationLimits.GasFeeBlockIsRefused | sultan-core/src/sharded_blockchain_production.rs:624-675 | shards do not look at gas fees but block validation does: a concrete block every follower refuses |
| ReplicationLimits.QueuedFollowerDiverges | sultan-core/src/sharded_blockchain_production.rs:394-471 | a concrete follower with a waiting transfer, not in the block, that leaves the proposer behind |
| LoneExpansion.LoneExpansionExactly | sultan-core/src/main.rs:967-977 | after an expansion on one node alone, the two nodes answer every balance and nonce query alike if and only if it did nothing or nobody had sent anything; they hold the same ledger only if it did nothing |
| LoneExpansion.ReplayPartsThem | sultan-core/src/main.rs:967-977 | for every sender that has sent before: the expanded proposer applies its nonce zero once more, the follower refuses that block's transaction, and their balances differ by the amount |
| LoneExpansion.ConcreteReplay | sultan-core/src/main.rs:967-977 | a concrete ledger and block on which they part |
| ShardingCoordinator.Shard.ValidateTransaction | sultan-core/src/sharding_production.rs:351-376 | succeeds exactly on a positive amount that the sender holds and the tracker's nonce |
| ShardingCoordinator.Shard.ApplyTransaction | sultan-core/src/sharding_production.rs:378-406 | an accepted transaction debits the sender, credits the receiver and advances the tracker; a refused one changes nothing |
| ShardingCoordinator.Shard.ProcessTransactions | sultan-core/src/sharding_production.rs:314-349 | the batch loop ends in the specified shard and reports exactly the accepted transactions in order |
| ShardingCoordinator.Coordinator.ClassifyTransactions | sultan-core/src/sharding_production.rs:646-676 | one group per shard with same-shard work, in arrival order, and the cross-shard entries, none if disabled |
| ShardingCoordinator.Coordinator.ProcessParallel | sultan-core/src/sharding_production.rs:679-736 | for some order in which each nonempty group runs exactly once, the shards are those of running the groups in that order, the report is their accepted transactions, and the cross-shard entries join the end of the queue |
| ShardingCoordinator.Coordinator.PreparePhase | sultan-core/src/sharding_production.rs:846-918 | succeeds exactly for an unlocked transfer between healthy shards whose sender exists, holds the amount, has that nonce and signed; then the sender's balance and nonce are captured; no balance changes, and the lock stays exactly on success, on a missing sender and on a timeout |
| ShardingCoordinator.Coordinator.CommitPhase | sultan-core/src/sharding_production.rs:920-978 | debits the sender at the source if it still holds the amount, then credits the receiver, and stops where the timeout strikes with what was done so far |
| ShardingCoordinator.Coordinator.RollbackPhase | sultan-core/src/sharding_production.rs:980-1052 | releases the lock; with captured data the source gets back the captured balance, and nonce where the balance differed, and the receiver loses the amount if it holds that much |
| ShardingCoordinator.Coordinator.ExecuteCrossShardCommit | sultan-core/src/sharding_production.rs:739-819 | a known key counts as done and changes nothing; otherwise success means prepared and committed with the key recorded, and failure is rolled back and marked aborted |
| ShardingCoordinator.Coordinator.ProcessCrossShardQueue | sultan-core/src/sharding_production.rs:1055-1103 | the drain loop attempts every entry once in order, each with its own failure point, and requeues failures below the retry limit |
| ShardingCoordinator.Coordinator.ExpandShards | sultan-core/src/sharding_production.rs:1288-1345 | swaps in freshly made shards that hold every account in its new home |
| ShardingCoordinator.Coordinator.InitAccount | sultan-core/src/sharding_production.rs:1131-1146 | sets balance and nonce in the account's home shard and nothing else |
| ShardingCoordinator.Coordinator.GetBalance | sultan-core/src/sharding_production.rs:1148-1158 | returns the balance in the home shard, zero if absent |
| SultanBlockchain.Blockchain.constructor | sultan-core/src/sharded_blockchain_production.rs:93-136 | a new node holds the genesis block and a ledger in order |
| SultanBlockchain.Blockchain.SubmitTransaction | sultan-core/src/sharded_blockchain_production.rs:258-263 | appends to the mempool and touches nothing else |
| SultanBlockchain.Blockchain.DrainPendingTransactions | sultan-core/src/sharded_blockchain_production.rs:269-281 | empties the mempool and returns it sorted by timestamp, sender and nonce |
| SultanBlockchain.Blockchain.CreateBlock | sultan-core/src/sharded_blockchain_production.rs:163-255 | appends the block of everything that took effect and keeps the chain linked and the ledger in order |
| SultanBlockchain.Blockchain.ValidateBlock | sultan-core/src/sharded_blockchain_production.rs:624-675 | true exactly for the next index, matching hashes, an advanced clock, and only signed fee-free transactions |
| SultanBlockchain.Blockchain.ApplyBlock | sultan-core/src/sharded_blockchain_production.rs:394-471 | refuses and changes nothing, or executes the block, drops its transactions from the mempool and appends it |
| SultanBlockchain.Blockchain.VerifyIntegrity | sultan-core/src/sharded_blockchain_production.rs:499-527 | true exactly when indices are consecutive and hashes link |
| SultanBlockchain.RetainLeftOver | sultan-core/src/sharded_blockchain_production.rs:429-436 | dropping block transactions from the mempool one by one leaves, in order, exactly those whose key is not in the block |
| PoolMath.IntegerSqrt | sultan-core/src/native_dex.rs:721-735 | Newton's loop terminates, never leaves the word and returns the exact floor root of every n below the largest word |
| PoolMath.NewtonStepStaysAbove | sultan-core/src/native_dex.rs:721-735 | a Newton step from anywhere does not fall below the floor root |
| PoolSafety.SwapKeepsProduct | sultan-core/src/native_dex.rs:256-298 | any swap leaves the LP supply alone and lowers the product of the reserves at most in the ratio of the input kept to the input traded, and not at all for an amount whose fee covers the protocol's part or that is too large to trade; a refused one changes nothing |
| PoolSafety.ProductIsKeptExactly | sultan-core/src/native_dex.rs:256-298 | for all reserves a swap of this amount keeps the product if and only if the computed fee covers the protocol's part, or the amount is too large to trade against anything but an empty reserve |
| PoolSafety.SmallInputIsCovered | sultan-core/src/native_dex.rs:258-263 | the fee covers the protocol's part whenever the fee multiplication fits the word |
| PoolSafety.WrappedFeeBreaksBound | sultan-core/src/native_dex.rs:258-263 | a concrete swap whose fee multiplication wraps and whose pool ends below the LP bound |
| PoolSafety.AddWithinDesired | sultan-core/src/native_dex.rs:348-356 | on either branch of the ratio choice no more than the desired amounts is taken |
| PoolSafety.AddKeepsSound | sultan-core/src/native_dex.rs:348-382 | a deposit lowers neither reserve per LP token and keeps the LP bound, even when a late overflow leaves it half done |
| PoolSafety.RemoveKeepsSound | sultan-core/src/native_dex.rs:435-450 | a withdrawal takes no more than the reserves, lowers neither reserve per remaining LP token and keeps the LP bound |
| RoundTrips.NoSwapGain | sultan-core/src/native_dex.rs:256-298 | for every pool, direction, amount and limits: swapping in and straight back never returns more than went in, and at most what the fees as computed leave |
| RoundTrips.RoundTripPaysExactly | sultan-core/src/native_dex.rs:256-298 | for all reserves, directions and limits a round trip of this amount returns at most the input minus the protocol's fee, if and only if the computed fee falls short of the protocol's part by at most one, or the amount is too large to trade against anything but an empty reserve |
| RoundTrips.WrappedFeeComesBack | sultan-core/src/native_dex.rs:258-263 | a concrete round trip whose fee multiplication wraps and that returns more than the input minus the protocol's fee |
| RoundTrips.NoDepositGain | sultan-core/src/native_dex.rs:348-450 | depositing and withdrawing the minted LP tokens returns at most each deposited amount |
| PoolSafety.NewPoolIsSound | sultan-core/src/native_dex.rs:168-173 | a pool whose LP supply is the root of the wrapped product starts within the LP bound |
| PoolSafety.PoolRunIsSound | sultan-core/src/native_dex.rs:230-474 | in every state of every run from a new pool, with swap amounts that keep the product of whatever reserves (exactly those of ProductIsKeptExactly), the square of the LP supply is at most the product of the reserves; swaps lower no product, deposits and withdrawals dilute nobody |
| PoolSafety.SoundPoolIsFunded | sultan-core/src/native_dex.rs:348-350 | while LP tokens exist no reserve is empty, so nothing divides by zero |
| PoolOutcomes.FeesAreShares | sultan-core/src/native_dex.rs:256-260 | while the multiplications fit the word, both fees are their rates in hundredths of a percent, rounded down |
| PoolOutcomes.SwapIsAcceptedExactly | sultan-core/src/native_dex.rs:256-297 | a swap is accepted if and only if something comes in, something goes out, it is at least the caller's minimum, and no checked operation overflows; a refused one changes nothing |
| PoolOutcomes.OutputIsExact | sultan-core/src/native_dex.rs:266-272 | what goes out is the most that keeps the constant product, and never more than the reserve |
| PoolOutcomes.SwapRecords | sultan-core/src/native_dex.rs:281-297 | the whole pool record after an accepted swap: reserves, and the input side's volume and fee counters as words |
| PoolOutcomes.DepositMatchesRatio | sultan-core/src/native_dex.rs:348-356 | while the products fit the word, a deposit takes one desired amount whole and of the other the most that does not exceed the pool's ratio; the first token whole exactly when its match is within what was desired of the second |
| PoolOutcomes.DepositIsAcceptedExactly | sultan-core/src/native_dex.rs:358-385 | a deposit is accepted if and only if both amounts reach the caller's minimums, something is minted and nothing overflows |
| PoolOutcomes.EmptyPoolPanics | sultan-core/src/native_dex.rs:348-350 | a deposit into a pool without reserves divides by zero and changes nothing |
| PoolOutcomes.WithdrawalIsAcceptedExactly | sultan-core/src/native_dex.rs:420-456 | while the products fit the word, a withdrawal is accepted if and only if it burns LP tokens the user holds and both exact shares reach the caller's minimums |
| TokenLedger.TransferConserves | sultan-core/src/token_factory.rs:571-611 | a transfer conserves every denomination when it succeeds and creates nothing when it fails |
| TokenLedger.PaymentsConserve | sultan-core/src/token_factory.rs:571-611 | so does any list of payments |
| TokenLedger.MintSum | sultan-core/src/token_factory.rs:803-839 | minting adds exactly the amount, to one balance of one denomination |
| TokenLedger.BurnSum | sultan-core/src/token_factory.rs:945-976 | a covered burn succeeds and removes exactly the amount, from one balance of one denomination |
| DexOutcomes.TransferIsAcceptedExactly | sultan-core/src/token_factory.rs:571-610 | a transfer goes through if and only if it is positive, held, of a known token and fits what the receiver has; otherwise nothing moves, except that an overflow at the receiver loses the debit |
| DexOutcomes.MintIsAcceptedExactly | sultan-core/src/token_factory.rs:803-837 | minting respects the maximum supply and both words, and raises the recorded supply by the amount |
| DexOutcomes.BurnIsAcceptedExactly | sultan-core/src/token_factory.rs:945-976 | burning takes exactly what is held off the balance and the recorded supply |
| DexOutcomes.SupplyStaysHeld | sultan-core/src/token_factory.rs:803-976 | minting and burning that go through keep the recorded supply equal to the sum of all balances; a new LP token starts so |
| DexSafety.DexRunIsOrderly | sultan-core/src/native_dex.rs:135-474 | over any run of the exchange, whatever was swapped and whatever failed, pools keep names and rates, and LP balances never exceed the recorded LP supply |
| DexSafety.DexRunIsSound | sultan-core/src/native_dex.rs:135-474 | over any run whose accepted swaps have amounts that keep the product of whatever reserves, whatever failed, every pool keeps the LP bound |
| DexSafety.LpDenomsDiffer | sultan-core/src/native_dex.rs:154-176 | pools with one LP denomination have one pair id |
| DexPayments.PaymentGoesThrough | sultan-core/src/token_factory.rs:571-611 | where no denomination's total exceeds the word, a payment goes through if and only if it is positive and the payer holds it |
| DexPayments.PaymentsMove | sultan-core/src/token_factory.rs:571-611 | payments that all succeed change each balance by exactly their net amount |
| DexBacking.SwapBackedExactly | sultan-core/src/native_dex.rs:282-320 | after an accepted swap in either direction all pools stay covered if the user held the kept input (fee wallet set) or the whole input (no wallet); for a pool that records nothing it does not hold, only then, unless the recorded fee wraps |
| DexBacking.AddBackedExactly | sultan-core/src/native_dex.rs:348-400 | an accepted deposit leaves all pools covered, and goes through, if and only if the user held both amounts |
| DexBacking.RemoveNeverUnbacks | sultan-core/src/native_dex.rs:411-474 | a withdrawal that passed the checks never leaves a pool uncovered, and pays if and only if both shares are positive |
| DexBackedRuns.CreateNeverUnbacks | sultan-core/src/native_dex.rs:135-225 | a pool creation, whether or not it goes through, never leaves a pool uncovered |
| DexBackedRuns.HalfAddUnbacks | sultan-core/src/native_dex.rs:372-382 | a deposit that overflows halfway leaves a pool that records nothing it does not hold covered if and only if it changed nothing |
| DexBackedRuns.StepIsBacked | sultan-core/src/native_dex.rs:135-474 | every operation whose user can afford it by what is held beforehand keeps every pool account covering its records, whatever the operation comes to |
| DexBackedRuns.DexRunIsBacked | sultan-core/src/native_dex.rs:135-474 | over any run of affordable operations, whatever amounts are swapped, each pool account covers the recorded reserves, plus the fees when no wallet is set, and LP balances sum to the LP supply |
| DexEffects.SwapSettles | sultan-core/src/native_dex.rs:306-320 | for every denomination and holder: after a swap the user has paid the whole input and got the output, the wallet (or the pool) has the protocol's fee, the pool the rest, and nobody else's balance differs |
| DexOutcomes.SwapGoesThroughExactly | sultan-core/src/native_dex.rs:230-332 | in a backed exchange a person's swap goes through if and only if the pool accepts it and the person holds the whole input; at least the minimum comes out |
| DexEffects.AddSettles | sultan-core/src/native_dex.rs:391-396 | for every denomination and holder: after a deposit the pool has both amounts, the user the LP tokens, and nothing else differs |
| DexEffects.RemoveSettles | sultan-core/src/native_dex.rs:458-463 | for every denomination and holder: after a withdrawal the LP tokens are gone, the user has both shares, and nothing else differs |
| DexEffects.WithdrawalSettles | sultan-core/src/native_dex.rs:435-463 | for every denomination and holder after any withdrawal that passed the checks, also one that then fails: the LP tokens are burned, and a share of zero stops the payments, so that a zero share of the first token forfeits the second |
| DexEffects.ZeroShareIsAccepted | sultan-core/src/native_dex.rs:435-450 | a concrete pool of reserves 1 and 100 where half the LP supply is accepted for nothing of the first token |
| DexEffects.CreateSettles | sultan-core/src/native_dex.rs:164-186 | for every denomination and holder: after a creation the pool has both deposits, the creator the whole LP supply, and nothing else differs |
| DexOutcomes.PairIsSymmetric | sultan-core/src/native_dex.rs:147-152 | naming the two tokens in either order, each with its amount, creates the same pool in the same state |
| DexOutcomes.CreatedPoolIsAsAsked | sultan-core/src/native_dex.rs:135-225 | a created pool records for each token its own amount, its tokens in order, the exchange's rates and no volume, and while the product fits the word its LP supply is the integer root of the product |
| DexOutcomes.CreationIsAcceptedExactly | sultan-core/src/native_dex.rs:143-190 | a person gets a pool if and only if both amounts are positive and held, and neither the pool nor its LP token exists |
| DexOutcomes.RefusedCreation | sultan-core/src/native_dex.rs:143-164 | a creation with a zero amount, or for a pair that has a pool, takes nothing from anybody |
| DexEffects.QuoteIsLargest | sultan-core/src/native_dex.rs:256-270 | the output keeps the product of the reserves for the input after fees, and one unit more would not |
| DexEffects.MintIsLargest | sultan-core/src/native_dex.rs:366-370 | as long as the products fit the word, the LP tokens minted dilute neither reserve, and one more would |
| DexEffects.WithdrawalIsLargest | sultan-core/src/native_dex.rs:435-450 | as long as the products fit the word, a withdrawal dilutes nobody who stays, and one unit more of either token would |
| NativeDex.TokenFactory.TransferInternal | sultan-core/src/token_factory.rs:571-611 | moves the amount between two balances; fails and changes nothing for a zero amount, an unknown denomination or too little held, and leaves the debit behind when the receiver overflows |
| NativeDex.TokenFactory.MintInternal | sultan-core/src/token_factory.rs:803-839 | raises supply and one balance by the amount unless supply or its maximum would be exceeded; a receiver overflow leaves the supply raised |
| NativeDex.TokenFactory.BurnInternal | sultan-core/src/token_factory.rs:945-976 | lowers one balance by an amount it covers, and the supply by as much or to zero; otherwise fails and changes nothing |
| NativeDex.TokenFactory.CreateLpTokenInternal | sultan-core/src/token_factory.rs:842-891 | a new denomination has its whole supply at the pair account; an existing one is refused |
| NativeDex.Exchange.constructor | sultan-core/src/native_dex.rs:64-86 | starts without pools and with the default fees |
| NativeDex.Exchange.CreatePairInternal | sultan-core/src/native_dex.rs:135-225 | on success sorted tokens, both deposits paid, LP supply the exact root, handed to the creator, and the pool recorded; on failure no pool is recorded and what was paid so far stays paid |
| NativeDex.Exchange.SwapInternal | sultan-core/src/native_dex.rs:230-331 | an unknown pool or token or a refused quote changes nothing; an accepted quote changes reserves, volumes and fees first and then pays in order, stopping at the first payment that fails |
| NativeDex.Exchange.AddLiquidityInternal | sultan-core/src/native_dex.rs:335-407 | an accepted deposit raises reserves and LP supply first, then takes both amounts and mints, stopping at the first payment that fails |
| NativeDex.Exchange.RemoveLiquidityInternal | sultan-core/src/native_dex.rs:411-474 | an accepted withdrawal lowers reserves and LP supply first, then burns the LP tokens and pays both shares, stopping at the first payment that fails |
| Consensus.StepIsWellKept | sultan-core/src/consensus.rs:150-435 | no event breaks a validator's record: power equals stake, active means unjailed with enough stake, missed blocks stay below 100, slash counters match the evidence |
| Consensus.RunIsWellKept | sultan-core/src/consensus.rs:150-435 | the same in every run from genesis, whoever the events hit |
| StakeAccounting.StepBalances | sultan-core/src/consensus.rs:150-435 | the stake total stays the sum of the active stakes if and only if removal, restaking and slashing hit an active validator (or nothing at stake) and additions fit the word |
| StakeAccounting.RunBalances | sultan-core/src/consensus.rs:150-435 | over every run of such events the total is the sum of the active stakes |
| StakeAccounting.OneWeighing | sultan-core/src/consensus.rs:511-520 | in such runs quorum power, proposer power and the stake total are the same number |
| StakeAccounting.SlashedSitsOut | sultan-core/src/consensus.rs:377-381 | a validator slashed at a height stays jailed and inactive for the whole term, whatever else happens in those blocks |
| StakeAccounting.OnlyReleaseActivates | sultan-core/src/consensus.rs:409-435 | a jailed validator becomes active or unjailed exactly by a release at or after the term's end with enough stake |
| StakeAccounting.SlashIsExact | sultan-core/src/consensus.rs:365-365 | a slash takes the stated share exactly when the multiplication fits the word |
| StakeEffects.JoiningTakesEffect | sultan-core/src/consensus.rs:150-183 | whoever is new and brings the minimum joins, and then signs and proposes with just that stake; everybody else's record stays, and a refusal changes nothing |
| StakeEffects.RestakingTakesEffect | sultan-core/src/consensus.rs:198-217 | the new stake is the new power of a validator that takes part; it brings nobody in, throws nobody out and changes no other record |
| StakeEffects.RemovalTakesEffect | sultan-core/src/consensus.rs:186-195 | a known validator that is removed is inactive, can neither sign nor propose, and keeps the rest of its record; nobody else's changes |
| StakeEffects.RemovedSitsOut | sultan-core/src/consensus.rs:186-195 | it neither signs nor proposes in any later state of any run, until it is released from jail |
| StakeEffects.ActivatedExactly | sultan-core/src/consensus.rs:150-435 | no event makes an inactive validator active but a release of it from jail after its term with enough stake, and that always does |
| StakeEffects.DeactivatedExactly | sultan-core/src/consensus.rs:186-406 | no event makes an active validator inactive but its removal or a slash, and either always does |
| StakeEffects.ReleaseTakesEffect | sultan-core/src/consensus.rs:409-435 | a release is accepted exactly for a jailed validator after its term with enough stake, which then signs and proposes with all it has left |
| StakeEffects.ChargeIsConcrete | sultan-core/src/consensus.rs:355-365 | downtime costs a thousandth of the stake, and signing twice a twentieth while the multiplication fits the word |
| StakeEffects.SlashTakesEffect | sultan-core/src/consensus.rs:355-406 | a slashed validator loses the amount, is jailed for ten thousand blocks, sits out, and the evidence names it, the height and the amount |
| StakeEffects.HundredthMissSlashes | sultan-core/src/consensus.rs:283-318 | ninety-nine misses in a row only count, the hundredth slashes for downtime |
| StakeEffects.MissIsIgnored | sultan-core/src/consensus.rs:283-293 | a jailed validator misses nothing, and of an unknown one the call says so; neither changes anything |
| StakeEffects.SigningClearsMisses | sultan-core/src/consensus.rs:261-280 | a signed block clears the misses before it, a proposed one does not |
| StakeEffects.DoubleVoteIsSlashed | sultan-core/src/consensus.rs:322-351 | whatever happens between two votes of one validator at one height, the second is evidence against it if and only if it is for another block and the validator is known |
| StakeEffects.SecondVote | sultan-core/src/consensus.rs:322-351 | and what it then loses, and what the evidence says |
| StakeEffects.SignatureIsCounted | sultan-core/src/consensus.rs:439-488 | a signature from a validator that may sign, over the block already being signed, counts once with its power and is answered with whether the quorum is reached; any other changes nothing |
| StakeEffects.OtherBlockIsRefused | sultan-core/src/consensus.rs:462-467 | a signature over another block than the one being signed changes nothing and is never answered with yes |
| StakeEffects.PowerIsRecorded | sultan-core/src/consensus.rs:508-519 | who may sign is who is active and not jailed, and what counts is the recorded voting power |
| StakeEffects.CleanupKeepsTheLast | sultan-core/src/consensus.rs:523-527 | cleaning up keeps the last heights, as many as it is told to, and never height zero |
| Quorum.QuorumIsTwoThirds | sultan-core/src/consensus.rs:511-520 | the threshold is reached exactly by strict two-thirds majorities |
| Quorum.QuorumIntersection | sultan-core/src/consensus.rs:511-520 | all pairs of quorums share more than a third of the power, in every validator set of a given total, if and only if twice the total fits the word |
| Quorum.CollectIsExact | sultan-core/src/consensus.rs:469-473 | a set's collected power remains the exact power sum of its distinct signers |
| Quorum.RunIsExact | sultan-core/src/consensus.rs:439-478 | over any run of votes and cleanups every signature set's power is that of its signers, each of whom sent an acceptable signature of its block |
| Quorum.ConsensusIsTwoThirds | sultan-core/src/consensus.rs:439-508 | without cleanups, consensus is reported exactly when validators with more than two thirds of the power signed the settled block |
| Quorum.Agreement | sultan-core/src/consensus.rs:439-508 | two engines with the same validators, fed separately, settle on the same block at a height unless more than a third of the power signed both |
| Quorum.WrappedEnginesDisagree | sultan-core/src/consensus.rs:511-520 | at a total power of 2^63 two engines settle on different blocks although nobody signed twice |
| Proposer.ExactlyOneIsChosen | sultan-core/src/consensus.rs:614-649 | every target below the total selects exactly one validator, by a definition that mentions no order of iteration |
| Proposer.ShareIsProportional | sultan-core/src/consensus.rs:636-645 | of all targets below the true total, a validator is selected for exactly as many as it has power |
| Proposer.ProportionalExactly | sultan-core/src/consensus.rs:627-645 | over the targets the code can draw, those below the total as a word, every validator is selected for exactly as many as it has power if and only if the total fits the word |
| Proposer.WrappedSelection | sultan-core/src/consensus.rs:627-645 | two concrete validators whose powers sum to 2^64 + 10: ten targets come up and all select the first |
| Proposer.WalkStep | sultan-core/src/consensus.rs:639-645 | the walk over sorted addresses stops at an entry exactly when that entry is the selected validator |
| ConsensusEngine.Engine.AddValidator | sultan-core/src/consensus.rs:150-183 | below the minimum stake or already known refused; otherwise the validator is entered active with power equal to stake, and the stake total grows by the stake as a word |
| ConsensusEngine.Engine.RemoveValidator | sultan-core/src/consensus.rs:186-195 | an unknown validator is refused; a known one becomes inactive and its stake leaves the total as a word, however often it is removed |
| ConsensusEngine.Engine.UpdateStake | sultan-core/src/consensus.rs:198-217 | below the minimum or unknown refused; otherwise stake and power become the new amount and the total changes by the difference as a word, whether or not the validator is active |
| ConsensusEngine.Engine.RecordMissedBlock | sultan-core/src/consensus.rs:283-318 | a jailed validator is left alone; otherwise one more miss is counted, and the hundredth slashes for downtime and resets the count |
| ConsensusEngine.Engine.RecordBlockVote | sultan-core/src/consensus.rs:322-351 | the first vote at a height stays; a later one for another hash slashes for double signing, with both hashes as evidence |
| ConsensusEngine.Engine.ApplySlash | sultan-core/src/consensus.rs:355-406 | stake and power drop by the share, the validator is jailed for the term and inactive, its whole former stake leaves the total, and one piece of evidence is added |
| ConsensusEngine.Engine.UnjailValidator | sultan-core/src/consensus.rs:409-435 | a jailed validator whose term is over and whose stake suffices becomes active again and its stake rejoins the total; every other call changes nothing |
| ConsensusEngine.Engine.RequiredVotingPower | sultan-core/src/consensus.rs:511-520 | the loop over validators, in any order, yields the threshold of the active validators' total power |
| ConsensusEngine.Engine.CheckConsensus | sultan-core/src/consensus.rs:501-508 | true exactly when the height's collected power reaches the threshold |
| ConsensusEngine.Engine.CollectSignature | sultan-core/src/consensus.rs:439-478 | only a known, active, unjailed signer with a valid signature of the first hash seen at the height adds its power, and only once |
| ConsensusEngine.Engine.SelectProposerForHeight | sultan-core/src/consensus.rs:614-649 | returns, for every order in which the map is visited, the first validator by address whose running total, as a word, exceeds the seed's remainder by the total as a word (the very first if there is none), and nobody exactly when that total is zero; also when the sum of the powers wraps |
| Bytes.ConcatIsInjective | sultan-core/src/bridge_integration.rs:179-185 | a concatenation of digests determines the digests |
| SpvProof.Parse | sultan-core/src/bridge_integration.rs:164-197 | returns nothing exactly when the data is shorter than its own branch count demands; otherwise the data starts with the encoding of the result and of no other proof |
| SpvProof.RoundTrip | sultan-core/src/bridge_integration.rs:164-197 | parsing an encoded proof followed by any bytes gives the proof back |
| SpvProof.EncodingIsPrefixFree | sultan-core/src/bridge_integration.rs:161-197 | no byte string starts with the encodings of two proofs |
| SpvProof.ComputeMerkleRoot | sultan-core/src/bridge_integration.rs:200-225 | the loop computes the recursive fold of the path |
| SpvProof.SmallBlocks | sultan-core/src/bridge_integration.rs:200-225 | the roots of blocks of one, two and three transactions, written out: pairs hashed twice, the third paired with itself |
| SpvProof.SmallPaths | sultan-core/src/bridge_integration.rs:200-225 | the bits of the index say, from the lowest, on which side each sibling stands |
| Bytes.LowestByteFirst | sultan-core/src/bridge_integration.rs:172-191 | the counts in a proof are stored lowest byte first |
| SpvProof.Verify | sultan-core/src/bridge_integration.rs:228-237 | true exactly when the fold equals bytes 36 to 68 of the header |
| SpvProof.HonestProofVerifies | sultan-core/src/bridge_integration.rs:200-237 | the sibling path of every transaction and of every inner node of a block with any number of transactions, under every index that stands for it, verifies exactly against that block's root |
| SpvProof.ProofsBind | sultan-core/src/bridge_integration.rs:200-237 | two verified proofs with one header root, index and branch length carry the same transaction and branch, or an explicit collision is returned |
| SpvProof.VerifiedProofIsGenuine | sultan-core/src/bridge_integration.rs:200-237 | a verified proof with a branch of any length up to the tree's height, whatever its index, is the node at that level and index with its sibling path, or an explicit collision is returned; with a branch of the full height that node is a transaction of the block |
| SpvProof.LongProofIsBelowLeaf | sultan-core/src/bridge_integration.rs:200-237 | with a longer branch, what the surplus folds to is a transaction of the block, or an explicit collision is returned |
| SpvProof.RootNeedsNoBranch | sultan-core/src/bridge_integration.rs:200-237 | for every hash, block, header and index: the root itself with an empty branch verifies exactly against that block's header, since the branch length is never checked |
| SpvProof.VerifySpvProof | sultan-core/src/bridge_integration.rs:243-268 | when the check is pending, verified, unparsable or invalid, exactly, from the proof data and the confirmations alone |
| SpvProof.RequestIsIgnored | sultan-core/src/bridge_integration.rs:243-268 | the same proof data gets the same answer whichever transaction was asked about: a verified proof is not tied to the requested hash |
| MerkleLevels.PathFoldsToRoot | sultan-core/src/bridge_integration.rs:200-225 | in trees that pair an odd node with itself, every leaf's sibling path folds to the root |
| MerkleLevels.PerfectPathFoldsToRoot | sultan-core/src/bridge_integration.rs:200-225 | in a perfect tree, read top-down, every leaf's sibling path folds to the root |
| MerkleLevels.AnyPathFoldsToRoot | sultan-core/src/bridge_integration.rs:200-225 | also from positions past the end of a level, where the self-paired last node repeats, the sibling path folds to the root |
| MerkleLevels.FoldBinds | sultan-core/src/bridge_integration.rs:200-225 | equal folds of equal length and index have equal starts and branches, or an explicit collision is returned |
| MerkleLevels.RootIsSubtree | sultan-core/src/sharding_production.rs:110-128 | building level by level computes the recursive tree of least height |
| MerkleLevels.RootBinds | sultan-core/src/sharding_production.rs:110-128 | equal roots over equally many leaves force equal leaves, or an explicit collision is returned |
| MerkleTree.BuildLevel | sultan-core/src/sharding_production.rs:113-125 | the chunk loop computes the next level, an odd node hashed alone |
| MerkleTree.New | sultan-core/src/sharding_production.rs:92-135 | the level loop terminates with the recursively defined root, zero for no data |
| MerkleTree.StateRootBinds | sultan-core/src/sharding_production.rs:92-135 | equal roots over equally many entries force equal entries, or an explicit collision is returned |
| MerkleTree.SmallStates | sultan-core/src/sharding_production.rs:91-134 | the roots of no, one, two and three entries, written out: each entry and pair hashed once, a third leaf once more on its own |
| LegacyChain.RunIsOk | sultan-core/src/blockchain.rs:95-189 | over every run of submissions and block creations each pending transaction stays valid, ahead of its sender's nonce and unique in the pool, and the chain stays linked with recomputable hashes |
| LegacyChain.CreatedIsAccepted | sultan-core/src/blockchain.rs:136-253 | after any such run a created block is accepted by a peer with the same last block and accounts exactly when its timestamp advances |
| LegacyChain.FailedCreationForgets | sultan-core/src/blockchain.rs:141-152 | a failed creation keeps accounts and chain, loses the pending list, and the pool refuses the lost transactions from then on |
| LegacyChain.ApplyMoves | sultan-core/src/blockchain.rs:256-278 | for every address: the amount goes from sender to receiver, as words allow, and nobody else's balance changes |
| LegacyChain.ApplyConserves | sultan-core/src/blockchain.rs:256-278 | a transaction conserves the supply exactly when the credit fits the receiver's word, which a supply within the word ensures |
| LegacyChain.BlockConserves | sultan-core/src/blockchain.rs:148-152 | a block conserves a supply that fits the word |
| LegacyChain.RunConserves | sultan-core/src/blockchain.rs:95-189 | so does any run |
| LegacyChain.NoncesCount | sultan-core/src/blockchain.rs:267-268 | an account's nonce grows by the number of transactions its owner sent, and by nothing else |
| LegacyEffects.SubmissionIsAcceptedExactly | sultan-core/src/blockchain.rs:95-133 | a submission is admitted if and only if its amount is positive, free of fees, held by a known sender, ahead of its nonce and not in the pool, a zero nonce standing for the next one; it joins list and pool and nothing else happens |
| LegacyEffects.CreationSucceedsExactly | sultan-core/src/blockchain.rs:136-155 | while the supply fits the word a creation succeeds if and only if every sender can pay each pending transaction out of what it had plus what came in less what went out before |
| LegacyEffects.CreatedBlockCarries | sultan-core/src/blockchain.rs:136-189 | the created block holds the whole pending list, linked to the last block and sealed over the new accounts |
| LegacyEffects.CreationMoves | sultan-core/src/blockchain.rs:149-175 | every balance is the old one plus what the list pays it minus what it sends, and every nonce grows by the number it sent |
| LegacyEffects.CreationForgets | sultan-core/src/blockchain.rs:167-172 | the pool forgets the included transactions and no others |
| LegacyEffects.NothingIsLostExactly | sultan-core/src/blockchain.rs:95-189 | over any run every admitted transaction is in a block or still pending, once and in the order of admission, if and only if no creation failed to apply a nonempty list |
| LegacyEffects.AcceptedExtends | sultan-core/src/blockchain.rs:192-232 | an accepted block keeps the chain linked, is later, holds valid and covered transactions, and names the root of accounts moved by just those |
| LegacyEffects.HashBinds | sultan-core/src/blockchain.rs:281-296 | two accepted blocks with one hash agree in every part of the header, or the headers collide |
| LegacyEffects.LastHashBinds | sultan-core/src/blockchain.rs:281-296 | two linked chains of one length with the same last hash have the same headers, genesis included, or two headers collide |
| LegacyEffects.TxHashBinds | sultan-core/src/blockchain.rs:298-303 | one pool key means one sender, receiver, amount, nonce and time, or the digest collides |
| LegacyBlockchain.Blockchain.AddTransaction | sultan-core/src/blockchain.rs:95-133 | fills in a zero nonce, refuses a zero amount, a fee, an unknown or poor sender, a used nonce and a transaction already in the pool, and otherwise adds it to the pool and to the end of the pending list |
| LegacyBlockchain.Blockchain.ApplyTransaction | sultan-core/src/blockchain.rs:256-278 | returns the accounts after debit, count and credit on a working copy, or refuses; the chain's own accounts do not change |
| LegacyBlockchain.Blockchain.CreateBlock | sultan-core/src/blockchain.rs:136-189 | on success the block of all pending transactions is appended, the accounts are those after it, and pool and pending list forget them; on failure only the pending list is lost |
| LegacyBlockchain.Blockchain.ValidateBlock | sultan-core/src/blockchain.rs:192-232 | true exactly for linked, later, correctly hashed blocks of valid transactions with the right state root |
| LegacyBlockchain.Blockchain.ValidateTransaction | sultan-core/src/blockchain.rs:235-253 | true exactly for a positive, fee-free amount that an existing sender holds |
| Governance.PauseTakesTwoThirds | sultan-core/src/governance.rs:650-651 | the threshold, computed in double precision as in the program, is never below 67 percent of the validators, is the least such number unless they come in hundreds, and never asks for more than one vote more (below 2^46 validators) |
| Governance.RoundingAsksForMore | sultan-core/src/governance.rs:650-651 | of 1500 validators 1005 are 67 percent, and 1006 are asked for |
| GovernanceSafety.PassedIsMajority | sultan-core/src/governance.rs:742-782 | while the power fits the word a tally passes exactly on quorum, no veto and more yes than no, and is vetoed exactly above a third |
| GovernanceSafety.TallyIsTrueExactly | sultan-core/src/governance.rs:725-761 | tallies over distinct voters agree with the true majority, for every vote list of a total power, if and only if that total fits the word |
| GovernanceSafety.VoteIsCounted | sultan-core/src/governance.rs:482-518 | a vote that goes through adds the voter's capped power to its option and to no other option or proposal |
| GovernanceSafety.CappedBySnapshot | sultan-core/src/governance.rs:482-493 | distinct voters capped by a snapshot never weigh more than the snapshot |
| GovernanceSafety.RunKeeps | sultan-core/src/governance.rs:263-964 | in every run stored tallies are recounts of the vote lists, statuses are what the tallies say, voters, signers and pause voters are distinct, and votes are capped by the snapshot |
| GovernanceSafety.NothingGoesBack | sultan-core/src/governance.rs:689-800 | a status once left is never entered again, a stored tally never changes, and the votes behind it are frozen |
| GovernanceSafety.ExecutedWasPassed | sultan-core/src/governance.rs:707-964 | every executed proposal was passed by an earlier tally in the voting status after its voting period |
| GovernanceSafety.EnteringExecuted | sultan-core/src/governance.rs:564-964 | a proposal becomes executed exactly by execution of a passed one (with its effects going through, if its kind has effects that can fail), or by the fifth distinct signature on a passed upgrade |
| GovernanceSafety.ExecutedIsLegitimate | sultan-core/src/governance.rs:441-964 | in any run an executed proposal with a fitting snapshot has, in the vote list as it still stands, a quorum of what was bonded at its tally, no veto and a true majority of distinct, capped voters |
| GovernanceSafety.RunIsSpaced | sultan-core/src/governance.rs:307-320 | with rising heights, two proposals of one address always lie a cooldown apart |
| GovernanceEffects.EnteringPaused | sultan-core/src/governance.rs:625-669 | a proposal becomes paused if and only if a validator that has not voted so casts a pause vote on it, in voting or passed, that brings the votes to the threshold |
| GovernanceEffects.PauseVoteTakesEffect | sultan-core/src/governance.rs:625-669 | a pause vote that goes through is recorded, and answered with whether it paused the proposal |
| GovernanceEffects.PausedIsNeverExecuted | sultan-core/src/governance.rs:625-669 | a paused proposal stays paused in every later state: no call and no signature executes it |
| GovernanceEffects.SettledStays | sultan-core/src/governance.rs:441-964 | a rejected, failed, executed or paused proposal keeps its whole record whatever comes |
| GovernanceEffects.SubmissionIsAcceptedExactly | sultan-core/src/governance.rs:263-404 | when a submission is accepted; it then opens with two days of discussion before seven days of voting, no votes, no tally, no signatures |
| GovernanceEffects.EnteringVoting | sultan-core/src/governance.rs:689-704 | a proposal enters voting if and only if the phases are advanced with its discussion over, and nothing else of it changes |
| GovernanceEffects.AdvanceTakesEffect | sultan-core/src/governance.rs:689-704 | advancing touches no votes, no clock and no proposal but those that enter voting |
| GovernanceEffects.VoteIsAcceptedExactly | sultan-core/src/governance.rs:441-526 | a vote is accepted until voting ends, once per voter, if it weighs anything up to what the voter had staked, and joins the list with that weight |
| GovernanceEffects.TallyTakesEffect | sultan-core/src/governance.rs:707-800 | a tally is taken once, after the voting period; while the power fits the word it passes the proposal on a true majority, fails it on a veto and rejects it otherwise |
| GovernanceEffects.SignatureTakesEffect | sultan-core/src/governance.rs:558-605 | a validator signs a passed upgrade once, and the fifth signature executes it |
| GovernanceEffects.ExecutionTakesEffect | sultan-core/src/governance.rs:834-964 | execution of a passed proposal changes its status and nothing else |
| GovernanceEffects.RunOnTime | sultan-core/src/governance.rs:263-800 | with a clock that only rises, in any run nothing is voted on before its discussion and nothing is decided before its voting period is over |
| GovernanceEffects.ExecutedIsOldEnough | sultan-core/src/governance.rs:263-964 | so a passed or executed proposal is more than nine days of blocks old |
| GovernanceEffects.AddressAlphabet | sultan-core/src/governance.rs:70-83 | addresses are written in the thirty-two characters of BIP 173 |
| GovernanceEffects.AddressShape | sultan-core/src/governance.rs:56-86 | an address is the prefix with 32 to 57 of these characters behind it, and nothing else is one |
| GovernanceManager.Manager.SubmitProposal | sultan-core/src/governance.rs:263-404 | a submission is refused for its address, texts, deposit, link, parameters, cooldown or three proposals in voting, in that order, and then changes nothing; otherwise it gets the next number, the current height's snapshot, no votes, and starts the cooldown |
| GovernanceManager.Manager.CastVote | sultan-core/src/governance.rs:441-526 | one vote per voter, in the voting status up to the end height, with positive power after the snapshot's cap, is appended; every other call changes nothing |
| GovernanceManager.Manager.AdvanceProposalPhases | sultan-core/src/governance.rs:689-704 | moves exactly the proposals whose discussion ended into voting |
| GovernanceManager.Manager.CountVotes | sultan-core/src/governance.rs:725-740 | the counters are the power behind each option, as words, a veto counting twice |
| GovernanceManager.Manager.TallyProposal | sultan-core/src/governance.rs:707-800 | after the end height the counts are stored and the status becomes failed, passed or rejected as they say; before it, or outside voting, nothing changes |
| GovernanceManager.Manager.SignUpgradeProposal | sultan-core/src/governance.rs:558-605 | a signer's first signature on a passed upgrade is appended and the fifth executes it; every other call changes nothing |
| GovernanceManager.Manager.EmergencyPauseVote | sultan-core/src/governance.rs:625-669 | a validator's first pause vote on a proposal in voting or passed is appended, and pauses it at the threshold as rounding computes it; every other call changes nothing |
| GovernanceManager.Manager.ExecuteProposal | sultan-core/src/governance.rs:834-964 | a passed proposal becomes executed, unless it is a parameter change or slashing whose effects fail; then, and in any other status, nothing changes |
| GovernanceManager.Manager.UpdateStakingSnapshot | sultan-core/src/governance.rs:547-554 | afterwards the height has this snapshot, heights more than a voting period below have none, every other height keeps its own, and nothing but snapshots changes |
| Snapshots.SnapshotLasts | sultan-core/src/governance.rs:547-554 | over any run that does not take it again, a snapshot is kept if and only if none is taken more than a voting period above |
| Snapshots.ProposalCarriesSnapshot | sultan-core/src/governance.rs:343-493 | a proposal submitted at the snapshot's height after any such run carries it and caps every vote by it, exactly when it was kept; otherwise claimed power counts in full |

## Left out

- Cryptography: Ed25519 is an uninterpreted predicate of key, message and signature, and digests are uninterpreted functions; no theorem assumes that they do not collide.
- Concurrency and clocks: the node holds its write lock while it produces or applies a block, so steps are sequential; clocks and validators' identities are parameters, and the order in which shard groups finish is arbitrary.
- Timeouts of two-phase commit appear as a failure point for each attempt, at the five places between its steps; blocks (`NodeChain`, `SultanBlockchain`) are produced and applied without timeouts.
- The on-disk commit log, recovery after a crash, health monitoring, statistics counters, the transaction history index and RPC.
- The shard state root is opaque: it is computed over an unordered map, and block application does not compare it. `MerkleTree::verify_proof` hashes sorted pairs and is unrelated to the tree construction.
- Runs expand only when every queued entry's shard indices stay right, which LedgerRuns.ExpansionKeepsEntry characterizes; LedgerRuns.MovedEntry says what happens to the others.
- `add_transaction` of the sharded node: its nonce convention (one above the tracker) differs from the shards' (the tracker itself), so the model starts from the mempool. Automatic expansion happens in the node's main loop on the proposer only; it is an event of the ledger's runs here, and of no block run (`LoneExpansion` says what it does between two nodes).
- Block indices, heights counted in blocks, shard counts, processed counters and proposal numbers are unbounded; balances, nonces, stakes, powers and amounts are words.
- LedgerRuns.RunIsSafe: the account of the supply assumes that the initial supply plus what failed attempts create fits a 64-bit word, below which crediting never saturates; the account of nonces is given up once a failed attempt has moved a tracker, until the next expansion.
- Replication.FollowerReplicates: the follower's queue is empty, all shards are healthy and nothing times out; WaitingQueues.WaitingFollower lifts the first.
- WaitingQueues.WaitingFollower: for a supply that fits the word and at most 2^64 transfers in one block; that only covered queues are harmless is claimed while no two different transfers applied from the two queues share an idempotency key, since a key concatenates addresses without a separator.
- ChainRuns.RotationAgrees: the same bounds for every turn; nobody expands and nothing times out.
- AtMostOnce.AppliedOnce: fewer than 2^64 transactions since the last expansion, and no failed attempt has moved a tracker; Timeouts.FailureKeepsNonces says exactly when one does.
- DexBackedRuns.DexRunIsBacked: asks that users hold what accepted swaps and deposits take, no deposit overflows halfway, tokens of a pair differ and users are not pair accounts; DexBacking.SwapBackedExactly, DexBacking.AddBackedExactly and DexBackedRuns.HalfAddUnbacks show the first two are needed.
- DexBacking.SwapBackedExactly: that an unpaid swap uncovers the pool is claimed for a pool that records nothing it does not hold; one holding a surplus may stay covered.
- RoundTrips.RoundTripPaysExactly: for fee rates below 100 percent.
- DexEffects.WithdrawalIsLargest: while the products of reserves and LP tokens fit the word; beyond, the share wraps and the withdrawal still dilutes nobody (PoolSafety.RemoveKeepsSound).
- PoolSafety.PoolRunIsSound: swap amounts keep the product of whatever reserves; PoolSafety.ProductIsKeptExactly says which do, PoolSafety.SmallInputIsCovered that all do unless the fee multiplication wraps, and PoolSafety.WrappedFeeBreaksBound shows a bound broken without it. DexSafety.DexRunIsSound assumes the same of accepted swaps; DexSafety.DexRunIsOrderly and DexBackedRuns.DexRunIsBacked do not.
- StakeAccounting.SlashedSitsOut: heights stay clear of the end of the word, and the run's slashes and releases happen at heights within the term.
- GovernanceSafety.ExecutedIsLegitimate: asks for a voting power snapshot whose sum fits the word; without one, votes carry whatever power they claim.
- Quorum.Agreement: the validator set is fixed while signatures are collected; power recorded for a signer that is slashed later is not taken back by the program either.
- The token factory is limited to transfer, mint, burn and LP token creation; fee collection, price queries, creation times and persistence of pools are not modelled.
- `select_proposer` walks the map without sorting and so depends on iteration order; the seeds of proposer selection are parameters.
- Export and import of consensus state, evidence timestamps, and counting validators instead of power.
- PoolOutcomes.DepositMatchesRatio, PoolOutcomes.WithdrawalIsAcceptedExactly: while the products fit the word; beyond, the program's unchecked multiplications wrap.
- LegacyEffects.CreationMoves: for a supply that fits the word, below which no credit wraps.
- GovernanceEffects.RunOnTime: heights stay nine days of blocks clear of the end of the word.
- BlockRules.IncludedExactly: an address with a colon can be confused with another in the mempool's key.
- GovernanceManager.Manager.ExecuteProposal: whether the effects of a parameter change or slashing go through is an input, because they parse decimal fractions and call the staking module, which is not part of this model.
- Governance: titles, descriptions, links and parameter values matter only through their checks; quorum and veto, computed in floating point, are exact integer comparisons (the pause threshold is rounded as in the program); persistence is left out.
- The other proof verifiers of the bridge, its queues and statistics, the older sharding modules, staking rewards, networking, storage and front ends.
