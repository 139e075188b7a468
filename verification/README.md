# Verified model of the mining pool's epoch protocol and reward ledger

The pool server runs several asynchronous tasks over shared state: the mining proof, the nonce
counter, the best hash and contributions of the epoch, the nonce ranges of the miners, the ready
set, the pause flag, a queue of success messages and the database tables. This project models those
tasks as state machines in which every lock acquisition, channel operation, flag access and database
statement is one step, proves what every interleaving keeps, and writes the tasks' code, with its
fields and loops, as Dafny classes that are verified against those machines.

## How the project is laid out

| files | the repository's part |
|---|---|
| `Prelude`, `Sums` | machine widths, shared values, sums over sequences and maps |
| `Hashpower`, `Intake`, `IntakeProvenance`, `EpochHashes` | `src/processors/client_message_processor.rs`: difficulty to hashpower, the interleaved intake machine, whom it credits for what, the shared record and the handler as code |
| `Dispatch`, `DispatchProvenance`, `Dispatcher` | `src/processors/ready_clients_processor.rs`: the allocator machine, which mission goes to whom, and the loop as code |
| `Round`, `RoundProtocol`, `RoundIntervals`, `RoundStale`, `RoundWork`, `MessageProvenance`, `Submission` | `src/processors/pool_submission_processor.rs`, `src/processors/proof_tracking_processor.rs`, `src/utils.rs`: the round machine, its theorems, and the loops as code |
| `RewardSplit`, `Tables`, `Ledger`, `LedgerConservation`, `LedgerRefinement`, `LedgerLookup`, `Database`, `MineSuccess` | `src/processors/pool_mine_success_processor.rs`, `src/database.rs`: the split, the tables, the ledger machine and its theorems, the statements and the processor as code |
| `Enrolment`, `Handlers` | the connection handlers of `src/main.rs` |
| `Pool`, `PoolTheorems`, `PoolProvenance`, `PoolPause`, `PoolBlocks` | all of the above composed over the state they share |
| `Codec` | `src/message.rs` and the frame parser of `src/main.rs` |
| `Fee` | `src/dynamic_fee.rs` |

A machine has a `State`, an `Event`, `Enabled`, `Apply`, and runs `Legal`/`Exec` over sequences of
events. A class (`EpochStore`, `MissionDispatcher`, `Processor`, `SuccessProcessor`, `Connection`,
`EnrolmentHandlers`) has the fields that the source updates in place and a ghost field `model`; its
methods promise that `model` moves by exactly the machine's step, so every theorem about runs of the
machine carries over to the classes. In `Pool` the machines step together: a read of the epoch
hashes, the range map, the proof or the pause flag sees what the others have written, and resets and
success messages come from the round alone.

## What is assumed

- The pause flag is sequentially consistent. Steps are lock sections; tokio's scheduling is arbitrary.
- A database error that is reported has no effect, and a batch is atomic. The update of a challenge is
  modelled as the code has it: rows are updated even where a row count other than one is then reported.
- The pool's row exists; SQLite gives a new row one more than the largest id.
- The on-chain balance never falls and stays below 2^63.
- No proof delivered to the pool is older than the newest one the submission processor has itself
  read (`RoundIntervals.Assumed`). "Not older than the round's own snapshot" would not be enough: see
  `RoundStale.LateNoticeCreditsTwice`. Without any assumption,
  `RoundIntervals.OverlapIffStaleSnapshot` says exactly when a round credits a gain twice.
- The pool's minimum difficulty is at least `MIN_DIFF`.
- Whether a solution is valid, and its difficulty, are uninterpreted functions (`Intake.Oracle`); so is
  the check of a signature (`Codec.Verifier`).
- Integer arithmetic is that of a release build: `u64` results wrap modulo 2^64. The sum of the
  hashpowers is exact, as no wrap can occur below 2.8 * 10^13 contributions.

## Where the code does less than one might expect

- From difficulty 69 on the wrapped power is 0, and so is the credited hashpower
  (`Hashpower.IntendedUpTo68`); a message all of whose contributions are of that kind stops the
  success-message processor with a division by zero (`LedgerConservation.HaltsIff`,
  `PoolTheorems.DivisorPositiveIff`).
- Two submissions of one miner that are checked before either is written can leave the lower one
  stored, and then the best solution belongs to no stored contribution
  (`Intake.OverlappingLosesTheBest`). `Intake.CommitKeepsMinerIff` says when a commit keeps its miner's
  first maximum, `Intake.CommitKeepsBestStoredIff` when it keeps the best solution among the stored ones.
- A late notification between two rounds makes the pool credit a gain twice
  (`RoundStale.LateNoticeCreditsTwice`).
- A message whose best nonce neither its committed contributions nor an earlier row carries is looked up
  forever and blocks the queue (`LedgerLookup.PastLookupIff`, `LedgerLookup.MissingNonceBlocksTheQueue`).
  This needs no fault: it happens when the best miner's own better submission is committed after the
  round has read the best solution and before the attender reads the contributions
  (`PoolBlocks.BetterSubmissionBlocks`).
- A reset of the epoch stops no task: a submission checked before it may be stored after it, and then opens
  the new epoch, whichever challenge it was valid for (`Intake.CommitCrossesReset`).
- If the pool's balance falls between snapshot and re-read, the cast makes of the negative reward one and
  the same negative amount for every contribution of at least 2 parts per million
  (`RewardSplit.NegativeRewardEarns`).
- The attender's exit after the last check, and its panic at any time before it resumes dispatch, leave
  dispatch paused (`RoundProtocol.CheckLimitLeavesPaused`, `RoundProtocol.CrashLeavesPausedIff`).
- A known miner is turned away when the lookup of its row fails (`Handlers.EnrolmentHandlers.Connect`). A
  new miner whose handler fails after inserting it never gets a rewards row: it has one exactly when its
  own handler completes (`Enrolment.TrackedIffHandlerCompletes`, `Enrolment.UntrackedForGood`).

## Model

| member | source | states |
|---|---|---|
| `Hashpower.NoOverflowUpTo66` | src/processors/client_message_processor.rs:119-128 | the `u64` power and product overflow neither, exactly up to difficulty 66 |
| `Hashpower.IntendedUpTo68` | src/processors/client_message_processor.rs:119-128 | the wrapped credit equals min(5 * 2^(diff-5), 655360), and is positive, exactly up to difficulty 68 |
| `Hashpower.MonotoneAndCapped` | src/processors/client_message_processor.rs:122-128 | a higher difficulty has no lower hashpower iff the higher is at most 68 or both are past it; the cap is reached exactly from 22 to 68 |
| `Intake.EveryInterleaving` | src/processors/client_message_processor.rs:129-175 | on every interleaving of checks, commits and resets the best difficulty bounds every contribution, a best solution exists iff a contribution does, and the best hash is the first maximum decided since the last reset |
| `Intake.MonotoneBetweenResets` | src/processors/client_message_processor.rs:134-174 | between resets the best difficulty never falls and no miner's entry disappears |
| `Intake.CommitCrossesReset` | src/processors/client_message_processor.rs:129-175 | a task that passed its check before a reset may commit after it, on every run, and then the new epoch consists of its submission alone |
| `Intake.SerialisedIntakeIsAFold` | src/processors/client_message_processor.rs:129-175 | with each miner's submissions serialised, intake is a fold: each contribution is that miner's first maximum, the best hash the first maximum of all, and the best solution matches a stored contribution |
| `Intake.CommitKeepsMinerIff` | src/processors/client_message_processor.rs:129-160 | a commit leaves its miner's first maximum stored iff the earlier read-locked decision would still be taken at the write, or rewrites the same contribution |
| `Intake.CommitKeepsBestStoredIff` | src/processors/client_message_processor.rs:134-174 | a commit leaves the best solution among the stored contributions iff it raises the best difficulty, another miner holds the best solution too, or it writes that very nonce and difficulty |
| `Intake.OverlappingLosesTheBest` | src/processors/client_message_processor.rs:130-175 | a concrete interleaving, for any two valid submissions of one miner, that ends with the lower one stored and the best solution matching no stored contribution |
| `IntakeProvenance.EveryCreditIsItsTasks` | src/processors/client_message_processor.rs:54-175 | on every run each decided submission and each stored contribution credits the miner whom its own task's socket lookup answered, for the solution and under the pubkey the task was given, with the nonce in the range it read and valid for the challenge it read |
| `EpochHashes.EpochStore.Decide` | src/processors/client_message_processor.rs:130-156 | the read-locked section decides as the machine does |
| `EpochHashes.EpochStore.Write` | src/processors/client_message_processor.rs:134-174 | the write-locked section inserts and raises the best hash as the machine does |
| `EpochHashes.EpochStore.Clear` | src/processors/pool_submission_processor.rs:559-567 | an epoch reset empties contributions and best hash, and leaves the tasks under way as they are |
| `EpochHashes.EpochStore.CheckRange` | src/processors/client_message_processor.rs:69-85 | the range map is looked up under the submitting pubkey; the nonce passes iff there is a range and it contains the nonce |
| `EpochHashes.EpochStore.CheckSolution` | src/processors/client_message_processor.rs:87-118 | a submission gets to the decision iff its socket is known and the solution is valid for the current challenge and reaches the minimum; the contribution then credits that socket's miner; the events are given |
| `EpochHashes.EpochStore.Credit` | src/processors/client_message_processor.rs:102-128 | a contribution is built iff the solution is valid for the challenge and reaches the minimum, for the miner given, with the solution's nonce and difficulty and the capped hashpower |
| `EpochHashes.EpochStore.Store` | src/processors/client_message_processor.rs:129-175 | decision and commit without interruption: what is stored and what becomes of the best hash |
| `EpochHashes.EpochStore.HandleSolution` | src/processors/client_message_processor.rs:54-197 | an uninterrupted submission is stored iff it passes every check and beats the miner's earlier one; it credits the miner of the submitting socket; what is stored and the best hash are given outright, and it is a legal run of the machine |
| `Dispatch.RangesTile` | src/processors/ready_clients_processor.rs:77-87 | for every interleaving with resets and late inserts, the ranges issued since the last reset cover each nonce below the counter exactly once and no other, each 4000000 wide |
| `Dispatch.MissionsOfOneGenerationAreDisjoint` | src/processors/ready_clients_processor.rs:78-87 | two missions of one nonce generation share no nonce |
| `Dispatch.AllocationIsFullIff` | src/processors/ready_clients_processor.rs:79-86 | an allocation has the full width iff the `u64` counter does not wrap |
| `Dispatch.RangeMapProvenance` | src/processors/ready_clients_processor.rs:96-113 | every range in the map was issued to the pubkey it is filed under by the assignment recorded as its source, however late the insert |
| `Dispatch.NoMissionWithoutReady` | src/processors/ready_clients_processor.rs:36-43 | missions to an address never exceed the ready messages received from it |
| `DispatchProvenance.AssignmentsFollowLookups` | src/processors/ready_clients_processor.rs:77-113 | on every run the assignments are exactly those of the lookups that found a socket, in order: each names the mission allocated last before it, for the very address looked up, and no mission is assigned twice |
| `DispatchProvenance.FiledRangeIsTheClients` | src/processors/ready_clients_processor.rs:96-113 | every range in the map is that of the mission allocated for the address whose lookup gave the pubkey it is filed under |
| `Dispatcher.MissionDispatcher.EnterReady` | src/processors/client_message_processor.rs:42-50 | the spawned insert into the ready set is the machine's step |
| `Dispatcher.MissionDispatcher.SnapshotReady` | src/processors/ready_clients_processor.rs:36-43 | the loop copies the ready set: every address once and no other |
| `Dispatcher.MissionDispatcher.MayDispatch` | src/processors/ready_clients_processor.rs:45 | a nonempty snapshot is worked on iff the flag is not set |
| `Dispatcher.MissionDispatcher.ShouldMine` | src/processors/ready_clients_processor.rs:50-67 | missions go out iff the cutoff lies ahead or there is no solution yet; the cutoff sent is never negative |
| `Dispatcher.MissionDispatcher.AllocateRange` | src/processors/ready_clients_processor.rs:78-87 | the range taken off the counter is the machine's next mission |
| `Dispatcher.MissionDispatcher.LookUpSocket` | src/processors/ready_clients_processor.rs:89-113 | a socket found gets a task that carries the mission message with the allocated range, and the assignment of that very mission; otherwise neither |
| `Dispatcher.MissionDispatcher.InsertRange` | src/processors/ready_clients_processor.rs:109-112 | the spawned task files the range it carries under the pubkey it carries, as the machine does |
| `Dispatcher.MissionDispatcher.ResetNonce` | src/processors/pool_submission_processor.rs:553-557 | a nonce reset zeroes the counter and leaves ranges and ready set alone |
| `Dispatcher.MissionDispatcher.DispatchOne` | src/processors/ready_clients_processor.rs:77-119 | one turn is a legal run of the machine; it issues the next range, removes the client, and if the client's socket is found spawns the task and assigns the mission |
| `Dispatcher.MissionDispatcher.DispatchAll` | src/processors/ready_clients_processor.rs:77-119 | an uninterrupted loop issues consecutive ranges, one mission per client, assigned to exactly the sockets found, each message with the challenge and cutoff; the snapshot leaves the ready set |
| `RoundProtocol.AtMostOneAttender` | src/processors/pool_submission_processor.rs:451-467 | at most one attender is neither signalled nor dropped, and the main loop waits for it meanwhile |
| `RoundProtocol.ResumedOnlyAfterBothResets` | src/processors/pool_submission_processor.rs:554-571 | on every interleaving dispatch resumes only after a nonce reset and an epoch reset that follow the last pause |
| `RoundProtocol.CheckLimitLeavesPaused` | src/processors/pool_submission_processor.rs:493-499 | the exit after the last check, and the main loop's return from it, leave dispatch paused and reset nothing |
| `RoundProtocol.CrashLeavesPausedIff` | src/processors/pool_submission_processor.rs:854-862 | a panic of the attender lets the main loop go on, resets nothing, and leaves dispatch paused iff the attender had not yet resumed it |
| `RoundProtocol.OneMessagePerRound` | src/processors/pool_submission_processor.rs:771-784 | every round sends at most one success message, and messages are in round order |
| `MessageProvenance.MessagesComeFromTheirRounds` | src/processors/pool_submission_processor.rs:81-784 | on every run each success message carries the one challenge row its attender found and the contributions that attender saw; its reward is the difference of the proof it re-read and of the snapshot its round opened with; its nonce is that of the solution found at the second look before the round's pause |
| `RoundIntervals.NoGainCreditedTwice` | src/processors/pool_submission_processor.rs:734-790 | with the websocket writer and the write-back interleaving: message intervals do not overlap, each reward is the exact growth over its interval, and all rewards together are within the balance gained |
| `RoundIntervals.RewardIsTheDifference` | src/processors/pool_submission_processor.rs:755-756 | the wrapped and cast difference is the true one, and is nonnegative iff the balance did not fall |
| `RoundIntervals.DisjointIntervalsTelescope` | src/processors/pool_submission_processor.rs:755-784 | rewards over disjoint intervals add up to no more than the balance gained |
| `RoundIntervals.OverlapIffStaleSnapshot` | src/processors/pool_submission_processor.rs:81-90 | with nothing assumed of deliveries: a round's message overlaps an earlier one iff the snapshot that opened the round was older than what was already credited |
| `RoundStale.LateNoticeCreditsTwice` | src/processors/proof_tracking_processor.rs:60-64 | on any chain of three versions, one notification between two rounds, no older than the first round's snapshot, makes the last gain count twice |
| `RoundWork.RoundIsBounded` | src/processors/pool_submission_processor.rs:138-499 | from its pause a round takes at most 82 steps of the processor, 5 attempts and 30 polls, whatever the environment does |
| `RoundWork.AtMostSixDeferrals` | src/processors/pool_submission_processor.rs:121-132 | at most 6 deferrals separate consecutive rounds |
| `RoundWork.GateIffDue` | src/utils.rs:204-218 | the gate opens iff the clock has reached last hash + 60 + risk time; the buffer time cancels |
| `RoundWork.RoundsStartWhenDue` | src/processors/pool_submission_processor.rs:92-132 | on every run a round past the gate works on a proof whose interval had elapsed |
| `Submission.Processor.Notify` | src/processors/proof_tracking_processor.rs:52-67 | the delivered proof overwrites the shared proof |
| `Submission.Processor.Snapshot` | src/processors/pool_submission_processor.rs:81-90 | the round's old proof is the shared proof of that moment |
| `Submission.Processor.PastBuffer` | src/processors/pool_submission_processor.rs:92-100 | the two nested tests pass iff the interval plus risk time has elapsed |
| `Submission.Processor.EnoughMiners` | src/processors/pool_submission_processor.rs:121-132 | the round proceeds iff all miners contributed or six waits have passed, and the counter then restarts; otherwise it goes up by one |
| `Submission.Processor.PauseDispatch` | src/processors/pool_submission_processor.rs:134-136 | the flag is set before the first attempt |
| `Submission.Processor.SubmitLoop` | src/processors/pool_submission_processor.rs:138-867 | the loop stops at the first attempt that is not retried, after five at most; it succeeds iff that attempt landed; the run it makes is given |
| `Submission.Processor.CompareOnce` | src/processors/pool_submission_processor.rs:488-499 | one poll ends updated iff the shared challenge differs; else it gives up iff it was the last |
| `Submission.Processor.AskOnce` | src/processors/pool_submission_processor.rs:502-520 | the fetched proof is taken iff the fetch succeeded and its challenge differs |
| `Submission.Processor.PollOnce` | src/processors/pool_submission_processor.rs:488-520 | one turn, with what was delivered before it and fetched in it: which exit is taken, if any, and the shared proof after it |
| `Submission.Processor.PollForChallenge` | src/processors/pool_submission_processor.rs:482-520 | the exit and the number of checks are the only ones that the deliveries and fetches allow: updated at the first poll that finds a delivered proof of another challenge, found by RPC at the first that fetches one, given up after 30 checks without either |
| `Submission.Processor.SumHashpower` | src/processors/pool_submission_processor.rs:765-769 | the loop's sum is the total over the map, whatever its order |
| `Submission.Processor.RecordChallenge` | src/processors/pool_submission_processor.rs:630-655 | the id of the submitted challenge's row is kept for the message |
| `Submission.Processor.RereadProof` | src/processors/pool_submission_processor.rs:735-737 | the reward is computed from the shared proof of that moment |
| `Submission.Processor.CollectContributions` | src/processors/pool_submission_processor.rs:761-763 | the contributions are those of the epoch at that moment |
| `Submission.Processor.Gather` | src/processors/pool_submission_processor.rs:630-763 | row id, re-read proof and contributions of the message, with a delivery in between |
| `Submission.Processor.SendSuccess` | src/processors/pool_submission_processor.rs:755-784 | every field of the message: the row id, the submitted challenge, the best nonce, the reward of the two proofs, the contributions and their total |
| `Submission.Processor.RewardRound` | src/processors/pool_submission_processor.rs:629-815 | from the changed challenge to the resumption: the message in full, the shared proof, the resets and the order of what others observe |
| `Submission.Processor.WriteBack` | src/processors/pool_submission_processor.rs:786-790 | the rewarded proof overwrites whatever was delivered meanwhile |
| `Submission.Processor.ClearNonceStep` | src/processors/pool_submission_processor.rs:794-798 | a nonce reset is one step of the round and one of dispatch |
| `Submission.Processor.ClearEpochStep` | src/processors/pool_submission_processor.rs:799-807 | an epoch reset is one step of the round and one of intake |
| `Submission.Processor.ResumeStep` | src/processors/pool_submission_processor.rs:808-810 | dispatch resumes |
| `Submission.Processor.AttenderResets` | src/processors/pool_submission_processor.rs:791-810 | on either exit the attender resets nonce, then epoch, then resumes: three legal steps of the round, and the reset step of dispatch and of intake |
| `Submission.Processor.FinishByRpc` | src/processors/pool_submission_processor.rs:516-574 | the exit by RPC is a legal run of six steps: it stores the found proof, resets dispatch and intake, resumes, signals, and sends no success message |
| `Submission.Processor.FinishRewarded` | src/processors/pool_submission_processor.rs:786-815 | after its message the attender makes a legal run of five steps: write-back of the rewarded proof, both resets, resumption, signal |
| `Submission.Processor.DiscardRound` | src/processors/pool_submission_processor.rs:868-894 | a failed round makes the legal run refresh, nonce reset, epoch reset, resume; the proof is replaced iff it can be fetched; dispatch and intake take their reset steps |
| `RewardSplit.EarnedIsDoubleFloor` | src/processors/pool_mine_success_processor.rs:51-59 | no multiplication saturates and no cast truncates: the credit is the two-stage floor |
| `RewardSplit.NegativeRewardEarns` | src/processors/pool_mine_success_processor.rs:51-59 | for a negative reward the casts and the saturation book the same negative amount from 2 parts per million on, and nothing below 1 |
| `RewardSplit.EarnedNearExactShare` | src/processors/pool_mine_success_processor.rs:51-59 | the credit is at most the exact share and falls short by less than R/1000000 + 1 |
| `RewardSplit.HigherHashpowerEarnsNoLess` | src/processors/pool_mine_success_processor.rs:51-59 | in one message a larger hashpower never earns less |
| `RewardSplit.HigherDifficultyEarnsNoLess` | src/processors/pool_mine_success_processor.rs:51-59 | in one message a higher difficulty earns no less iff it is at most 68 or the lower one's share rounds down to nothing, as it does from 69 on |
| `RewardSplit.SplitConserves` | src/processors/pool_mine_success_processor.rs:50-59 | the split never overpays, and 1000000 * (R - paid) <= R * (n - 1) + 999999 * n |
| `RewardSplit.SplitIsOrderFree` | src/processors/pool_mine_success_processor.rs:50-59 | what is paid does not depend on the hash map's iteration order |
| `Tables.StoredNonceInjective` | src/database.rs:404-415 | the cast under which nonces are stored and looked up confuses no two nonces |
| `Tables.StoredContribution` | src/database.rs:619-644 | a contribution's row keeps miner, challenge and difficulty, and the nonce cast to `i64` |
| `Tables.AsI16` | src/processors/pool_mine_success_processor.rs:68-72 | the cast of a difficulty is the number of 16 signed bits congruent to it |
| `Tables.EarningIdsFollow` | src/database.rs:558-617 | the rows of a batch get ids above all earlier ones, in the order of the batch |
| `Tables.RewardIdFollows` | src/database.rs:712-746 | a new rewards row gets an id above all earlier ones |
| `Tables.ContributionIdsGrow` | src/database.rs:619-644 | a batch keeps ids growing along the table |
| `Tables.EarningsAreOrderFree` | src/processors/pool_mine_success_processor.rs:50-82 | any two iteration orders insert the same multiset of earnings |
| `Tables.BalancesAreOrderFree` | src/processors/pool_mine_success_processor.rs:75-82 | in any order each balance rises by the sum of its miner's earned amounts, repeated ids included |
| `Database.Connection.AddEarningsBatch` | src/database.rs:558-617 | all rows of a batch are inserted with consecutive ids, or none |
| `Database.Connection.AddContributionsBatch` | src/database.rs:619-672 | as for earnings, with nonces cast as stored |
| `Database.Connection.UpdateRewards` | src/database.rs:749-793 | the loop of updates credits every row with its miner's total, reports success iff it touched a row, or does nothing |
| `Database.Connection.UpdatePoolRewards` | src/database.rs:233-273 | the total grows by the amount, or not at all |
| `Database.Connection.GetContributionId` | src/database.rs:404-437 | finds the largest id among the rows with the nonce, or reports that there is none |
| `Database.Connection.UpdateChallengeRewards` | src/database.rs:439-481 | every row of the challenge is updated; success is reported iff there is exactly one |
| `Database.Connection.AddNewMiner` | src/database.rs:275-315 | a row is added iff the statement works and the pubkey is new |
| `Database.Connection.GetMiner` | src/database.rs:317-355 | finds the row of the pubkey iff there is one |
| `Database.Connection.AddNewReward` | src/database.rs:712-746 | a rewards row with balance 0, or nothing |
| `MineSuccess.SuccessProcessor.Split` | src/processors/pool_mine_success_processor.rs:46-82 | the loop panics iff there is a contribution and the total is zero; otherwise its three vectors are the three batches of the contributions walked |
| `MineSuccess.SuccessProcessor.WriteEarnings` | src/processors/pool_mine_success_processor.rs:167-173 | the earnings table grows by the batch iff its statement does not fail |
| `MineSuccess.SuccessProcessor.WriteBalances` | src/processors/pool_mine_success_processor.rs:174-180 | every balance grows by its miner's amounts of the batch iff its statement does not fail |
| `MineSuccess.SuccessProcessor.WriteMoney` | src/processors/pool_mine_success_processor.rs:167-180 | earnings and balances may each fail once and are not retried; both tables and the events for every case |
| `MineSuccess.SuccessProcessor.WriteRecords` | src/processors/pool_mine_success_processor.rs:181-187 | the contributions grow by the batch iff its statement does not fail; ids keep growing |
| `MineSuccess.SuccessProcessor.AddToTotal` | src/processors/pool_mine_success_processor.rs:188-194 | however often the update fails, the retry loop adds the reward exactly once |
| `MineSuccess.SuccessProcessor.LocateBest` | src/processors/pool_mine_success_processor.rs:197-206 | the lookup of the best nonce is repeated as often as it fails; then it answers the newest row that carries it, or none |
| `MineSuccess.SuccessProcessor.AttributeChallenge` | src/processors/pool_mine_success_processor.rs:197-215 | the processor gets past the lookup iff some row carries the best nonce; then the rows of the challenge name the newest such row and the reward, unless the update fails |
| `MineSuccess.BatchPaysShares` | src/processors/pool_mine_success_processor.rs:50-82 | the batch raises each balance by the sum of its miner's shares of the message, in whatever order the contributions are walked |
| `MineSuccess.SuccessProcessor.Handle` | src/processors/pool_mine_success_processor.rs:46-215 | what every table is after one message, for each statement that may fail: each balance has grown by its miner's shares, earnings and contributions by their batches, the total by the reward, the challenge is attributed; it ends handled, held at the lookup iff no row carries the best nonce, or panicked iff it has contributions and a total of zero; and it is a legal run of the ledger |
| `LedgerConservation.MessageCreditsAtMostItsReward` | src/processors/pool_mine_success_processor.rs:174-180 | one message raises all balances together by at most its reward |
| `LedgerConservation.LedgerConserves` | src/processors/pool_mine_success_processor.rs:167-194 | on every run, failed batches included: balances grow by no more than the total plus what is in process, and total plus pending grows by exactly what was enqueued |
| `LedgerConservation.HaltsIff` | src/processors/pool_mine_success_processor.rs:51-53 | the division by zero occurs iff a message has contributions and none has hashpower |
| `LedgerConservation.NeverHalts` | src/processors/pool_mine_success_processor.rs:51-53 | it never occurs while every message can be split |
| `LedgerRefinement.LedgerRefinesShares` | src/processors/pool_mine_success_processor.rs:167-180 | between any two states of a run each tracked balance grows by exactly its shares of the messages credited, and each miner's earnings by its shares of those inserted |
| `LedgerRefinement.BalancesMatchEarnings` | src/processors/pool_mine_success_processor.rs:167-180 | if both batches of every message succeed, each balance grows by exactly the miner's new earnings |
| `LedgerRefinement.AttributionIsOfTheChallenge` | src/processors/pool_mine_success_processor.rs:181-210 | although nonces restart, the contribution written to the challenge is a row of that very challenge when the batch was inserted and carries the best nonce |
| `LedgerRefinement.AttributionIffInserted` | src/database.rs:404-415 | for a fresh challenge id that holds iff the batch was inserted and carries the nonce |
| `LedgerLookup.RowsCarryIff` | src/processors/pool_mine_success_processor.rs:181-199 | the rows that stand after a message's batch carry its best nonce iff the batch was committed and carries it or an earlier row does |
| `LedgerLookup.LookupAnswers` | src/database.rs:404-415 | a query for a nonce that some row carries has an answer |
| `LedgerLookup.PastLookupIff` | src/processors/pool_mine_success_processor.rs:46-206 | on every run from the receipt of a message: the processor is past the lookup only if the contributions batch was committed and carries the best nonce or an earlier row does, and at the lookup it can go on iff so |
| `LedgerLookup.FaultFreeIsStuckIff` | src/processors/pool_mine_success_processor.rs:167-206 | with no fault at all a message is stuck iff neither it nor an earlier row carries its best nonce |
| `LedgerLookup.OtherNonceIsStuck` | src/processors/pool_mine_success_processor.rs:197-206 | from tables without contributions, a message whose one contribution has another nonce reaches the stuck lookup |
| `LedgerLookup.MissingNonceBlocksTheQueue` | src/processors/pool_mine_success_processor.rs:197-206 | a stuck lookup stays stuck on every continuation and no later message is taken |
| `Enrolment.EveryRunIsEnrolled` | src/main.rs:1008-1078 | under any interleaving of handlers and failures: at most one miners row per pubkey, at most one rewards row per miner, each for an existing miner |
| `Enrolment.TrackingChangesIff` | src/main.rs:1058-1071 | a registered miner comes by its rewards row only through the insert of a handler of its own pubkey |
| `Enrolment.UntrackedForGood` | src/main.rs:1058-1078 | a registered miner that has no rewards row and whose row no handler still owes has none on every later run |
| `Enrolment.TrackedIffHandlerCompletes` | src/main.rs:1008-1078 | from the insert of a new miner, on every run: it has a rewards row iff its own handler's reload, pool lookup and rewards insert have all succeeded |
| `Handlers.EnrolmentHandlers.LookUp` | src/main.rs:989-1008 | the lookup admits a found miner and tells a missing row from a missing connection |
| `Handlers.EnrolmentHandlers.EnrolNew` | src/main.rs:1008-1079 | a new pubkey gets its miners row iff the insert works and its rewards row iff nothing fails; both tables and where the handler ends are given for every case |
| `Handlers.EnrolmentHandlers.Connect` | src/main.rs:989-1088 | which connections are admitted, both tables after every one of them, failed ones included, and where its handler ends |
| `Pool.ProjectRound` | src/processors/pool_submission_processor.rs:80-923 | the round's part of a run of the whole pool is a run of the round |
| `Pool.ProjectIntake` | src/processors/client_message_processor.rs:54-197 | the intake's part is a run of intake, its resets being the round's |
| `Pool.ProjectDispatch` | src/processors/ready_clients_processor.rs:35-124 | the dispatcher's part is a run of dispatch |
| `Pool.ProjectLedger` | src/processors/pool_mine_success_processor.rs:46-215 | the ledger's part is a run of the ledger |
| `PoolTheorems.SubmissionsHaveASolution` | src/processors/pool_submission_processor.rs:110-139 | the branch for a solution lost between the two reads is dead, and the contributions the attender re-reads are not empty |
| `PoolTheorems.NonceProvenance` | src/processors/client_message_processor.rs:69-85 | on every run each stored contribution is a decided submission whose nonce lies in the range that its own recorded assignment issued to that same pubkey, of a mission allocated for that client's address |
| `PoolTheorems.DifferentMissionsDifferentNonces` | src/processors/ready_clients_processor.rs:78-113 | on every run each decided submission was checked against a mission's range; two that were checked under different assignments of one nonce generation, those of different pubkeys among them, have different nonces |
| `PoolTheorems.DivisorPositiveIff` | src/processors/pool_submission_processor.rs:761-784 | every success message has contributions and their exact total, positive iff some difficulty is below 69 |
| `PoolTheorems.EnqueuedIsSent` | src/processors/pool_submission_processor.rs:771-784 | the ledger receives exactly the messages and rewards the rounds sent |
| `PoolTheorems.EndToEndConservation` | src/processors/pool_submission_processor.rs:755-790 | on every run, failed batches included: growth of all balances <= growth of the pool's total plus rewards queued or in process <= balance gained on chain |
| `PoolTheorems.ProcessorNeverHalts` | src/processors/pool_mine_success_processor.rs:50-59 | the split never divides by zero while no difficulty reaches 69 |
| `PoolProvenance.EveryShareIsEarned` | src/processors/pool_submission_processor.rs:761-784 | on every run of the pool each contribution that a success message pays was decided by an intake task that was given the solution under that pubkey, found its nonce in the range it read, credits the miner its own socket lookup answered, and checked the solution against a challenge that the pool's proof has had |
| `PoolPause.NoMissionsWhilePaused` | src/processors/ready_clients_processor.rs:45 | while the flag is set no snapshot that had not read it before gets a mission, whatever interleaves |
| `PoolPause.NoMissionsOnceSolved` | src/processors/ready_clients_processor.rs:57-67 | past the cutoff, once the epoch has a solution, no mission is allocated until the epoch is cleared |
| `PoolBlocks.BetterSubmissionBlocks` | src/processors/pool_submission_processor.rs:117-139 | a run of the whole pool in which nothing fails and submissions are serialised, and which ends stuck: the best miner's own better submission is committed between the re-read of the best solution and that of the contributions |
| `PoolBlocks.BlockedForGood` | src/processors/pool_mine_success_processor.rs:198-206 | every continuation of the whole pool keeps a stuck ledger stuck |
| `Codec.LeValueOfBytes` | src/message.rs:33-35 | decoding inverts the little-endian encoding |
| `Codec.LeBytesOfValue` | src/processors/client_message_processor.rs:80 | encoding inverts the little-endian decoding |
| `Codec.LeByteAt` | src/message.rs:33-35 | byte i of an encoding is the digit of 256^i: the least significant byte comes first |
| `Codec.StartMining.ToMessageBinary` | src/message.rs:29-38 | 57 bytes: the tag and each field at its offset, from which they are read back |
| `Codec.StartMining.ToFixedBuffer` | src/message.rs:18-27 | the fixed-buffer form described in the comment reads back the same |
| `Codec.StartMiningIsItsFields` | src/message.rs:18-38 | the fields determine every byte, so both forms of a mission are equal |
| `Codec.SubmissionResult.ToMessageBinary` | src/message.rs:84-100 | 101 bytes: the tag and each field at its offset, from which they are read back |
| `Codec.SubmissionResultIsItsFields` | src/message.rs:84-100 | the fields determine every byte of the result |
| `Codec.ProcessMessage` | src/main.rs:1436-1500 | the index loops compute the meaning of every frame; which frames are ready, mining or solution messages and which panic, each as an iff |
| `Codec.SolutionIffSignedPayload` | src/main.rs:1448-1488 | a frame is passed on as a solution iff it lays out fields of the right widths followed by a signature of digest and nonce, and then with those fields |
| `Codec.PayloadRoundTrip` | src/main.rs:1448-1488 | digest, nonce, pubkey and signature come out as laid out, and the nonce decodes to its number |
| `Fee.SortBy` | src/dynamic_fee.rs:213-214 | the in-place sort yields an ordered permutation |
| `Fee.KthSmallestIsUnique` | src/dynamic_fee.rs:212-224 | an order statistic depends on the values alone, not on their order |
| `Fee.RankInBounds` | src/dynamic_fee.rs:217-223 | the exact rank of a percentile never exceeds the length |
| `Fee.ExactRankRounds` | src/dynamic_fee.rs:217-223 | exact ranks meet what is assumed of the floating-point ones |
| `Fee.Rank75` | src/dynamic_fee.rs:217-223 | the 75th percentile reads rank (3 * len + 2) / 4 |
| `Fee.CalculatePercentiles` | src/dynamic_fee.rs:212-224 | each of the ten percentiles maps to the order statistic of the rank computed for it, and 75 to that of rank (3 * len + 2) / 4 |
| `Fee.DecidingChunk` | src/dynamic_fee.rs:199-205 | which rows decide: the only chunk up to 150 rows, the second up to 300, the third up to 450, and never a row beyond |
| `Fee.LocalDynamicFee` | src/dynamic_fee.rs:194-209 | the estimate is the (3 * len + 2) / 4-th smallest fee of the last chunk looked at, newest slots first; an empty list is an error |
| `Fee.EstimateIsOrderFree` | src/dynamic_fee.rs:197-209 | with one row per slot the estimate does not depend on the order of the rows |

## Left out

- Transport and foreign calls: RPC, TPU, pubsub, axum, websocket upgrade, signature and timestamp checks, solution hashing; they appear as inputs of events or as uninterpreted functions.
- Notifications, sound, logging, command line, environment and wallet loading, and the text messages to older clients.
- Floating-point display values (balance, multiplier, percentages); the codec carries them as eight opaque bytes.
- The fee branches that average in floating point, and the cap, which the early default returns bypass.
- Pong tracking and ping eviction, reporting and the 24-hour summary, the PostgreSQL build, bus selection, and the retry loops that record transactions and new challenges (the challenge id is an input of the attender).
- The challenge kept in the epoch hashes: the failure reset does not update it and nothing reads it.
- The creation of a missing pool row by a handler, and the `enabled` flag of a miner.
- The content of the sockets map: a lookup answers freely with a miner id or a pubkey; what is proved is that credits and assignments follow the answers.
- Dispatcher.MissionDispatcher.ShouldMine: takes the cutoff as an input; the clock and the proof it is computed from are modelled for the submission round alone.
- Dispatcher.MissionDispatcher.DispatchAll: states what the loop does when nothing interferes; interference is covered by the theorems about `Dispatch`.
- EpochHashes.EpochStore.HandleSolution: states the uninterrupted handler; interleavings are covered by the theorems about `Intake`.
- Handlers.EnrolmentHandlers.Connect: states the uninterrupted handler; interleavings are covered by `Enrolment.EveryRunIsEnrolled`.
- Fee.SortBy: stands for the library's sorts; an insertion sort, since the library's algorithm is not part of the repository.
- Fee.CalculatePercentiles: takes the floating-point ranks as a parameter; that the rank of 75 is exact and that no rank exceeds the length is assumed of them.
