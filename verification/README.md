# Verification model of the coordinator core

A Dafny 4.11 model of the coordinator's hardest parts, with proofs over every input, every run or every
reachable state. `dafny verify dfyconfig.toml` checks the whole project.

What is modelled, and the main results:

1. **Proof merging** (`merge.rs`, and the `prover.move` contract it drives). A block of n sequences becomes
   one proof by merging adjacent proofs. The split tree (`SplitTree`) has an aligned closed form; the
   top-down planner lists exactly the wanted nodes of it for every status assignment and clock; the bottom-up
   planner lists exactly the wanted aligned chunks, and chunks are exactly the ranges that are nodes for every
   later end. The first-merge search agrees with the full list under an exact condition. Over all runs of
   arriving single proofs, starts requested now or late, restarts, results, rejections of any stored proof,
   time and a fixed end, a finished block has exactly n - 1 merged proofs; with a known end everything listed
   is accepted, and an unmerged part of the block has a merge to do unless one of its top proofs, those that
   are half of no stored merge, is rejected or waits for its prover. With an unknown end the listed merges are
   disjoint under an exact condition. A block that nothing holds up can always be finished, with one start for each
   merge still missing (`MergeProgress`). Executing the whole list every round takes exactly ceil(log2 n) rounds.
   What is listed, and what is queued on a later snapshot than it was planned on, is given by the status and
   age of the stored proofs alone (`MergeListing`).
2. **Event buffer** (`buffer/src/lib.rs`). A transition system with separate steps for sending, accounting,
   the backend's answer, memory release and permit release keeps order, batch bounds, permits, event counts
   and memory accounting in every interleaving, and every statistic is read off the history of the run
   (`BufferCounts`); without new calls it comes to rest (`BufferProgress`). The consumer's loops are methods whose
   traces are runs of it.
3. **Base-56 job ids** (`job_id.rs`): the encoder's loops, an inverse, and the exact collisions.
4. **Job locks** (`job_lock.rs`): exclusion holds if and only if nobody tries a key over an expired guard, and
   among unexpired guards if and only if nobody tries a key after an older guard of it was dropped late.
5. **Agent job database** (`agent.rs`): over every interleaving of its lock sections the maps stay consistent;
   exactly when failing a session finds every job, when a job stops waiting, comes adrift, and is lost.
6. **Job pool** (`job_searcher.rs`): grouping, per-block sorting and cutoff refine one stable sort and cut.

## What the proofs show about the code

Each of these is a lemma below; the model follows the code.

- With a known end one rejected proof, or one Started merge whose prover never answers, holds up its block at
  any age: the top-down planner counts a range as existing in any status (`MergeRun.AtRestFinishedIff`,
  `MergeRun.TopBlocksAbove`). When the proof of a finished block is rejected nothing is planned to replace it
  (`MergeRun.FinishedBlockRejected`).
- The contract lets any stored proof be rejected, and any timed-out one be started again. Either can take a half
  away from an active merge, whose result the contract then refuses (`MergeHalves.RejectedHalfAborts`; exactly
  when: `MergeHalves.RunReadyIff`). Rejecting a merge gives back halves that were never submitted
  (`MergeHalves.GivenBackWithoutHash`).
- The merges listed while the end is unknown can cover a sequence twice (`MergeOverlap.OverlapHappens`). They do
  exactly when a range that can be merged contains a rejected or timed-out merge whose halves are free
  (`MergeOverlap.ListDisjointIff`).
- With an unknown end an expired Started merge is proposed again and again, and refused every time: the first
  check only notes that the contract will deal with it, the second then refuses anything but a rejected proof
  (`MergeJob.BottomUpRequestQueued`).
- The first-merge search looks for active proofs and the full search for stored ones. They disagree exactly
  when something stored is in the way of the first range that the one finds, or it finds none and falls
  through to stray chunks (`MergePlanner.FirstIsHeadIff`).
- The doubling loop overflows for more than 2^63 sequences, and only then.
- At rest the memory counter is above zero exactly when some flush released its memory while the bytes sent and
  not yet counted exceeded those in the channel: a flush can overtake a producer's own accounting
  (`BufferProtocol.AtRestMemory`, `BufferProtocol.LeakHappens`), and the surplus is never worked off
  (`BufferProtocol.LeakStays`).
- Any accepted event clears the circuit breaker's error count, so it opens only after a full threshold of
  failed batches with no event accepted between them (`EventBuffers.OpenIff`).
- The cap of thirty seconds on the retry delay is never reached.
- The alphabet called base 56 has 57 symbols; the last is never used. The empty input and one zero byte have
  the same text.
- The global lock manager's timeout is 600 / 1000 = 0 seconds, so it excludes nobody; a late guard drop
  releases the key of its successor (`JobLocks.LateDropReleasesSuccessor`), and that is the only way for two
  unexpired guards to share a key (`JobLocks.OneFreshIff`).
- A failure of a session misses a job that is being taken, or added, in another thread, and can drop the index
  entry of a job that is still alive, which later failures then miss (`SessionRaces.FailReturnsAllIff`,
  `SessionRaces.AdriftIff`, `SessionRaces.FailedWhileTaken`). Adding a second job for a session loses the one that
  waits (`SessionRaces.NothingLostIff`).
- Each app instance is given the whole memory budget, so a budget of a gigabyte or more is sure to hold only for
  one instance (`JobMemory.SharedBudgetIff`). Settle-only mode neither sorts nor cuts.

Where comments and code disagree the code is followed: the universal proof timeout is five minutes although
comments in `merge.rs` speak of two and of more than ten, and 600 seconds is commented as fifteen minutes.

## Hypotheses

Proof lists have distinct, contiguous ranges inside the block, which the contract guarantees and the runs
establish (`MergeRun.RunKeepsInv`); merges are requested that the coordinator has planned at some time, results
arrive for stored merges, and any stored proof may be rejected; job ids are fresh; time does not run backwards;
the contract acts on the same clock as the planner. The end of a block is fixed once, at or past every stored
proof (`MergeSteps.EndFits`): the contract does not check this, its caller is assumed to. A block's sequences fit
into one vector, as collecting a range demands.

## Model

| member | source | states |
|---|---|---|
| PowersOfTwo.TrickIsExact | crates/coordinator/src/merge.rs:371-373 | n & (n - 1) is zero for a positive n exactly when n is a power of two |
| PowersOfTwo.LargestPowerOfTwoBelow | crates/coordinator/src/merge.rs:376-385 | the doubling loop in 64 bits: overflow exactly above 2^63, 0 up to 1, otherwise the split size |
| PowersOfTwo.SplitSizeUnique | crates/coordinator/src/merge.rs:376-385 | the split size is the only power of two p with p < n <= 2 p |
| PowersOfTwo.Split | crates/coordinator/src/merge.rs:388-408 | the split point is inside the range and the left part is at least as long as the right |
| PowersOfTwo.FindBinarySplitPoint | crates/coordinator/src/merge.rs:388-408 | both branches give the same split point; none for an empty or single range; overflow exactly above 2^63 sequences |
| SplitTree.Laminar | crates/coordinator/src/merge.rs:388-408 | two nodes of the split tree are disjoint or one lies in the tree of the other |
| SplitTree.ParentUnique | crates/coordinator/src/merge.rs:388-408 | a range is a half of at most one node |
| SplitTree.NodeIffAligned | crates/coordinator/src/merge.rs:388-408 | the recursive splits reach a range exactly when it starts at a multiple of its rounded-up size and is full or ends the block |
| SplitTree.ChunkIffNodeForEveryEnd | crates/coordinator/src/merge.rs:797-804 | the aligned power-of-two chunks the bottom-up planner merges are exactly the ranges that are split-tree nodes for every end at or past their own |
| SplitTree.InnerNodesCount | crates/coordinator/src/merge.rs:697-763 | a block of n sequences has exactly n - 1 inner nodes |
| SplitTree.InnerNodesExact | crates/coordinator/src/merge.rs:388-408 | the collected inner nodes are exactly the split-tree nodes of more than one sequence |
| SplitTree.HeightStep | crates/coordinator/src/merge.rs:388-408 | a node lies exactly one level above its left half and at least one above its right half |
| TopDownPlanner.CheckHalves | crates/coordinator/src/merge.rs:892-909 | the look-ups of both halves decide whether both are stored and available |
| TopDownPlanner.PlanExact | crates/coordinator/src/merge.rs:859-954 | a range is planned exactly when it is a node of more than one sequence, neither it nor a node around it is stored, and both halves are available, for every status and clock |
| TopDownPlanner.WantedDisjoint | crates/coordinator/src/merge.rs:859-954 | two different wanted ranges share no sequence |
| TopDownPlanner.PlanLeftToRight | crates/coordinator/src/merge.rs:859-954 | the planned ranges are pairwise disjoint and none is planned twice |
| TopDownPlanner.RecursiveFindMerges | crates/coordinator/src/merge.rs:867-951 | the recursion pushes exactly the planned requests the vector does not hold yet, and terminates |
| TopDownPlanner.KnownEndList | crates/coordinator/src/merge.rs:708-763 | pushing the block request first and then the recursion lists every planned range once, flagged when it is the whole block |
| TopDownPlanner.FindAllKnownEnd | crates/coordinator/src/merge.rs:708-763 | the known-end branch returns the planned ranges with the flag on the whole block only |
| BottomUpPlanner.TryPair | crates/coordinator/src/merge.rs:789-842 | the tests on one proof of a level and its right neighbour accept it exactly when the pair is to be merged |
| BottomUpPlanner.FindAllUnknownEnd | crates/coordinator/src/merge.rs:766-848 | the loop over levels 1 to 256 pushes exactly the requests of the levels, in order |
| BottomUpPlanner.FindFirstUnknownEnd | crates/coordinator/src/merge.rs:589-687 | the first-merge variant returns the head of that list |
| BottomUpPlanner.BottomUpExact | crates/coordinator/src/merge.rs:766-848 | the list is exactly the aligned chunks whose halves are available and which are not active or completed |
| BottomUpPlanner.BottomUpDisjoint | crates/coordinator/src/merge.rs:766-848 | two different wanted chunks share no sequence while active merged proofs have active halves |
| BottomUpPlanner.RequestsOnce | crates/coordinator/src/merge.rs:766-848 | no request occurs twice across the levels |
| BottomUpPlanner.BottomUpListDisjoint | crates/coordinator/src/merge.rs:766-848 | no two entries of the whole list cover a common sequence |
| MergePlanner.FindAllProofsToMerge | crates/coordinator/src/merge.rs:697-856 | nothing for a finished block, else the known-end or the unknown-end list |
| MergePlanner.AllMergesKnownEnd | crates/coordinator/src/merge.rs:697-763 | a request is listed exactly when its range is wanted and its flag says whether it is the whole block |
| MergePlanner.AllMergesDisjoint | crates/coordinator/src/merge.rs:697-763 | the listed requests run left to right without overlap |
| MergePlanner.FindProofsToMerge | crates/coordinator/src/merge.rs:411-693 | the first-merge search, with its fall-through to the bottom-up search, returns the specified first merge |
| MergePlanner.SearchIsHead | crates/coordinator/src/merge.rs:411-509 | for every status and clock the recursive search returns the first range of the active plan, in which only active proofs stop the descent |
| MergePlanner.FirstIsHeadIff | crates/coordinator/src/merge.rs:512-763 | in every well-formed block the first merge is the head of the full list if and only if the block is finished, its end unknown, or the first range of the active plan has nothing stored around it and, when that plan is empty, no chunk is wanted |
| MergePlanner.FirstIsHeadKnownEnd | crates/coordinator/src/merge.rs:512-601 | with a known end, no rejected or expired proof and halves kept, the searches agree |
| MergePlanner.InactiveBlockProofDisagrees | crates/coordinator/src/merge.rs:425-432 | with a rejected or expired block proof the full list is empty while the first-merge search proposes the block again, unflagged |
| MergePlanner.MissingHalvesDisagree | crates/coordinator/src/merge.rs:587-601 | with an active block proof and stray mergeable chunks the full list is empty while the first-merge search falls through and proposes one |
| MergePlanner.RejectedBlockDisagrees | crates/coordinator/src/merge.rs:882-889 | a concrete block in which the two searches disagree over a rejected proof |
| MergePlanner.PrunedBlockDisagrees | crates/coordinator/src/merge.rs:587-601 | a concrete block in which they disagree over missing halves |
| MergeJob.TopDownRequestQueued | crates/coordinator/src/merge.rs:1006-1301 | every known-end request passes the combined-proof and reservability checks and is queued with exactly its range; the recomputed block flag is the request flag unless the block has all 2^64 sequences |
| MergeJob.BottomUpRequestQueued | crates/coordinator/src/merge.rs:1136-1155 | an unknown-end request passes the checks unless its combined proof is stored as Started, which is then expired |
| MergeJob.UnknownEndIsNoBlock | crates/coordinator/src/merge.rs:1219-1221 | with an unknown end the wrapped block length is never the length of two or more sequences of the block |
| ProofContract.OutsideIsRefused | move/coordination/sources/prover.move:663-704 | no start, result or rejection is accepted for a range that is empty or reaches out of the block |
| ProofContract.RejectNeedsStored | move/coordination/sources/prover.move:603-659 | no rejection is accepted for a proof that is not stored or that records a half that is not stored |
| MergeInvariant.EffectKeepsInv | move/coordination/sources/prover.move:374-600 | every change of one merged proof and its halves that the contract can make keeps the block invariant |
| MergeSteps.StartAcceptedIff | move/coordination/sources/prover.move:340-601 | the contract starts a merge of the tree exactly when both halves have a data hash and it is stored and rejected or timed out, or absent with both halves reservable |
| MergeSteps.ProposedAcceptedIff | move/coordination/sources/prover.move:340-601 | of the merges the planner asks for, the contract accepts exactly those whose halves have a data hash |
| MergeSteps.StartKeepsInv | move/coordination/sources/prover.move:374-600 | an accepted start, planned or not, new or of a rejected or timed-out proof, stores the merge as Started, reserves both halves and keeps the invariant |
| MergeSteps.StartWrites | move/coordination/sources/prover.move:417-590 | an accepted start stores exactly a Started proof without hash and both halves as Reserved, all with the time of the start |
| MergeSteps.SubmitAcceptedIff | move/coordination/sources/prover.move:324-332 | the contract accepts the result of a stored merge exactly when both halves are finished, not rejected and have a hash |
| MergeSteps.SubmitKeepsInv | move/coordination/sources/prover.move:707-828 | an accepted result is stored as Calculated, uses both halves and keeps the invariant |
| MergeSteps.SubmitWrites | move/coordination/sources/prover.move:707-828 | an accepted result stores exactly a Calculated proof with hash and both halves as Used, all with the time of the result |
| MergeSteps.RejectKeepsInv | move/coordination/sources/prover.move:603-659 | a stored merge in any status can be rejected; both halves become Calculated, whatever they were, and the invariant stays |
| MergeSteps.RejectWrites | move/coordination/sources/prover.move:603-659 | a rejection changes only the status of the rejected proof, not its time, and makes both halves Calculated at the time of the rejection |
| MergeSteps.RejectSingleKeepsInv | move/coordination/sources/prover.move:603-659 | a stored single in any status can be rejected, and the invariant stays |
| MergeSteps.SingleKeepsInv | move/coordination/sources/prover.move:707-828 | a proof of one sequence is accepted at any time and keeps the invariant |
| MergeSteps.EndKeepsInv | move/coordination/sources/prover.move:218-257 | fixing the end at or past everything stored keeps every stored chunk, and each is a node of the tree of the block |
| MergeRun.RunKeepsInv | crates/coordinator/src/merge.rs:697-856 | the invariant and the counts hold after every run of a new block, with any merge of the tree requested, restarts included, and any stored proof rejected at any time |
| MergeRun.PlannedStaysEnabled | crates/coordinator/src/merge.rs:989-1071 | whatever the planner lists at some time is a merge of the tree at every later time of the run, so those runs contain every late request |
| MergeRun.FinishedBlock | crates/coordinator/src/merge.rs:697-856 | a finished block of n sequences holds exactly n - 1 merged proofs, the inner nodes of its tree, however late its merges were requested; without rejections and restarts it took exactly n - 1 starts |
| MergeRun.NoMergeWasted | crates/coordinator/src/merge.rs:766-848 | once the end is known every merged proof made so far, before or after, is an inner node of the tree of the block |
| MergeRun.ListedIsAccepted | crates/coordinator/src/merge.rs:697-763 | in every reachable state with a known end each listed merge is queued and accepted by the contract |
| MergeRun.NeverStuck | crates/coordinator/src/merge.rs:697-763 | in every unmerged range of an unfinished block that has its singles and in which no top proof waits for a prover or is rejected, a merge is listed, queued and accepted, whatever the rest of the block does |
| MergeRun.AtRestFinishedIff | crates/coordinator/src/merge.rs:882-889 | a block with all singles and an empty list is finished if and only if no top proof waits for a prover or is rejected, or its own proof was rejected or started again after finishing it |
| MergeProgress.CanFinish | crates/coordinator/src/merge.rs:697-856 | every reachable block with all singles whose top proofs neither wait for a prover nor are rejected can be finished by listed merges alone, one for each merge of the tree still missing |
| MergeProgress.EveryBlockCanFinish | crates/coordinator/src/merge.rs:697-856 | a new block of n sequences, for every n, has a run of listed merges that finishes it with n - 1 starts |
| MergeProgress.AcceptedCallsAreSteps | move/coordination/sources/prover.move:374-828 | every start, result or rejection on the tree that the contract accepts is a step of a run with the result of the contract |
| MergeProgress.ClockAndEndAreSteps | move/coordination/sources/prover.move:218-257 | so is every passing of time, and fixing the end at or past everything stored |
| MergeRun.TopBlocksAbove | crates/coordinator/src/merge.rs:882-889 | with a known end no merge at or above a top proof that is Started or Rejected is planned, at any clock |
| MergeRun.FinishedBlockRejected | move/coordination/sources/prover.move:603-659 | the proof of a finished block can be rejected; the block stays finished and nothing is planned again |
| MergeListing.UnknownEndListedIff | crates/coordinator/src/merge.rs:766-848 | with an unknown end a merge is listed exactly when it is an aligned chunk of at most 512 sequences, each half is Calculated, or Reserved or Used for more than five minutes, and it is itself absent, Rejected or Started for more than five minutes |
| MergeListing.KnownEndListedIff | crates/coordinator/src/merge.rs:697-763 | with a known end a merge of an unfinished block is listed exactly when it is a node of the tree, absent, and each half is Calculated, or Reserved or Used for more than five minutes |
| MergeListing.StartedListedIff | crates/coordinator/src/merge.rs:956-986 | with an unknown end a started merge is listed again after five minutes and not before |
| MergeListing.StartedNeverListed | crates/coordinator/src/merge.rs:882-889 | with a known end a started merge is never listed again |
| MergeListing.SubmittedNeverListed | crates/coordinator/src/merge.rs:697-856 | a submitted merge is never listed again |
| MergeListing.QueuedIff | crates/coordinator/src/merge.rs:1006-1313 | over two snapshots a planned merge is queued exactly when the planning one has no Started proof of at most five minutes for it, the current one has it absent or Rejected, and both halves are there and Calculated, or Reserved or Used for more than five minutes or for the whole block |
| MergeListing.RefusedAs | crates/coordinator/src/merge.rs:1013-1155 | an unexpired Started proof in the planning snapshot refuses whatever the current one holds; otherwise any stored proof but a Rejected one refuses with its status |
| MergeListing.StartedIsRefused | crates/coordinator/src/merge.rs:1136-1155 | once a start was accepted, every job for the same merge is refused, however it was planned |
| MergeListing.SubmittedIsRefused | crates/coordinator/src/merge.rs:1136-1155 | once a result was accepted, every job for the same merge is refused, however it was planned |
| MergeListing.RejectedIsQueued | crates/coordinator/src/merge.rs:1136-1301 | after a rejection a job for the merge is queued unless it was planned while the merge was under proof |
| MergeHalves.ReadyIsActive | crates/coordinator/src/merge.rs:977-986 | when active merged proofs have usable halves, active merged proofs have active halves |
| MergeHalves.HalvesActiveIff | crates/coordinator/src/merge.rs:977-986 | in every reachable state active merged proofs have active halves if and only if no half of one is rejected or a Started one that timed out |
| MergeHalves.RejectReadyIff | move/coordination/sources/prover.move:603-659 | a rejection keeps every active merge supplied with usable halves if and only if it neither hits a half of an active merge nor gives back a half that lost one of its own |
| MergeHalves.StartReadyIff | move/coordination/sources/prover.move:374-600 | the same for an accepted start, which puts a merge back to Started and reserves its halves |
| MergeHalves.ListedStartBreaksNothing | crates/coordinator/src/merge.rs:697-856 | the start of a merge that the planner lists at the time never does either |
| MergeHalves.RunReadyIff | move/coordination/sources/prover.move:374-828 | in a run active merges always have usable halves if and only if no rejection and no start of the run takes one away |
| MergeHalves.RejectedHalfAborts | move/coordination/sources/prover.move:324-332 | after a half of a stored merge is rejected the contract refuses the result of that merge, and an active merge has an inactive half |
| MergeHalves.GivenBackWithoutHash | move/coordination/sources/prover.move:334-338 | rejecting a merge gives back even a half never submitted; the merge is proposed again and refused for want of a hash |
| MergeOverlap.ListDisjointIff | crates/coordinator/src/merge.rs:766-848 | in every state of the contract with an unknown end the listed merges are pairwise disjoint if and only if no inactive chunk of at most 512 sequences with free halves contains a smaller merge that is rejected or timed out as Started and has free halves itself |
| MergeOverlap.RunListDisjoint | crates/coordinator/src/merge.rs:766-848 | in a run that takes no half away from an active merge, with the end unknown, the listed merges of all levels are pairwise disjoint |
| MergeOverlap.OverlapAfterRejection | crates/coordinator/src/merge.rs:766-848 | after a half of a half of a wanted merge is rejected the planner wants both it and the merge around it |
| MergeOverlap.OverlapHappens | crates/coordinator/src/merge.rs:766-848 | a run of a new block with only listed merges and one rejection that ends with an overlapping list |
| MergeRounds.RoundPlansHeight | crates/coordinator/src/merge.rs:859-954 | after r rounds the planner lists exactly the nodes of height r + 1 |
| MergeRounds.ExecuteAllEffect | crates/coordinator/src/merge.rs:859-954 | executing a list of disjoint merges stores exactly their ranges, none disturbing another |
| MergeRounds.RoundsFinish | crates/coordinator/src/merge.rs:697-763 | executing the whole list every round finishes a block of n singles after ceil(log2 n) rounds and not before |
| BufferProtocol.RunKeepsInv | crates/buffer/src/lib.rs:201-303 | in every interleaving: order, batch bounds, permit and event conservation, memory and size accounting |
| BufferProtocol.OrderStep | crates/buffer/src/lib.rs:414-530 | each step keeps batches, then buffer, then channel equal to the accepted events in order |
| BufferProtocol.MemorySlackStep | crates/buffer/src/lib.rs:678-685 | the counted memory beyond the waiting bytes changes only when the counter is reset, and then grows |
| BufferProtocol.ChannelNeverFullAtSend | crates/buffer/src/lib.rs:280-283 | a producer holding a permit always finds room in the channel |
| BufferProtocol.WithinCapacity | crates/buffer/src/lib.rs:223-281 | events sent and not flushed to the end never exceed the capacity |
| BufferProgress.QuietStepsCloser | crates/buffer/src/lib.rs:414-530 | every step but a new call brings the buffer closer to rest, in an order that cannot go down for ever |
| BufferProgress.CallsCanGoOn | crates/buffer/src/lib.rs:201-303 | in every reachable state each call with a permit can send and can give up, each that sent can count, and a free place admits any event |
| BufferProgress.ComesToRest | crates/buffer/src/lib.rs:414-530 | from every reachable state the calls under way and the consumer can go on until everything sent is handed over in order and all permits are free |
| BufferProtocol.FlushReturnsItsPermits | crates/buffer/src/lib.rs:687-687 | the end of a flush frees exactly as many permits as its batch has events |
| BufferProtocol.AtRestAccounts | crates/buffer/src/lib.rs:592-651 | at rest every accepted event was handed over once in order, all permits are free, and processed plus dropped equals the decided calls if and only if the backend never over-reported |
| BufferProtocol.ResetIff | crates/buffer/src/lib.rs:678-685 | a run resets the memory counter exactly when a flush releases its memory while the bytes sent and not counted exceed those in the channel, and the event counter exactly when a batch is counted off while more events are sent and not counted than are in the channel |
| BufferProtocol.AtRestMemory | crates/buffer/src/lib.rs:678-685 | at rest the memory and event counters are zero if and only if no flush of the run did that |
| BufferProtocol.NoneMidwayNoLeak | crates/buffer/src/lib.rs:279-288 | in particular when no flush lowers them while a producer has sent but not counted an event |
| BufferProtocol.LeakStays | crates/buffer/src/lib.rs:678-685 | a surplus of counted memory is never worked off |
| BufferProtocol.LeakHappens | crates/buffer/src/lib.rs:279-288 | a run with one event that ends at rest with its memory still counted |
| BufferCounts.RunTallies | crates/buffer/src/lib.rs:592-651 | in every run, read off its actions and batches: processed is what the backend claimed, errors the events of failed batches, dropped those plus the shortfalls plus the calls turned away, and received, retries and backpressure count their steps |
| EventBuffers.OpenIff | crates/buffer/src/lib.rs:346-388 | the breaker is open if and only if a failed batch once made a streak of the threshold length, counted since an event was accepted, a batch processed or an expiry noticed, and neither of the last two happened since |
| EventBuffers.ErrorsAreStreak | crates/buffer/src/lib.rs:365-387 | the error count is the length of that streak |
| EventBuffers.RecoversIff | crates/buffer/src/lib.rs:347-373 | an open breaker closes when it is asked later than the timeout after the last failed batch, and not before |
| EventBuffers.CircuitBreaker.IsOpen | crates/buffer/src/lib.rs:347-363 | asking closes an open breaker whose last error is older than the timeout |
| EventBuffers.CircuitBreaker.RecordError | crates/buffer/src/lib.rs:365-373 | counts the error and opens at the threshold |
| EventBuffers.CircuitBreaker.RecordSuccess | crates/buffer/src/lib.rs:375-379 | clears the error count without closing |
| EventBuffers.CircuitBreaker.RecordBackendSuccess | crates/buffer/src/lib.rs:381-387 | closes and clears |
| EventBuffers.ProcessWithRetry | crates/buffer/src/lib.rs:690-731 | an error exactly when all ten attempts fail, otherwise the first success; each failed attempt but the tenth waits 100 ms doubled each time plus half the jitter, always below thirty seconds |
| EventBuffers.EventBuffer.Admit | crates/buffer/src/lib.rs:201-277 | an event is admitted exactly when the breaker is closed, memory suffices and a permit is free |
| EventBuffers.EventBuffer.AddEvent | crates/buffer/src/lib.rs:201-303 | one undisturbed call is the run acquire, send, account of the protocol, or one refusal |
| EventBuffers.EventBuffer.CountBatch | crates/buffer/src/lib.rs:592-651 | a failed batch adds all its events to errors and dropped, an answered one its answer to processed and the shortfall to dropped; the breaker is told |
| EventBuffers.EventBuffer.FlushBuffer | crates/buffer/src/lib.rs:517-688 | hands the whole buffer over as one batch; its trace is a run of the protocol |
| EventBuffers.EventBuffer.TakeAvailable | crates/buffer/src/lib.rs:485-500 | takes from the front of the channel what is there, up to the room in the buffer |
| EventBuffers.EventBuffer.DrainAndFlush | crates/buffer/src/lib.rs:467-515 | with no producer active it ends with buffer and channel empty, everything handed over in order in batches of the maximal size |
| EventBuffers.ChunksCut | crates/buffer/src/lib.rs:467-515 | those batches joined are the events in order; all but the last have 10000 events |
| EventBuffers.EventBuffer.ReceiveArm | crates/buffer/src/lib.rs:433-448 | one received event, with the flush or drain it triggers, is a run of the protocol |
| EventBuffers.EventBuffer.Run | crates/buffer/src/lib.rs:414-465 | for every script of calls, wake-ups and ticks: at the end every accepted event was handed over once in order, all permits are free and every call is counted |
| Base56.EncodeBase56 | crates/coordinator/src/job_id.rs:60-103 | the loops compute the specified text |
| Base56.DecodeEncode | crates/coordinator/src/job_id.rs:60-103 | every non-empty byte string is recovered from its text, which uses the first 56 symbols only |
| Base56.EncodeDecode | crates/coordinator/src/job_id.rs:60-103 | every non-empty text over those symbols is the text of the bytes it decodes to |
| Base56.EncodeInjective | crates/coordinator/src/job_id.rs:83-87 | two inputs have the same text exactly when they are equal or are both among the empty input and one zero byte |
| Base56.EncodedLength | crates/coordinator/src/job_id.rs:88-100 | 29 (length of the text - 1) < 40 length of the data, so at most 45 symbols for a 32-byte hash |
| Base56.TextIsReadable | crates/coordinator/src/job_id.rs:60-62 | a text has only digits and letters, and never 0, O, I, l, o or z |
| Base56.ZerosBecomeOnes | crates/coordinator/src/job_id.rs:69-87 | zero bytes alone become as many 1s |
| Base56.RecodeBack | crates/coordinator/src/job_id.rs:63-100 | changing the base of a digit string and back restores it, leading zeros included |
| JobLocks.JobLockManager.TryLockJob | crates/coordinator/src/job_lock.rs:50-93 | succeeds exactly when the key has no fresh entry; forgets expired entries and records the time |
| JobLocks.JobLockManager.IsLocked | crates/coordinator/src/job_lock.rs:113-134 | true exactly when the key has a fresh entry; forgets expired entries |
| JobLocks.JobLockManager.ReleaseJob | crates/coordinator/src/job_lock.rs:96-110 | removes the entry of the key, whoever made it |
| JobLocks.JobLockGuard.Drop | crates/coordinator/src/job_lock.rs:22-30 | dropping a guard releases its key |
| JobLocks.Exclusive | crates/coordinator/src/job_lock.rs:50-134 | for every timeout, while guards are dropped in time, the table is exactly the live guards and no key has two |
| JobLocks.ExclusiveIff | crates/coordinator/src/job_lock.rs:50-134 | no key ever has two guards if and only if no attempt on a key comes while an expired guard of it is alive |
| JobLocks.OneFreshIff | crates/coordinator/src/job_lock.rs:22-93 | no key ever has two unexpired guards if and only if nobody tries a key one of whose unexpired guards has seen another guard of the key dropped |
| JobLocks.BareIff | crates/coordinator/src/job_lock.rs:96-110 | as long as nobody does, an unexpired guard has lost its entry exactly when another guard of its key was dropped after it was taken |
| JobLocks.AcquisitionsApart | crates/coordinator/src/job_lock.rs:50-134 | in every run two acquisitions of a key with no drop of that key between are at least the timeout apart |
| JobLocks.LateDropReleasesSuccessor | crates/coordinator/src/job_lock.rs:22-30 | a run in which the late drop of an expired guard lets two fresh guards hold one key |
| JobLocks.ZeroTimeoutIff | crates/coordinator/src/job_lock.rs:56-69 | every attempt is granted whatever is held if and only if the timeout is zero |
| JobLocks.GlobalLockGrantsAll | crates/coordinator/src/job_lock.rs:160-162 | the global instance grants every attempt |
| AgentJobs.AgentJobDatabase.AddSessionJob | crates/coordinator/src/agent.rs:170-196 | the job becomes the waiting job of its session and is indexed |
| AgentJobs.AgentJobDatabase.GetReadyJob | crates/coordinator/src/agent.rs:201-274 | returns a job exactly when one waits for the session with the requested developer, agent and method, and moves it to the running map; otherwise nothing changes |
| AgentJobs.AgentJobDatabase.RemoveRunning | crates/coordinator/src/agent.rs:277-338 | complete, fail, terminate and release remove a running job and return it |
| AgentJobs.AgentJobDatabase.AddToRunning | crates/coordinator/src/agent.rs:347-369 | the job becomes running and is indexed |
| AgentJobs.AgentJobDatabase.GetJobsBySession | crates/coordinator/src/agent.rs:379-419 | finds exactly the jobs that failing the session would return |
| AgentJobs.AgentJobDatabase.FailAllRemainingSessionJobs | crates/coordinator/src/agent.rs:432-485 | returns the waiting job and the indexed running jobs, removes them and the index entry |
| AgentJobs.AddedIsIndexed | crates/coordinator/src/agent.rs:170-196 | an added job, waiting or running, is found under its session or its id and joins the index of its session at the end |
| AgentJobs.FailedIff | crates/coordinator/src/agent.rs:432-485 | a failure on its own returns exactly the waiting job of the session and its indexed running jobs |
| AgentJobs.FailedDistinct | crates/coordinator/src/agent.rs:432-485 | each of them once |
| SessionRaces.RunKeepsInv | crates/coordinator/src/agent.rs:170-369 | in every interleaving of lock sections with fresh ids jobs are filed consistently and in one place each |
| SessionRaces.TakenForItsKey | crates/coordinator/src/agent.rs:201-262 | in every interleaving a take finds a waiting job of that session with exactly the requested developer, agent and method, and only that job leaves the waiting map |
| SessionRaces.StopsWaitingIff | crates/coordinator/src/agent.rs:170-262 | a job stops waiting exactly when it is taken with its own key, its session fails, or another job is added for its session |
| SessionRaces.AddedIsAdd | crates/coordinator/src/agent.rs:170-369 | the sections of adding a waiting or a running job, and of removing one, are the whole operations |
| SessionRaces.TakenIsTake | crates/coordinator/src/agent.rs:201-274 | the two sections of a take with nothing in between are the whole operation |
| SessionRaces.FailedIsFailAll | crates/coordinator/src/agent.rs:432-485 | the four sections of a failure with nothing in between are the whole operation |
| SessionRaces.FailReturnsAllIff | crates/coordinator/src/agent.rs:432-485 | in every reachable state a failure returns every job of its session, each once, if and only if none of them is being taken or runs without being indexed |
| SessionRaces.AdriftIff | crates/coordinator/src/agent.rs:449-468 | a job comes adrift exactly when a failure of its session drops the index entry while the job is alive and listed in it |
| SessionRaces.NeverAdriftIff | crates/coordinator/src/agent.rs:449-468 | no job of a run is ever adrift if and only if no failure ends that way |
| SessionRaces.UninterruptedStrands | crates/coordinator/src/agent.rs:208-262 | a failure with nothing in between strands exactly the indexed jobs of its session that are being taken |
| SessionRaces.HandedOverOnce | crates/coordinator/src/agent.rs:277-338 | only jobs that are alive are handed over, so none is handed over twice |
| SessionRaces.NothingLostIff | crates/coordinator/src/agent.rs:170-196 | in every interleaving each job added is alive or has been handed back if and only if no waiting job was overwritten |
| SessionRaces.OverwritingLoses | crates/coordinator/src/agent.rs:170-196 | a run that loses a waiting job by adding another for its session |
| SessionRaces.FailedWhileTaken | crates/coordinator/src/agent.rs:208-262 | a run in which a failure meets a job that is being taken: it goes on running, is in no index and is handed back to nobody |
| JobPool.SelectJobs | crates/coordinator/src/job_searcher.rs:590-687 | settle-only mode returns the settlement jobs as they came; normal mode one stable sort and one cut |
| JobPool.GroupJobs | crates/coordinator/src/job_searcher.rs:617-630 | splits off the settlement jobs and groups the others by block, missing blocks last |
| JobPool.AddBlocks | crates/coordinator/src/job_searcher.rs:644-687 | ascending blocks, each sorted by itself and cut to the room left, add up to the cut of one global sort |
| JobPool.PeelBlock | crates/coordinator/src/job_searcher.rs:644-653 | sorting from a block on is sorting that block by count and sequence and then everything above |
| JobPool.PoolContents | crates/coordinator/src/job_searcher.rs:617-687 | only viable jobs, all settlement jobs, filled up to 30 and beyond only by settlement jobs |
| JobPool.NoneOutranks | crates/coordinator/src/job_searcher.rs:647-687 | no job left out ranks before one that was picked |
| JobPool.PoolInOrder | crates/coordinator/src/job_searcher.rs:632-653 | settlement jobs come first by sequence, then the others by block with missing blocks last, in a block by fewer sequences first, and then by sequence |
| JobPool.OmittedComesLater | crates/coordinator/src/job_searcher.rs:617-687 | no settlement job is left out, and no job left out belongs before a picked one in that order |
| JobOrder.SortedStable | crates/coordinator/src/job_searcher.rs:632-653 | the sorts keep the order of jobs that rank equal |
| JobPool.SettleOnlyIffOrdered | crates/coordinator/src/job_searcher.rs:590-609 | the settle-only selection is the beginning of the normal one if and only if the settlement jobs came in order, and all of it if moreover nothing else is picked |
| JobMemory.FillBatch | crates/coordinator/src/job_searcher.rs:296-327 | the loop starts exactly the greedy batch and reports exactly the jobs whose method was not fetched |
| JobMemory.UnfetchedIff | crates/coordinator/src/job_searcher.rs:296-327 | the reported jobs are exactly those whose needs are not known, each as often as it came |
| JobMemory.BatchWithin | crates/coordinator/src/job_searcher.rs:304-313 | the batch of one app instance stays within the budget |
| JobMemory.BatchMaximal | crates/coordinator/src/job_searcher.rs:304-313 | a job left out for memory would not fit on top of the finished batch either |
| JobMemory.SharedBudgetIff | crates/coordinator/src/job_searcher.rs:208-313 | for every budget, negative ones included, the jobs started for several app instances are sure to fit it together if and only if there is at most one instance or less than one gigabyte |

## Left out

- The coordination layers, gRPC, JWT and signing, configuration, the command line, Docker and the coordinator's
  task loops: I/O and thin wrappers over code that is not part of this model.
- The fetches, the pending-job scan and the snapshot reading around the merge analysis; the snapshot is an input.
- The list of excluded merges: its only caller passes an empty one, and the model fixes it to that.
- The value of the data hash (only whether there is one) and the sorting of sequences inside the contract:
  sequences are passed sorted.
- Calls the contract would also take: starting or submitting a merge the planners never ask for (one that is no
  range of the tree), submitting the result of a merge that is not stored, starting a single.
- Widths: sequence numbers are natural numbers bounded by u64 where the arithmetic needs it; counters of the
  buffer do not wrap.
- The event publisher (it changes no state), logging, metrics and the health ratio in floating point.
- Clocks, timers, retry jitter and the scheduler: parameters, or the order of actions in a run.
- Compare-and-store inside one flush release (lines 615-622 and 679-685 of the buffer) is one step.
- Memory sizes of jobs are real numbers, not floating point.
- `clear_all_locks` and `cleanup_session`: debug or unused code that breaks the invariants on purpose.
- AgentJobs.AgentJobDatabase.GetJobsBySession: its three read sections are one step.
- Hashing and serialising the job id's input.
- `jobs.rs`, `jobs_cache.rs`, `block.rs`, layer configuration and version comparison: only easy members, or
  they rest on contracts that are not part of this model.
- EventBuffers.EventBuffer.Admit: the timed wait of the middle permit tier is not in the method, because alone
  a call that sees a permit gets it; in the protocol a permit may be acquired at any time.
- EventBuffers.EventBuffer.AddEvent: neither is the timed wait of the send, which alone never waits; in the
  protocol a call may also give up.
- AgentJobs.AgentJobDatabase.FailAllRemainingSessionJobs: the method is the operation on its own; its four lock
  sections interleave with others in SessionRaces.
