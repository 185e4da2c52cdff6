# AgentIX: verified models of its self-contained algorithms and protocols

AgentIX keeps agents' wallets, payments and jobs in a local database and talks to a chain through a bundler. Nine of
its parts are algorithms or state machines of their own. Each is modelled here in Dafny, one module a part, and the
properties it exists for are proved over all inputs and all runs.

| file | part |
|---|---|
| `MerkleTree.dfy` | the incremental sparse Merkle tree: one path is rewritten per update, proofs fold sibling digests |
| `Vouchers.dfy` | payment vouchers: acceptance by nonce in several processes with restarts, grouping by wallet, settlement |
| `Manifest.dfy` | the agent manifest's text: the writer, the line parser and the loader |
| `Scheduler.dfy` | the job queue: batches of ten, attempts, exponential backoff, terminal states |
| `Tar.dfy` | the ustar scan that finds the native addon |
| `RateLimiter.dfy` | the per-address request limiter with periodic eviction |
| `EventIndexer.dfy` | the chunked log indexer with its deduplicating store and checkpoints |
| `SpendingPolicy.dfy`, `SpendingLimits.dfy`, `SpendingRuns.dfy` | the owner's spending limits under the gateway, what two limits let through, and runs of payments |
| `BundlerQueue.dfy` | the UserOp queue and its flush |
| `Options.dfy`, `Decimal.dfy`, `Doubles.dfy`, `Integers.dfy`, `Text.dfy`, `Powers.dfy`, `Sets.dfy`, `Machines.dfy` | absent values, decimal text, rounding to doubles, minimum and maximum, string operations, powers, sizes of sets, runs of machines |

Objects whose methods change their fields are classes, and each method is proved against a function on values; the
properties of whole runs are then lemmas about those functions. Code that awaits is a machine with one step per await
point or table write, so that calls, restarts and crashes may come between any two of them. Where a query leaves ties
in its order open, the model admits every order.

What is left open is a parameter: the digest of a string, the answers of the chain, the bundler, the gateway's
compiler and risk engine, the RPC provider and the handlers, the clock, and generated identifiers. Hash functions are
not assumed injective.

Some properties that the code's documentation or shape suggests are false of the code. Each is stated with the
condition under which it holds and with a case where it fails:

- A digest of zero reads as an absent node (`||` on a bigint). The tree agrees with its leaves all along a run exactly
  when the run stores no such digest (`AgreesThroughoutExactly`); no input of keccak or sha256 with that digest is
  known, so the failing case is under a hypothetical hash (`ZeroDigestBreaksHistoryIndependence`).
- The limiter documented as a sliding window of 120 requests a minute admits up to 239 in some minutes, and never more
  (`AnyMinuteAdmits239`, `MinuteAdmits239`). A minute keeps to 120 exactly when no window opens inside it after more
  admitted requests than the later ones leave room for (`MinuteKeeps120Exactly`).
- A settlement interrupted between execution and marking, or executed but reported as failed, pays its vouchers again;
  every other run pays exactly once (`ExactlyOnceIffRecorded`, `LostRecordPaysTwice`).
- A voucher's nonce is marked and recorded as text, while its bytes are what is signed: at most one call per signed nonce
  is accepted exactly when no two texts received denote the same bytes (`OncePerBytesExactly`).
- The daily spending total passes through a 64-bit sum and a JavaScript number, because better-sqlite3 returns INTEGER
  columns as numbers. `LimitIsKeptExactly` says for every pair of limits whether the daily one is kept in every run: it
  is up to 2^53 wei, and for the limits in use, such as 0.05 ether per transaction and 0.1 a day, it is not: three
  payments pass it (`ThreePaymentsPassLimit`, `FewPaymentsPassLimit`). `ExcessIsBounded` says by how much it can be
  passed at most: half the spacing of doubles at the limit, and beyond 2^63 wei nearly the limit itself
  (`ExcessIsReached`).
- The daily total leaves out what was logged in the first second of the day, when any number of payments is admitted
  (`MidnightIsNotCounted`). `MidnightExact` says at which times of logging the whole day keeps to the limit.
- A cancelled job stays cancelled from one tick to the next (`TerminalStaysInRun`). One cancelled while another job of its
  batch runs stays so exactly when its own turn is not still to come with a handler (`CancelledMidTick`,
  `CancelledMidTickRuns`).
- A pass of the indexer loses nothing, whatever the chain holds, exactly when it is not capped and its answered chunks
  are its first ones (`CompleteForEveryChain`). A pass with no answer, and an unanswered chunk before an answered one,
  do move the checkpoint past unread blocks (`FailedPassSkipsABlock`, `GapBeforeAnswerIsSkipped`).
- An empty list in a manifest reads back as a list of one empty item, and a handful of other values do not come back
  either; `RoundTrip` names all of them.

## Model

| member | source | states |
|---|---|---|
| MerkleTree.PathIsRecompute | agentix/packages/merkle-tree/index.ts:215-236 | the digests an update computes along one path, reading siblings from the sparse map, are those of a full recomputation from the new leaves |
| MerkleTree.UpdateAgreesExactly | agentix/packages/merkle-tree/index.ts:205-236 | for any hash, the map read through its zero-hash fallback shows the recomputed tree after an update if and only if every digest on the path can be read back |
| MerkleTree.StepExact | agentix/packages/merkle-tree/index.ts:37-51 | for any hash, insert and remove always set the recomputed root, and keep the whole tree in agreement exactly when no digest on the path is an unreadable zero |
| MerkleTree.RunAgrees | agentix/packages/merkle-tree/index.ts:29-51 | after any sequence of inserts and removes that stores no unreadable digest, every node at every level equals the recomputation from the leaf map, and so does the root |
| MerkleTree.AgreesThroughoutExactly | agentix/packages/merkle-tree/index.ts:29-51 | for any hash, tree and leaves agree after every operation of a run if and only if every digest it stored can be read back |
| MerkleTree.NonZeroRunIsVisible | agentix/packages/merkle-tree/index.ts:205-208 | under a hash without a zero digest, every run is such a run |
| MerkleTree.LatestOpDecidesLeaf | agentix/packages/merkle-tree/index.ts:37-51 | the latest operation at an index decides its leaf, whatever happened elsewhere |
| MerkleTree.Completeness | agentix/packages/merkle-tree/index.ts:53-86 | the proof of an index verifies against the current root for the value last inserted there, after any run |
| MerkleTree.BindingFrom | agentix/packages/merkle-tree/index.ts:70-86 | a fold that meets the tree's digest at some level started from the leaf its directions spell, or two distinct argument pairs on the way have the same pair hash |
| MerkleTree.Binding | agentix/packages/merkle-tree/index.ts:70-86 | a full-length proof that verifies against a reachable root is about the leaf its directions spell, or a collision of the pair hash can be read off the proof and the tree |
| MerkleTree.OwnProofIsAboutIndex | agentix/packages/merkle-tree/index.ts:53-86 | a value that verifies with the proof handed out for an index has the digest of the leaf at that index, or a collision is exhibited |
| MerkleTree.HistoryIndependence | agentix/packages/merkle-tree/index.ts:37-68 | two runs that end in the same leaf map have the same root and the same proof for every index |
| MerkleTree.InsertsCommute | agentix/packages/merkle-tree/index.ts:37-43 | inserts at distinct indices give the same root in either order, after any run |
| MerkleTree.RemoveUndoesInsert | agentix/packages/merkle-tree/index.ts:37-51 | removing a freshly inserted index restores the root |
| MerkleTree.ZeroDigestBreaksHistoryIndependence | agentix/packages/merkle-tree/index.ts:205-208 | under a hypothetical hash that maps one value to zero, two insertions in the two orders leave the same leaves under different roots |
| MerkleTree.MerkleTree.constructor | agentix/packages/merkle-tree/index.ts:29-35 | a new tree is the empty one, its root the top zero hash |
| MerkleTree.MerkleTree.ComputeZeroHashes | agentix/packages/merkle-tree/index.ts:238-249 | level by level, the digests of empty subtrees |
| MerkleTree.MerkleTree.Insert | agentix/packages/merkle-tree/index.ts:37-43 | refines one step of the runs above; an index out of range changes nothing |
| MerkleTree.MerkleTree.Remove | agentix/packages/merkle-tree/index.ts:45-51 | refines one step of the runs above; an index out of range changes nothing |
| MerkleTree.MerkleTree.UpdatePath | agentix/packages/merkle-tree/index.ts:215-236 | the loop writes exactly the path's entries, with the digests computed from the map before the update |
| MerkleTree.MerkleTree.GetProof | agentix/packages/merkle-tree/index.ts:53-68 | the sibling digests and directions of the index, bottom up, or nothing for an index out of range |
| MerkleTree.MerkleTree.Verify | agentix/packages/merkle-tree/index.ts:70-86 | true exactly when folding the path over the value's digest prints as the given root; the index plays no part |
| MerkleTree.Replay | agentix/packages/merkle-tree/index.ts:29-51 | driving the class through any operations reaches the state the run lemmas speak of |
| Decimal.PrintRead | agentix/packages/merkle-tree/index.ts:88-90 | the decimal text of a number reads back as the number |
| Decimal.PrintInjective | agentix/packages/merkle-tree/index.ts:85-85 | comparing the texts of two digests compares the digests |
| Vouchers.AtMostOneAcceptance | agentix/src/core/x402-voucher.ts:271-391 | in every interleaving of calls in any number of processes, with restarts anywhere, at most one call per nonce text is accepted |
| Vouchers.OncePerBytesExactly | agentix/src/core/x402-voucher.ts:90-111 | among bytes32 nonces, at most one call per signed nonce is accepted in every run if and only if no two of the texts received denote the same bytes |
| Vouchers.OtherTextIsAccepted | agentix/src/core/x402-voucher.ts:271-305 | the failing case: one voucher under two texts of its nonce is accepted twice |
| Vouchers.NoncesArePersisted | agentix/src/core/x402-voucher.ts:90-111 | every process's in-memory set stays within the nonce table, which holds the nonce of every recorded voucher |
| Vouchers.UsedNonceIsRefused | agentix/src/core/x402-voucher.ts:271-283 | over any continuation of a run, every call begun with a nonce that was in the table is rejected, in any process and across any restart |
| Vouchers.StepKeepsInv | agentix/src/core/x402-voucher.ts:333-391 | every step of acceptance, restart and settlement keeps nonces unique and covered, acceptance single, queued vouchers pending, and the ledger balanced |
| Vouchers.RunKeepsInv | agentix/src/core/x402-voucher.ts:90-540 | the same over every run |
| Vouchers.AmountsMoved | agentix/src/core/x402-voucher.ts:473-540 | for any choice of vouchers (a payee's, a wallet's), the amount moved equals that of the settled rows, plus the executed ones still being marked, plus one more for every lost record |
| Vouchers.ExactlyOnceIffRecorded | agentix/src/core/x402-voucher.ts:473-540 | between settlements every voucher was transferred once if settled and never if pending, exactly when no batch of the run was executed but reported as failed and no process restarted while marking one |
| Vouchers.LostRecordPaysTwice | agentix/src/core/x402-voucher.ts:508-526 | any voucher whose process stops between execution and marking is executed twice by a run given here |
| Vouchers.GroupingKeepsVouchers | agentix/src/core/x402-voucher.ts:430-438 | grouping by wallet loses and repeats no voucher, so the group sizes add up to the batch |
| Vouchers.OfWalletCount | agentix/src/core/x402-voucher.ts:430-438 | a wallet's group holds every voucher of that wallet as often as the batch does, and no other |
| Vouchers.CallsPayVouchers | agentix/src/core/x402-voucher.ts:444-466 | the token calls built for a batch pay every payee exactly the total of its vouchers in the batch |
| Vouchers.ExceedingCallIsRejected | agentix/src/core/x402-voucher.ts:308-323 | in every run, a call whose session check found no authorised session, or a limit below the amount, ends rejected |
| Vouchers.SettleGroupsEntry | agentix/src/core/x402-voucher.ts:413-422 | a settlement settles the rows whose nonce is in an executed group and leaves every other row as it was |
| Vouchers.LoopRefinesMachine | agentix/src/core/x402-voucher.ts:485-527 | without interruption, the machine's settlement steps leave the rows that the settlement loop computes |
| Vouchers.VoucherModule.MarkNonceUsed | agentix/src/core/x402-voucher.ts:92-100 | the nonce enters the memory and the table |
| Vouchers.VoucherModule.IsNonceUsed | agentix/src/core/x402-voucher.ts:102-111 | the memory, kept within the table, never changes the answer and stays within the table |
| Vouchers.VoucherModule.RecordVoucher | agentix/src/core/x402-voucher.ts:376-391 | a nonce already recorded is refused, so recorded nonces stay unique |
| Vouchers.VoucherModule.MarkVouchersSettled | agentix/src/core/x402-voucher.ts:413-422 | the loop's updates by nonce, in order |
| Vouchers.VoucherModule.GroupVouchersByWallet | agentix/src/core/x402-voucher.ts:430-438 | one group per wallet in order of first appearance, each holding the wallet's vouchers in batch order |
| Vouchers.VoucherModule.BuildBatchCalldata | agentix/src/core/x402-voucher.ts:444-466 | the loop builds one zero-value token transfer per voucher, in order |
| Vouchers.VoucherModule.SettleVoucherBatch | agentix/src/core/x402-voucher.ts:473-540 | settled and failed counts add up to the batch, success means every group was executed, and the rows are those of the executed groups settled |
| AgentManifest.RoundTrip | agentix/packages/agent-manifest/index.ts:62-221 | loading what was saved gives the same manifest when the manifest is storable, and for a one-line agent name only then |
| AgentManifest.PlainReads | agentix/packages/agent-manifest/index.ts:117-221 | a manifest without line terminators, and without commas in items and times, reads back as itself up to defaults, empty lists, and numbers printed with a sign, an exponent or a word, which stay text |
| AgentManifest.LoadedIsPlain | agentix/packages/agent-manifest/index.ts:62-172 | whatever the text, a manifest that loads has no line terminator in a string and no comma in an item or a time |
| AgentManifest.ParseIsClean | agentix/packages/agent-manifest/index.ts:62-115 | whatever the text, parsed strings are one line, parsed lists are non-empty with comma-free items, and table strings are comma-free |
| AgentManifest.TextReads | agentix/packages/agent-manifest/index.ts:62-115 | sections of key and text lines, joined by newlines, parse to those sections with each text's value |
| AgentManifest.KeyValueMatches | agentix/packages/agent-manifest/index.ts:75-78 | a written `key = text` line matches with exactly that key and text |
| AgentManifest.ItemsRead | agentix/packages/agent-manifest/index.ts:86-88 | the quoted, comma-joined items of a list come back from splitting, trimming and unquoting |
| AgentManifest.ListReads | agentix/packages/agent-manifest/index.ts:86-88 | a printed list reads back as its items, an empty one as one empty item |
| AgentManifest.TimesRead | agentix/packages/agent-manifest/index.ts:91-110 | the printed inline table of times reads back as its three entries |
| AgentManifest.NumberReads | agentix/packages/agent-manifest/index.ts:78-85 | a number JavaScript prints in digits, with or without a point, reads back as that number, and any other as text |
| AgentManifest.ParseSimpleToml | agentix/packages/agent-manifest/index.ts:62-115 | the mutating line loop computes the parse the lemmas speak of |
| Text.SplitJoin | agentix/packages/agent-manifest/index.ts:65-65 | splitting joined lines gives the lines back when none contains the separator |
| Scheduler.AttemptsAreCalls | agentix/packages/scheduler/index.ts:193-272 | in every run, between ticks no job is running, attempts count the handler calls since the row was inserted, and are at most max(1, maxAttempts) |
| Scheduler.TotalCallsBounded | agentix/packages/scheduler/index.ts:193-272 | all calls of a run together stay within the sum of the limits of the jobs scheduled |
| Scheduler.QuietRunSpends | agentix/packages/scheduler/index.ts:193-272 | per job, over every run that schedules nothing, the calls it takes and those it may still take, none once it is terminal or deleted, stay within those it could take at first |
| Scheduler.QuietRunEnds | agentix/packages/scheduler/index.ts:193-272 | over every such run, each handler call lowers the sum of all remaining attempts by at least one, so there are no more calls than that sum |
| Scheduler.BackoffGrows | agentix/packages/scheduler/index.ts:238-262 | with the default backoff, a job pending after k failed attempts is due at least 2^k - 1 seconds after its first due time, over every run |
| Scheduler.TerminalStays | agentix/packages/scheduler/index.ts:193-272 | a row that is completed, failed or cancelled between ticks never changes until it is deleted, which needs it to be a day old |
| Scheduler.TerminalStaysInRun | agentix/packages/scheduler/index.ts:193-272 | over every run, a row found terminal between two events is the same at the end unless it was deleted |
| Scheduler.CancelledMidTick | agentix/packages/scheduler/index.ts:200-264 | for every batch, a pending job cancelled during some handler call and not later in the tick ends it cancelled, or cleaned up, if and only if its own turn does not still come with a handler |
| Scheduler.CancelledMidTickRuns | agentix/packages/scheduler/index.ts:200-264 | the failing case: a job cancelled while an earlier job of its batch runs is called anyway and is pending again when the call fails |
| Scheduler.BoundedWait | agentix/packages/scheduler/index.ts:193-264 | a pending job with a others due no later is called within a/10 + 1 ticks past its due time, ties in any order, with handlers, non-negative backoff and no earlier newcomer |
| Scheduler.UnhandledBatchIsStuck | agentix/packages/scheduler/index.ts:217-218 | a batch of jobs without handlers leaves everything as it was, so it can fill every tick |
| Scheduler.StepKeepsInv | agentix/packages/scheduler/index.ts:58-272 | scheduling, cancelling and ticks, with other code acting during every handler call, keep the invariant of every row |
| Scheduler.SchedulerService.ScheduleJob | agentix/packages/scheduler/index.ts:50-79 | inserts the pending row with its defaults and refuses an identifier that has a row |
| Scheduler.SchedulerService.CancelJob | agentix/packages/scheduler/index.ts:103-107 | cancels a pending job and no other |
| Scheduler.SchedulerService.ProcessJobs | agentix/packages/scheduler/index.ts:193-272 | the loop over the selected rows and the deletion after it refine one tick of the runs above |
| Tar.ScanFindsFirst | agentix/src/core/native-sqlite.ts:174-190 | of every archive of ustar entries the scan stops and returns exactly the body of the first entry whose name ends in the addon's, or nothing |
| Tar.HeaderReads | agentix/src/core/native-sqlite.ts:177-182 | a written header's name and size fields read back as the name and the body's length |
| Tar.SizeFieldReads | agentix/src/core/native-sqlite.ts:181-182 | eleven octal digits ended by a NUL or a space read as the number they print |
| Tar.EntryReads | agentix/src/core/native-sqlite.ts:176-187 | at a written entry, the scan returns its body if the name matches, and else goes on exactly at the next entry |
| Tar.ExtractNode | agentix/src/core/native-sqlite.ts:174-190 | on every archive on which it ends, with offsets and slices that may count from the end, the offset loop computes the scan |
| Tar.SizesMoveForward | agentix/src/core/native-sqlite.ts:182-187 | the loop ends on every archive whose size fields are all above -512 |
| Tar.NegativeSizeStalls | agentix/src/core/native-sqlite.ts:182-187 | at any header with a size above -1024 and up to -512 and another name, the loop never ends |
| Tar.ScanEndsExactly | agentix/src/core/native-sqlite.ts:174-190 | on every archive the loop ends if and only if it meets no offset twice |
| RateLimiter.EvictionIsInvisible | agentix/src/runtime/server.ts:50-66 | under a clock that never goes back, all answers equal those of a limiter that never evicts |
| RateLimiter.AnyMinuteAdmits239 | agentix/src/runtime/server.ts:46-59 | any closed interval of 60,000 ms admits at most 239 requests of an address, in every run with cleanups and other addresses |
| RateLimiter.MinuteAdmits239 | agentix/src/runtime/server.ts:43-59 | 239 is attained, for every address, so the documented 120 a minute is not kept |
| RateLimiter.MinuteKeeps120Exactly | agentix/src/runtime/server.ts:46-59 | for every run, an interval admits at most 120 if and only if, where a window opens inside it, what it admitted before and the first 120 requests from then on add up to no more |
| RateLimiter.QuietMinuteKeeps120 | agentix/src/runtime/server.ts:46-59 | an interval inside which no window opens after a request it admitted keeps to 120 |
| RateLimiter.TwoWindows | agentix/src/runtime/server.ts:46-59 | where a window opens inside an interval, the exact number it admits |
| RateLimiter.AlignedMinuteKeeps120 | agentix/src/runtime/server.ts:50-59 | an interval that begins when a window opens admits exactly its first 120 requests |
| RateLimiter.Limiter.CheckRateLimit | agentix/src/runtime/server.ts:50-59 | refines one request of the runs above |
| RateLimiter.Limiter.Cleanup | agentix/src/runtime/server.ts:61-66 | the deleting loop removes exactly the windows that started more than 120,000 ms ago |
| EventIndexer.CheckpointIsComplete | agentix/src/core/event-indexer.ts:77-272 | over runs whose passes are uncapped and answered for a non-empty prefix of their chunks, a checkpoint of B means one row for each wanted, decodable log in (GENESIS_BLOCK, B], and no other rows |
| EventIndexer.CompleteForEveryChain | agentix/src/core/event-indexer.ts:134-252 | a pass leaves the store complete up to its new checkpoint, whatever the chain holds, if and only if there is nothing to look for or scan, or it is uncapped and answered for a non-empty prefix of its chunks |
| EventIndexer.LastAnsweredExact | agentix/src/core/event-indexer.ts:147-221 | the last block of a scan is the greatest block of an answered chunk, however answers and failures alternate, or the given one when none is answered |
| EventIndexer.PassExact | agentix/src/core/event-indexer.ts:134-222 | on a given chain, after a pass the store is complete up to the new checkpoint, known from the answers, if and only if no unstored log lies below it in an unanswered chunk or under the cap |
| EventIndexer.IndexExact | agentix/src/core/event-indexer.ts:147-221 | the chunk loop stores exactly the wanted, decodable logs of the answered chunks and keeps every other row |
| EventIndexer.ChunkLogsExact | agentix/src/core/event-indexer.ts:151-198 | a chunk answered whole and a chunk answered by its halves give the same logs |
| EventIndexer.StoreLogsExact | agentix/src/core/event-indexer.ts:95-132 | storing logs under the unique key adds exactly the decodable ones that were missing and keeps the store sound |
| EventIndexer.FailedPassSkipsABlock | agentix/src/core/event-indexer.ts:241-252 | a pass with no answered chunk moves the checkpoint past one block it never read |
| EventIndexer.GapBeforeAnswerIsSkipped | agentix/src/core/event-indexer.ts:190-221 | an unanswered chunk before an answered one: the checkpoint moves past its logs |
| EventIndexer.Indexer.IndexContract | agentix/src/core/event-indexer.ts:134-222 | the chunk loop refines the pass the lemmas speak of |
| EventIndexer.Indexer.RunIndexer | agentix/src/core/event-indexer.ts:229-272 | the loop over the contracts refines one round |
| SpendingPolicy.EncodedIsChecked | agentix/src/core/action-encoder.ts:45-65 | the value encoded for an admitted intent is the value that was checked, for any text, and is at most the per-transaction limit |
| SpendingPolicy.DailyLimitHolds | agentix/src/core/owner-policy.ts:235-267 | in every sequential run under limits that meet the condition, as every daily limit up to 2^53 does, successful values logged after the current day's start never add up to more than the daily limit |
| SpendingRuns.LimitIsKeptExactly | agentix/src/core/owner-policy.ts:208-267 | for every policy that lets wallet_execute reach some address, the daily limit is kept in every sequential run if and only if its two limits meet a condition on the numbers alone |
| SpendingRuns.FewPaymentsPassLimit | agentix/src/core/owner-policy.ts:208-267 | for every daily limit above 2^53 and within 64 bits, once a transaction may move twice the spacing of doubles there, at most 2 * daily / perTx + 2 payments, made at any times of a day after its first second, pass it |
| SpendingRuns.ThreePaymentsPassLimit | agentix/src/core/owner-policy.ts:208-267 | with 0.05 ether per transaction and 0.1 a day, three such payments do |
| SpendingRuns.PaidInFull | agentix/src/compiler-gateway.ts:95-195 | values that fit both limits one after another are all admitted, sent and logged, in any slots of a day after its first second |
| SpendingPolicy.ExcessIsBounded | agentix/src/core/owner-policy.ts:235-267 | for every policy, no sequential run passes the daily limit by more than half the spacing of doubles there or, beyond 2^63, by more than what exceeds 2^63 |
| SpendingRuns.ExcessIsReached | agentix/src/core/owner-policy.ts:235-267 | beyond 2^63 that much is reached, by two transactions of which the sum sees the first as 2^63 - 1 |
| SpendingLimits.OrdinaryLimitIsNotKept | agentix/src/core/owner-policy.ts:208-267 | the condition fails for every such pair of limits |
| SpendingLimits.PassingValues | agentix/src/core/owner-policy.ts:208-250 | for every pair of limits that fails the condition, values that are all admitted one after another and add up to more than the daily limit |
| SpendingLimits.AdmittedFits | agentix/src/core/owner-policy.ts:208-250 | an admitted value keeps what is spent within the daily limit where the condition holds, and within the excess everywhere |
| SpendingRuns.MidnightIsNotCounted | agentix/src/core/owner-policy.ts:239-246 | in the first second of a day any sequence of payments, each within the limits, is admitted |
| SpendingRuns.WholeDayIsBounded | agentix/src/core/owner-policy.ts:239-250 | in every sequential run, a whole day's sum is within the bound for the rest of the day plus what was logged in its first second |
| SpendingRuns.MidnightExact | agentix/src/core/owner-policy.ts:239-250 | for every policy that lets wallet_execute reach some address, the whole day keeps to the limit in every run logged at given times if and only if nothing can be spent, or there is no such time, or the limits meet the condition and none of the times is the first second of a day |
| SpendingPolicy.SmallTotalIsExact | agentix/src/core/owner-policy.ts:241-247 | up to 2^53 the total read through SQL and a JavaScript number is the exact one |
| SpendingPolicy.SqlTotalShows | agentix/src/core/owner-policy.ts:241-247 | a total SQL can add up is the exact sum, or 2^63 - 1 for a single larger value |
| Doubles.ToNumberGrows | agentix/src/core/owner-policy.ts:247-247 | rounding to doubles keeps the order |
| Doubles.LossIsBounded | agentix/src/core/owner-policy.ts:247-247 | it takes off at most half the spacing at any bound of its result |
| Doubles.LastIsNear | agentix/src/core/owner-policy.ts:247-247 | within twice the spacing below any number beyond 2^53 there is one that it makes smaller |
| Doubles.MultiplesAreDoubles | agentix/src/core/owner-policy.ts:247-247 | up to any number, the multiples of the spacing there are read as they are |
| SpendingPolicy.Gateway.ExecuteIntent | agentix/src/compiler-gateway.ts:95-195 | check, execution and log in that order: execute sends a value only for an admitted intent of the form wallet_execute asks for, with a target, and the value is the checked one and within the per-transaction limit |
| SpendingPolicy.Gateway.EncodeExecute | agentix/src/core/action-encoder.ts:36-55 | without a target nothing is encoded, and else the value as toWei reads it |
| SpendingPolicy.Gateway.LogAction | agentix/src/compiler-gateway.ts:303-340 | the log keeps the value's text, zero for an absent one |
| BundlerQueue.AtMostOnce | agentix/src/runtime/bundler-service.ts:214-251 | over every run of queueing, flushes and crashes between any two steps, each row is passed to submitUserOp at most once |
| BundlerQueue.CrashedRowIsStuck | agentix/src/runtime/bundler-service.ts:113-149 | a row left as submitted by a crash is never passed on again and never changes |
| BundlerQueue.FlushDecides | agentix/src/runtime/bundler-service.ts:214-251 | a flush from its query to its end, with ops queued at any await and no crash, passes each row it read on once, in order, and leaves it completed or failed with its own outcome |
| BundlerQueue.FlushLeavesOnlyQueued | agentix/src/runtime/bundler-service.ts:214-251 | after it the pending rows are exactly those queued meanwhile, and any other row is as it was |
| BundlerQueue.FlushSetsOwn | agentix/src/runtime/bundler-service.ts:228-247 | from any point of a flush, every op it has still to decide ends with its own outcome |
| BundlerQueue.LoopRefinesMachine | agentix/src/runtime/bundler-service.ts:228-247 | the machine's flush steps, with the same ops queued while each submission is awaited, leave the table and submissions of the flush loop |
| BundlerQueue.LoopEndsFlush | agentix/src/runtime/bundler-service.ts:214-251 | so the loop is such a flush, and what one decides holds of the loop's table |
| BundlerQueue.BundlerService.QueueUserOp | agentix/src/runtime/bundler-service.ts:78-111 | adds a pending row, and refuses an identifier that has one |
| BundlerQueue.BundlerService.UpdateOpStatus | agentix/src/runtime/bundler-service.ts:123-149 | changes the status of one row and nothing else |
| BundlerQueue.BundlerService.FlushPendingOps | agentix/src/runtime/bundler-service.ts:214-251 | submitted and failed add up to the rows read, results come in queue order with their own outcomes, each row is passed on once, and ops queued at the awaits enter the table |

## Left out

- Merkle snapshot, restore, export, import, getLeaf and verifyConsistency: a snapshot holds digests that restoring hashes again, and the consistency check compares the root with itself.
- MerkleTree.MerkleTree.Insert: does not model fractional indices, which pass the range check; indices are integers, a value is its JSON text, and a node's key is its level and index as a pair.
- Concrete hashing, signature recovery and ABI encoding: digests are a parameter and signature checks an arbitrary truth value.
- Vouchers: amounts are numbers rather than their texts, malformed ones being refused before acceptance; overlapping settlements are excluded, as the code has no guard against them; a reported success is taken to mean that the batch was executed.
- A cumulative daily limit for vouchers: the used amount the code compares is always zero, so only a bound per voucher holds.
- Expired vouchers: they stay pending, since only unexpired ones are selected for settlement.
- AgentManifest.RoundTrip: a number is what JavaScript prints of it, negative zero being printed as zero; a key named `__proto__` is treated like any other.
- The manifest's file system, its defaults for a missing file, and validateAgentManifest.
- Scheduler: recurring jobs, which are kept in memory and call handlers without rows; events emitted on completion; overlapping ticks, which nothing prevents. Backoff is computed without floating-point rounding.
- Tar.ExtractNode: bytes that decode to white space other than ASCII before a size's digits are not skipped. Archives on which the loop never ends have no result to state.
- The limiter's HTTP responses, and every other part of the server.
- EventIndexer: event arguments and timestamps, storage errors, reindexFromBlock, the periodic timer and the guard against concurrent runs; a getLogs answer is taken to be exact for its block range.
- SpendingPolicy: the policy is fixed during a run and its signature is not modelled; values are texts; amounts and batches are not limited by the code; what the compiler takes an action for is a parameter of the intent, other parameters than target, recipient, delegatee and value and the cache of compiled plans are not modelled, and logging is taken to succeed.
- SpendingPolicy.Gateway.LogAction: does not model the wallet a row is filed under, the plan's agent wallet before that of the parameters; the intents of a run and their rows are taken to be of one wallet.
- Concurrent gateway calls: the check and the log are not atomic in the code, so the limit is stated for sequential runs.
- BundlerQueue: overlapping flushes, which nothing prevents, and what submitUserOp does on the chain.
- SQL text, timers, RPC fallback, the compiler pipeline, the risk engine, the contracts, SDK wrappers, the CLI and the dashboard.
