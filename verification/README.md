# FlexPS in Dafny

FlexPS is a parameter server: workers read and update a key-value store that is spread over servers, and
consistency controllers decide how stale what a worker reads may be. This project models its protocols and
the sequential code they consist of, and proves what they guarantee over all runs. `dafny verify
dfyconfig.toml` checks everything.

Code that changes objects step by step is a class whose methods are proved against specification functions;
protocols are step relations over such functions, and the theorems are invariants and statements about
whole runs of these. A CHECK is a result (`ok`, `None`) unless it is proved never to fail.

- **Cluster barrier.** `AbstractBarrier` says what a barrier is. `VersionedBarrier` (comm2, messages tagged
  with a version, two counters) and `CounterBarrier` (comm, one counter) are both proved to refine it, with
  sends interleaved one destination at a time and messages delivered in any order, and to release everybody once
  all have entered.
- **Superstep exchange.** `Superstep` runs the local generation barrier, the versioned barrier and
  push/sync/drain over first-in-first-out links, from before the Channels are built; `SuperstepMessages` and
  `SuperstepRuns` prove that `SyncAndGet()` returns exactly its round's messages, `SuperstepRelease` that
  threads that all wait are all released.
- **Consistency controllers.** `ProgressTracker`, `PendingBuffer`, `SspModel` and `BspModel` are one server;
  `SspCluster` and `BspCluster` put any number of workers and servers together over the links of
  `WorkerLinks`. Every Add and Get carries its worker, clock and number, so that the theorems can say what a
  reply contains. `IssuedAdds` relates the slices servers see to the Adds workers issue, for the theorems about
  what a worker's Get returns; `ClientSlices` shows that the slices, and the values put together from the
  replies, are those of the range partition and its client.
- **Keys and values.** `RangeSlicing`, `KvTable` and `Sharding`: slicing, replies in any order, putting them
  together, and shards against one map.
- **Input.** `LineInput` reads lines out of blocks, `LineOwnership` says whose line is whose, `BlockAssigner`
  hands out the blocks, `InputReading` puts these together: every line of a directory is read once.
- **Work stealing.** `RapidReassignment` is the code of one worker, `WorkStealing` the protocol.
- **Smaller parts.** `ResponseCounting` (waiting for replies), `SparsePipeline` (Gets sent ahead),
  `BinStream` (serialization). `Counting`, `Requests` and `Basics` are shared.

## What does not hold

Each of these is proved, with the exact condition under which the code does what it should.

- **Work stealing.** The handler of SendHelp compares only the ends of two intervals. A help that arrives
  after its victim has stolen back up to the same end is accepted, and work is then done twice and indices
  nobody handed out are worked on (`WorkStealing.LateHelpAccepted`); a worker that waits can get something
  to do that way, which its own confirmation then overwrites (`WorkStealing.LateHelpOverwritten`). The work is
  conserved in all states of a run if and only if every accepted help finds its victim at the start it was
  computed from (`WorkStealing.ConservedExactlyWhenTimely`).
- **Lines.** A later block without a newline makes its reader return a part of a line as a record of its own;
  with no single-byte block but a later block's newline, the records are the lines if and only if there is no
  such block (`LineOwnership.EachLineOnceExactlyWhen`). What becomes of a block of a single byte depends on which blocks
  its reader had before (`LineOwnership.SingleByteDependsOnHistory`).
- **Exchange.** With a node that has no threads no thread ever returns from a wait
  (`SuperstepRelease.EmptyNodeBlocks`); otherwise all do (`SuperstepRelease.EveryMaximalRunReturns`).
- **Sparse client.** With speculation zero, which its own check allows, every Get after the first reads
  `num_reqs_` behind its end (`SparsePipeline.SparseKVClientTable.GetUpToWait`, reached by
  `SparsePipeline.SecondGetOutOfBounds`).
- **Uncovered keys.** `HandleFinish` fails its checks if and only if some key is outside all ranges
  (`KvTable.ChecksHoldExactlyWhenCovered`), unless no key is inside one: then the Get returns with the
  caller's values untouched.
- **Bulk-synchronous controller.** Nothing makes a worker wait for servers its Gets do not reach, so it can
  get ahead of one and fail a CHECK there (`BspCluster.SecondClockFails`): on every run, a CHECK fails if and
  only if a server takes an Add or a Clock of a worker that is ahead of the server's minimum
  (`BspCluster.CheckFailsExactlyWhenAhead`). `BspCluster.ExactSnapshot` and `BspCluster.GetIsSnapshot`
  therefore speak of runs without a failed CHECK, and `BspCluster.NoCheckFails` gives a discipline of the workers under which there is none.

## Model

| member | source | states |
|---|---|---|
| AbstractBarrier.NextInv | comm2/mailbox.cpp:274-290 | in the barrier both versions refine, every step keeps: whoever has left round v finds every node entered in round v |
| AbstractBarrier.RoundsClose | comm2/mailbox.cpp:274-290 | two nodes' rounds differ by at most one, and a node one behind is inside its barrier |
| VersionedBarrier.Mailbox.ReceiveBarrier | comm2/mailbox.cpp:142-154 | the counters after a barrier message are those of the protocol's step; it reports failure exactly when a CHECK would fail |
| VersionedBarrier.Mailbox.SendBarriers | comm2/mailbox.cpp:274-283 | one message to every node in order, the k-th to node k, all with the node's progress |
| VersionedBarrier.LoopIsSends | comm2/mailbox.cpp:274-283 | the sending loop is as many Send steps of the protocol: they put the messages of the loop on their links, and change nothing else |
| VersionedBarrier.LoopCanSend | comm2/mailbox.cpp:274-283 | a node that has entered its barrier can take all of them |
| VersionedBarrier.Mailbox.LeaveBarrier | comm2/mailbox.cpp:284-290 | next_count_ becomes this_count_, next_count_ is zero, progress_ goes up by one |
| VersionedBarrier.NextInv | comm2/mailbox.cpp:142-154 | every send to one destination, delivery in any order, entry and exit keeps the global invariant |
| VersionedBarrier.LeftOnlyAfterAllEntered | comm2/mailbox.cpp:284-290 | a node that has left barrier v proves that every node has entered it |
| VersionedBarrier.InFlightVersion | comm2/mailbox.cpp:144-154 | a message in flight carries its receiver's progress or the number after it |
| VersionedBarrier.NoCheckFails | comm2/mailbox.cpp:144-154 | no CHECK of the receiving thread can fail, whatever message arrives next |
| VersionedBarrier.CounterBounds | comm2/mailbox.cpp:144-154 | this_count_ never exceeds n and next_count_ stays below n |
| VersionedBarrier.Refines | comm2/mailbox.cpp:274-290 | every step is a step of the abstract barrier or leaves it alone |
| VersionedBarrier.SafeOnEveryRun | comm2/mailbox.cpp:142-154 | over every run: barrier safety, progress differing by at most one, counter bounds, and no arriving message failing a CHECK |
| VersionedBarrier.QuiescentMeansReleased | comm2/mailbox.cpp:285-290 | once all nodes have entered barrier v, a state in which nothing more can happen has released all of them |
| VersionedBarrier.WorkDecreases | comm2/mailbox.cpp:274-290 | every send, delivery and exit takes exactly one off a measure |
| VersionedBarrier.EveryMaximalRunReleases | comm2/mailbox.cpp:274-290 | once all nodes have entered barrier v, every run without new entries is bounded by the measure, and one that cannot go on has released everybody |
| CounterBarrier.Mailbox.ReceiveBarrier | comm/mailbox.cpp:139-146 | barrier_count_ goes up by one, and the waiting thread is notified exactly at n |
| CounterBarrier.Mailbox.LeaveBarrier | comm/mailbox.cpp:274-278 | n is taken off barrier_count_ |
| CounterBarrier.NextInv | comm/mailbox.cpp:266-278 | every step keeps the balance of messages received, counted and used up by exits |
| CounterBarrier.EnoughMeansEverybody | comm/mailbox.cpp:276-277 | with n messages counted, every node has entered more barriers than this one has left |
| CounterBarrier.CountBelowTwoN | comm/mailbox.cpp:276-277 | barrier_count_ stays below 2n |
| CounterBarrier.Refines | comm/mailbox.cpp:266-278 | the counter-only barrier refines the same abstract barrier |
| CounterBarrier.SafeOnEveryRun | comm/mailbox.cpp:266-278 | over every run no node leaves its k-th barrier before all have entered theirs, and the counter stays below 2n |
| CounterBarrier.QuiescentMeansReleased | comm/mailbox.cpp:276-277 | once all nodes have entered barrier v, a state in which nothing more can happen has released all of them |
| CounterBarrier.WorkDecreases | comm/mailbox.cpp:266-278 | every send, delivery and exit takes exactly one off a measure |
| CounterBarrier.EveryMaximalRunReleases | comm/mailbox.cpp:266-278 | once all nodes have entered barrier v, every run on without new entries is bounded by the measure, and one that cannot go on has released everybody |
| Superstep.Channel.Arrive | comm2/channel.cpp:60-70 | Wait() up to where it blocks is the protocol's step; the caller is last exactly when the count was one |
| Superstep.Channel.Release | comm2/channel.cpp:66-67 | after the cluster barrier the last thread gives up the lock and changes nothing else |
| Superstep.LocalChannel.Drain | comm2/local_channel.cpp:15-24 | the draining loop returns the whole queue in order and leaves it empty |
| Superstep.PushRound | comm2/channel.cpp:48-58 | what a thread pushes is of exactly the round every thread expects next |
| Superstep.NothingOnTheWay | comm2/local_channel.cpp:13-24 | while a thread drains, nothing for it is on any link |
| SuperstepRuns.CountPositive | comm2/channel.cpp:60-66 | the generation barrier's counter never underflows |
| SuperstepRuns.NextInv | comm2/channel.cpp:60-73 | every step keeps the invariant, and is a step of the versioned barrier or does not concern it |
| SuperstepRuns.SuperstepExact | comm2/local_channel.cpp:13-27 | over every run from before the Channels are built, the r-th SyncAndGet() returns exactly the multiset pushed to the thread in its round, then and for ever |
| SuperstepRuns.QueueRegistered | comm2/channel.cpp:15-17 | data is only ever in flight to a node that has registered its queues: it is in its constructor's barrier, or past it |
| SuperstepRuns.NothingFails | comm2/mailbox.cpp:142-158 | over every run the counter is positive for whoever arrives, no barrier message fails a CHECK, and data finds its queue registered |
| SuperstepRelease.NodeEntered | comm2/channel.cpp:60-73 | when all threads of a node have called Wait() as often, the node has entered that wait's cluster barrier |
| SuperstepRelease.WorkDecreases | comm2/channel.cpp:60-73 | every delivery, send, exit from the barrier and return from Wait() takes something off a measure |
| SuperstepRelease.EveryMaximalRunReturns | comm2/channel.cpp:60-73 | once every thread of every node has called Wait() for the same time, every run of such steps is bounded by the measure, and one that cannot go on has returned every thread; every node must have threads |
| SuperstepRelease.EmptyNodeBlocks | comm2/channel.cpp:60-66 | with a node that has no threads, no thread anywhere ever returns from Wait() |
| ProgressTracker.ProgressTracker.Init | server/progress_tracker.cpp:7-13 | all given workers at clock zero, minimum zero |
| ProgressTracker.ProgressTracker.IsUniqueMin | server/progress_tracker.cpp:37-51 | true exactly when the worker, and no other, is at the minimum clock |
| ProgressTracker.ProgressTracker.AdvanceAndGetChangedMinClock | server/progress_tracker.cpp:15-25 | the new clocks and the reported minimum are those of Advance |
| ProgressTracker.AdvanceMin | server/progress_tracker.cpp:15-25 | min_clock_ stays the least progress, moves by at most one, and is reported exactly when it moves |
| ProgressTracker.CountDecides | server/progress_tracker.cpp:43-49 | stopping at the second minimum decides uniqueness |
| PendingBuffer.PendingBuffer.PopAt | server/pending_buffer.cpp:5-12 | returns what is filed under the clock and removes it |
| PendingBuffer.PendingBuffer.PushAt | server/pending_buffer.cpp:14-17 | files the request last under its clock; that this answers in order is AnsweredInOrder of SspCluster |
| SspModel.SspController.HandleClock | server/ssp_model.cpp:12-21 | the controller's state is that of the specification's Clock |
| SspModel.SspController.HandleAdd | server/ssp_model.cpp:23-26 | the store gets the Add at once |
| SspModel.SspController.HandleGet | server/ssp_model.cpp:28-37 | a Get more than the staleness ahead is filed, any other answered |
| SspModel.NextInv | server/ssp_model.cpp:12-37 | every message keeps: each buffered Get sits under a key above min_clock_, each reply reflects the Adds handled before it, each Get is buffered or answered once |
| WorkerLinks.NextInv | worker/kv_table_box.hpp:78-110 | each link carries a worker's messages in the order issued, labelled with its clock and a growing number |
| IssuedAdds.NextInv | worker/kv_table_box.hpp:78-96 | every step keeps: the Adds on a link are exactly the non-empty slices for its server of the Adds its worker has issued |
| IssuedAdds.SameTotal | worker/simple_range_manager.hpp:27-47 | slices of Adds, each once and in any order, add to a key of their server what the whole Adds add to it |
| WorkerLinks.HeadLabel | server/ssp_model.cpp:28-31 | the next message on a link was issued at the clock the server has recorded for its worker |
| WorkerLinks.UnhandledIsLater | worker/kv_table_box.hpp:98-110 | an Add still on its link has at least the clock the server has recorded, and a later number than what was handled |
| SspCluster.NextInv | server/ssp_model.cpp:12-37 | every step of workers and servers keeps the cluster's invariant |
| SspCluster.TakeEnabled | server/ssp_model.cpp:28-30 | a server can handle whatever message is next on a link; no CHECK stops it |
| SspCluster.AnsweredAtTheFirstMoment | server/ssp_model.cpp:12-37 | in every state of every run a Get a server has handled was handled once, and has been answered once if the server's minimum has reached its clock minus the staleness, and not at all before |
| SspCluster.AnsweredInOrder | server/pending_buffer.cpp:14-17 | in every state of every run the Gets of one clock that a server has handled have been answered in the order in which they came, those released together included, or none of them has |
| SspCluster.SlowestNotBlocked | server/ssp_model.cpp:28-37 | in every run the Get of a worker no other is behind, as far as the server has recorded, is answered at once |
| SspCluster.NothingPendingWhenEqual | server/ssp_model.cpp:28-37 | in every state of every run nothing is pending at a server that has recorded equal clocks |
| SspCluster.BoundedStaleness | server/ssp_model.cpp:12-37 | over every run each reply of a server holds the initial value plus slices of issued Adds, each once, among them every slice of an Add of any worker at a clock below the Get's minus the staleness and of all earlier Adds of its own worker |
| SspCluster.FinishEnabled | worker/kv_client_table.hpp:83-98 | a Get all of whose slices have been answered can return |
| SspCluster.ReturnsAtRestExactlyWhen | server/ssp_model.cpp:12-37 | in every run, when the servers have handled all that was sent, a worker that waits in a Get can return if and only if the Get reaches no server or no worker is more than the staleness behind |
| SspCluster.GetIsBoundedlyStale | server/ssp_model.cpp:12-37 | when a Get returns, in any run, the value of each of its keys is the initial value plus what whole issued Adds add to it, each once, among them every Add of any worker at a clock below the Get's minus the staleness and all earlier Adds of its own worker |
| SspCluster.ClocksStayClose | server/ssp_model.cpp:28-37 | if every iteration completes a non-empty Get, two workers' clocks never differ by more than the staleness plus one |
| ClientSlices.SlicesAreOwnedKeys | worker/simple_range_manager.hpp:27-47 | the slices the cluster theorems speak of are those of the range partition, server by server |
| ClientSlices.AssembledIsGathered | worker/kv_table_box.hpp:117-142 | what HandleFinish puts together from replies in any order is what a Get returns in the cluster theorems |
| BspModel.BspController.HandleClock | server/bsp_model.cpp:12-29 | applies and clears both buffers when the minimum moves; reports a failed CHECK exactly when one fails |
| BspModel.BspController.HandleAdd | server/bsp_model.cpp:31-39 | an Add at the minimum clock is buffered, any other fails the CHECK |
| BspModel.BspController.HandleGet | server/bsp_model.cpp:41-51 | a Get one ahead is buffered, one at the minimum answered, any other fails the CHECK |
| BspModel.NextInv | server/bsp_model.cpp:12-51 | every message keeps: the store holds exactly the Adds below the minimum, the buffers those at it and the Gets one ahead |
| BspCluster.NextInv | server/bsp_model.cpp:12-51 | every step of workers and servers keeps the cluster's invariant |
| BspCluster.EmptyAfterAdvance | server/bsp_model.cpp:16-28 | in every run both buffers are empty, and every Get so far answered once, right after a server's minimum moves |
| BspCluster.AnsweredInOrder | server/bsp_model.cpp:22-27 | in every state of every run the Gets of one clock that a server has handled have been answered in the order in which they came, or none of them has |
| BspCluster.ExactSnapshot | server/bsp_model.cpp:12-51 | over every run without a failed CHECK, a server answers a Get at clock p with the initial values plus exactly the slices of Adds ever issued below p, each once, and none at p or later |
| BspCluster.FinishEnabled | worker/kv_client_table.hpp:83-98 | a Get all of whose slices have been answered can return |
| BspCluster.ReturnsAtRestExactlyWhen | server/bsp_model.cpp:12-51 | in every run without a failed CHECK, when the servers have handled all that was sent, a worker that waits in a Get can return if and only if the Get reaches no server or no worker is behind |
| BspCluster.GetIsSnapshot | server/bsp_model.cpp:12-51 | when a Get returns, in any run without a failed CHECK, the value of each of its keys is the initial value plus what exactly the whole Adds add to it that any worker issued at clocks below the Get's |
| BspCluster.CheckFailsExactlyWhenAhead | server/bsp_model.cpp:12-51 | in every reachable state a server fails a CHECK on a worker's next message if and only if that is an Add or a Clock and the worker is ahead of the server's minimum |
| BspCluster.SecondClockFails | server/bsp_model.cpp:12-15 | a run in which a worker's second Clock, with no Get between, fails the CHECK |
| BspCluster.NoCheckFails | server/bsp_model.cpp:12-51 | when every iteration after the first begins with a Get that has keys on every server, no CHECK fails on any run |
| LineInput.Splitter.FetchBlock | io/lineinput.hpp:121-129 | the next block of the reader, or nothing when there is none |
| LineInput.Splitter.FetchNext | io/lineinput.hpp:102-119 | some of the bytes that follow, nothing exactly at the end of the file |
| LineInput.LineInputFormat.FindNext | io/lineinput.hpp:93-100 | the position of the first such character at or after the start, or npos |
| LineInput.LineInputFormat.FetchNewBlock | io/lineinput.hpp:121-129 | a whole block in the buffer and both cursors at zero, or failure exactly when there is no block |
| LineInput.LineInputFormat.HandleNextBlock | io/lineinput.hpp:102-119 | last_part_ gets the rest of the line, up to its newline or the end of the file, over any number of fetches |
| LineInput.LineInputFormat.Next | io/lineinput.hpp:41-89 | returns the records of the specification one by one, in order, and fails exactly when none is left |
| LineInput.InBlock | io/lineinput.hpp:93-100 | searching a block's bytes for a newline finds what searching the file would |
| LineOwnership.ReadableBlock | io/lineinput.hpp:41-89 | a first block of two bytes, or a later one with a newline, yields its own non-empty lines and no others |
| LineOwnership.UnreadableBlock | io/lineinput.hpp:72-75 | a later block of two bytes or more without a newline yields one non-empty record that is no line of its own |
| LineOwnership.BlocksOwnAllLines | io/lineinput.hpp:41-119 | the lines the blocks of a file own, one block after the other, are the file's non-empty lines |
| LineOwnership.EachLineOnce | io/lineinput.hpp:41-119 | however the blocks are spread over readers and ordered, the non-empty records of all readers are the files' non-empty lines, each once |
| LineOwnership.EachLineOnceExactlyWhen | io/lineinput.hpp:41-119 | with no single-byte block but ones that are a later block's newline, that holds if and only if every later block contains a newline |
| LineOwnership.SingleByteDependsOnHistory | io/lineinput.hpp:47-63 | two files, one of a single byte: one reader returns both lines, two readers lose one |
| BlockAssigner.HDFSBlockAssigner.Browse | io/hdfs_assigner.cpp:105-132 | a block is listed under a host exactly when it is a block of a listed file with a replica there |
| BlockAssigner.HDFSBlockAssigner.SelectHost | io/hdfs_assigner.cpp:170-180 | finds a host with a block exactly when there is one |
| BlockAssigner.HDFSBlockAssigner.RemoveReplicas | io/hdfs_assigner.cpp:198-206 | the block is gone from every host, and nothing else is |
| BlockAssigner.HDFSBlockAssigner.Refuse | io/hdfs_assigner.cpp:182-190 | a refusal is counted, and the URL reset exactly at the number of live workers |
| BlockAssigner.HDFSBlockAssigner.Answer | io/hdfs_assigner.cpp:134-209 | one request is one step of the state machine, with the number of live workers the request announces |
| BlockAssigner.NextInv | io/hdfs_assigner.cpp:134-209 | every request keeps: what is left on each host is what was listed there without what was handed out, and nothing was handed out twice |
| BlockAssigner.LocalFirst | io/hdfs_assigner.cpp:164-168 | a host with a block left of its own gets one of its own |
| BlockAssigner.LeftAndHandedPartition | io/hdfs_assigner.cpp:134-209 | over every run, until the reset, listed blocks are partitioned into left and handed out |
| BlockAssigner.NoBlockTwice | io/hdfs_assigner.cpp:198-206 | over every run, until the reset, no two answers for a URL are the same block, through whatever replica |
| BlockAssigner.EmptyExactlyWhenAllHanded | io/hdfs_assigner.cpp:134-191 | an answer is empty if and only if every listed block has been handed out and none is left on any host; the first for a URL, if and only if the directory holds no replica of any block |
| BlockAssigner.ResetExactlyWhen | io/hdfs_assigner.cpp:182-190 | over every run, a listed URL goes with a request if and only if that asks for it, gets nothing, and the empty answers for it since its listing, this one included, are as many as the workers the request says are alive |
| BlockAssigner.ListedAgain | io/hdfs_assigner.cpp:138-150 | the next request for it is answered from what the file system lists then: one of those blocks, of its own host's if there is one, and nothing only if there is none |
| InputReading.GivenIsListing | io/hdfs_assigner.cpp:134-209 | when a request for a URL is refused, whoever asked since it was listed, the blocks given to all readers are the blocks of the directory's files, each once |
| InputReading.EveryLineReadOnce | io/lineinput.hpp:41-119 | the non-empty records all readers return from the blocks they were given are then the non-empty lines of the directory's files, each once, if every later block contains a newline, and with no unreadable single-byte block only then |
| RapidReassignment.StealJob | examples/rapid_reassignment/steal_job_rr.hpp:19-40 | refuses exactly for a finished job or one past the threshold; else the rest of the interval is cut in two halves that meet, the victim's the larger by at most one |
| RapidReassignment.SlowestIsFirstWithMostLeft | examples/rapid_reassignment/status_checker_rr.hpp:12-25 | the slowest is the first of the jobs with most left |
| RapidReassignment.CalSlowestWorker | examples/rapid_reassignment/status_checker_rr.hpp:12-25 | the loop computes it |
| RapidReassignment.HelpGoesToTheSlowest | examples/rapid_reassignment/rapid_reassignment.cpp:133-152 | with a full box the worker asks that one for the back half of what it has left, exactly when it is not in a later iteration and has something to give; else it stops waiting |
| RapidReassignment.StatusBox.AddStatus | examples/rapid_reassignment/status_box_rr.hpp:17-17 | the status is boxed last |
| RapidReassignment.JobManager.UpdateStartPt | examples/rapid_reassignment/job_manager_rr.cpp:17-24 | the interval starts, and the position is, at the new start |
| RapidReassignment.JobManager.UpdateBatchSize | examples/rapid_reassignment/job_manager_rr.cpp:26-32 | the interval's length changes, nothing else |
| RapidReassignment.JobManager.FindHelpers | examples/rapid_reassignment/job_manager_rr.cpp:46-52 | one FindTask to every member, in order |
| RapidReassignment.JobManager.Check | examples/rapid_reassignment/job_manager_rr.cpp:41-60 | one index further; when that finishes the interval, asks every member and waits |
| RapidReassignment.GetLoop.Receive | examples/rapid_reassignment/rapid_reassignment.cpp:97-209 | for each of the five messages, the worker's new state and the messages sent are those of the protocol's step |
| WorkStealing.NextInv | examples/rapid_reassignment/rapid_reassignment.cpp:97-209 | every Check, new batch and delivery, in any order, keeps positions in range and each search in one round |
| WorkStealing.OneRoundAtATime | examples/rapid_reassignment/rapid_reassignment.cpp:97-209 | over every run: a waiting worker has questions, statuses in flight and boxed statuses adding up to its group, or exactly one help, confirmation or cancellation outstanding; one that does not wait has nothing; every message can be handled, and a round never starves |
| WorkStealing.WaitsForAnAnswer | examples/rapid_reassignment/rapid_reassignment.cpp:97-209 | over every run: a worker starts to wait exactly when it has finished its interval, and asks every member once; it stops only for a confirmation, with the interval that brings, or with its last status; only a new batch changes its iteration |
| WorkStealing.RefusedAsksAgain | examples/rapid_reassignment/rapid_reassignment.cpp:199-209 | a refused worker goes on waiting and asks every member once more |
| WorkStealing.HelpBalancedExactlyWhen | examples/rapid_reassignment/rapid_reassignment.cpp:171-175 | an accepted help splits the victim's interval without gap or overlap if and only if the victim is at the start the help was computed from |
| WorkStealing.StepConservesExactlyWhenTimely | examples/rapid_reassignment/rapid_reassignment.cpp:157-198 | a step conserves the work if and only if it accepts no help that is out of date |
| WorkStealing.ConservedExactlyWhenTimely | examples/rapid_reassignment/rapid_reassignment.cpp:157-198 | over every run: every index is accounted for as often as it was handed out, worked on, left to a worker or in a confirmation, in all states so far, if and only if every help accepted so far was timely |
| WorkStealing.ConfirmedWhileWaiting | examples/rapid_reassignment/rapid_reassignment.cpp:183-198 | in every run a confirmation only reaches a worker that waits for it |
| WorkStealing.NothingOverwritten | examples/rapid_reassignment/rapid_reassignment.cpp:183-198 | in a timely run that worker has nothing left to overwrite |
| WorkStealing.AllDoneAtRest | examples/rapid_reassignment/job_manager_rr.cpp:34-60 | a timely run at rest has worked on exactly the indices handed out, as often as handed out |
| WorkStealing.LateHelpAccepted | examples/rapid_reassignment/rapid_reassignment.cpp:171-175 | a run of thirty steps of three nodes with one thread each, at the threshold the program starts with, in which a late help is accepted: an index already worked on goes to another worker, and one nobody was given belongs to the victim, which waits |
| WorkStealing.LateHelpOverwritten | examples/rapid_reassignment/rapid_reassignment.cpp:183-198 | one step later the victim's own confirmation overwrites the interval it has left |
| RangeSlicing.SimpleRangePartitionManager.Slice | worker/simple_range_manager.hpp:27-47 | the loop computes the specification's slices |
| RangeSlicing.SliceOf | worker/simple_range_manager.hpp:35-45 | every slice is, for some server, exactly the keys of the request in that server's range, with their values |
| RangeSlicing.SliceOwned | worker/simple_range_manager.hpp:35-45 | a slice's keys are in its server's range, and that server owns them |
| RangeSlicing.SlicesCarryAllExactlyWhenCovered | worker/simple_range_manager.hpp:27-47 | the slices carry all keys, in order and with their values, if and only if the ranges cover all of them |
| RangeSlicing.SlicesIncrease | worker/simple_range_manager.hpp:35-45 | the front keys of the slices strictly increase |
| RangeSlicing.SlicesOneForEachServer | worker/simple_range_manager.hpp:27-47 | every server that has keys in the request gets exactly one slice, with just its keys, and there is no other |
| RangeSlicing.ValuesStayWithKeys | worker/simple_range_manager.hpp:33-43 | with several values for a key, the t-th value of the i-th key of a slice is that of the request |
| KvTable.KVTableBox.Send | worker/kv_table_box.hpp:78-96 | for every slice one message from this thread to the slice's server, an Add or a Get as asked, with the slice's keys, and values exactly for an Add |
| KvTable.KVTableBox.Clock | worker/kv_table_box.hpp:98-110 | one Clock to every server |
| KvTable.KVTableBox.AddPairs | worker/kv_table_box.hpp:60-70 | for every slice of the pairs one Add from this thread to its server, with its keys and values |
| KvTable.KVTableBox.HandleMsg | worker/kv_table_box.hpp:112-119 | the reply is kept last |
| KvTable.FindRangeFinds | worker/kv_table_box.hpp:124-126 | the positions found for a reply are those of the keys in its range |
| KvTable.KVTableBox.HandleFinish | worker/kv_table_box.hpp:121-142 | succeeds exactly when the checks hold, and then the values are those of the replies by front key |
| KvTable.ChecksHoldExactlyWhenCovered | worker/kv_table_box.hpp:124-131 | in whatever order the replies arrive, all checks hold if and only if the ranges cover the keys asked for |
| KvTable.AssembledAreOwners | worker/kv_table_box.hpp:132-140 | vals[i] is what the server that owns keys[i] answered for it |
| KvTable.SimpleKVTable.Get | worker/simple_kv_table.hpp:93-114 | queues one Get for each server that has keys in the request, with just those, and covered keys are all asked for in order; for sorted keys, repeated ones included, and any order of arrival: every key's owner's value, untouched vals when no server is asked, a failed check otherwise |
| KvTable.KVClientTable.Get | worker/kv_client_table.hpp:83-98 | the same messages and the same outcome as the receive loop's, through the callback runner |
| Sharding.VectorStorage.constructor | server/vector_storage.hpp:20-22 | a zero for every key of the range |
| Sharding.VectorStorage.SubAdd | server/vector_storage.hpp:24-33 | no offset leaves the array; fails exactly for a key outside the range or unequal lengths |
| Sharding.VectorStorage.SubGet | server/vector_storage.hpp:35-43 | the cells of the keys in order; fails exactly for a key outside the range |
| Sharding.MapStorage.SubAdd | server/map_storage.hpp:17-24 | adds pair by pair, new keys starting from zero |
| Sharding.MapStorage.SubGet | server/map_storage.hpp:26-32 | the values in order; keys read become present with zero, which no lookup can tell |
| Sharding.GetFromVector | server/abstract_storage.hpp:19-33 | the reply goes back to the sender with the request's keys in their order and their cells |
| Sharding.AddToVector | server/abstract_storage.hpp:14-18 | a message without both arrays fails a check, any other is added |
| Sharding.GetFromMap | server/abstract_storage.hpp:19-33 | the same for a map |
| Sharding.AccumulatedAdds | server/vector_storage.hpp:28-32 | a cell grows by all values added under its key |
| Sharding.AddToAdds | server/map_storage.hpp:21-23 | a key grows by all values added under it |
| Sharding.AddRefines | server/vector_storage.hpp:24-33 | a sliced Add fails no check and leaves every shard holding what one map holds in its range |
| Sharding.GetRefines | server/vector_storage.hpp:35-43 | a sliced Get fails no check, and its replies put together are what one map holds |
| Sharding.ShardsAnswerAsOneMap | server/vector_storage.hpp:24-43 | any sequence of sliced Adds and Gets, keys repeated, is answered by the shards as by one unpartitioned map |
| Sharding.ZeroShardsRefine | server/vector_storage.hpp:20-22 | new shards hold what the empty map holds |
| Sharding.BuildRanges | examples/sparse_ssp_example.cpp:122-127 | the ranges are contiguous, one for each server, from zero to the number of dimensions |
| ResponseCounting.AppBlocker.NewRequest | worker/app_blocker.cpp:31-35 | the request expects so many replies and has none; fails exactly for an unregistered handler |
| ResponseCounting.AppBlocker.AddResponse | worker/app_blocker.cpp:43-61 | runs the receive handler, then the finish handler exactly for the last reply, then counts |
| ResponseCounting.NextInv | worker/app_blocker.cpp:31-61 | every interleaving of app threads, arrivals and the helper's three phases keeps the accounts of each client |
| ResponseCounting.WaitReturnsAfterFinish | worker/app_blocker.cpp:36-42 | when WaitRequest() returns the receive handler has run once for each reply and the finish handler once, to its end |
| ResponseCounting.FinishRunsLast | worker/app_blocker.cpp:46-53 | the finish handler starts after the last run of the receive handler, once, while the app thread has not passed its wait |
| ResponseCounting.NeverTooOften | worker/app_blocker.cpp:43-61 | at no moment has a handler run more often than that |
| ResponseCounting.NobodyBlockedAtRest | worker/app_blocker.cpp:54-60 | no wakeup is lost: with all replies counted no app thread is blocked |
| SparsePipeline.SparseKVClientTable.GetUpToWait | worker/sparse_kv_client_table.hpp:170-236 | goes through exactly when Gets and Adds alternate, there are keys for the request it sends, and speculation is not zero except on the first Get; then the wait expects the slice count of this iteration's keys |
| SparsePipeline.SecondGetOutOfBounds | worker/sparse_kv_client_table.hpp:212-225 | without speculation, Get, Add and Get again read num_reqs_ behind its end |
| SparsePipeline.SparseKVClientTable.AddPairs | worker/sparse_kv_client_table.hpp:141-153 | fails exactly when it does not follow a Get; else one Add for each slice goes to its server, with this iteration's version, its keys and its values |
| SparsePipeline.SparseKVClientTable.SendNext | worker/sparse_kv_client_table.hpp:224-236 | a Clock to every server, then one Get for each slice of the keys of one version more, to its server, with that version; without speculation the stored count read is behind the end of num_reqs_ |
| SparsePipeline.HistoryIsScheduled | worker/sparse_kv_client_table.hpp:194-236 | a client's history is the first part of one fixed schedule |
| SparsePipeline.EachOnceInOrder | worker/sparse_kv_client_table.hpp:194-236 | after g Gets only versions below g + speculation have been requested and only Clocks below g - 1 sent, each at its one place |
| SparsePipeline.AllAreThere | worker/sparse_kv_client_table.hpp:194-236 | all of those have been sent |
| SparsePipeline.ClockPrecedesRequest | worker/sparse_kv_client_table.hpp:194-236 | Add i and request i + speculation come before Clock i, and Clock i before request i + 1 + speculation |
| SparsePipeline.SentIsHistory | worker/sparse_kv_client_table.hpp:241-275 | the messages sent are those of the history, event by event |
| SparsePipeline.SentCarriesOutHistory | worker/sparse_kv_client_table.hpp:241-275 | whatever a client has done, its messages fall into one part for each event of its history, in order: for a request one Get per slice, for an update one Add per slice with the values, for a Clock one message per server, each to the right server with the event's version and the slice's keys |
| BinStream.BytesRoundTrip | base/serialization.hpp:114-129 | a number that fits comes back from its bytes |
| BinStream.RoundTrip | base/serialization.hpp:114-259 | every value of every nested type, anywhere in a buffer and with anything behind it, reads back equal and leaves the cursor right behind it |
| BinStream.Layout | base/serialization.hpp:114-259 | a length is eight bytes, the lowest first; strings and streams are their bytes behind it, bools one byte each, 1 or 0; elements, entries and the parts of a pair come one behind the other |
| BinStream.InsertAllKeepsFirst | base/serialization.hpp:160-171 | reading a map keeps of the entries with one key the first, and no other |
| BinStream.Stream.PopFrontBytes | base/serialization.cpp:77-82 | the next bytes, and the cursor behind them |
| BinStream.Stream.Append | base/serialization.cpp:84-84 | the other stream's remaining bytes are added |
| BinStream.Stream.Write | base/serialization.hpp:114-259 | the writing operators append the encoding of the value |
| BinStream.Stream.ReadValue | base/serialization.hpp:123-259 | the reading operators compute the specification's decoding and cursor |
| BinStream.WriteThenRead | base/serialization.cpp:73-113 | written behind other data and followed by more, a value comes back and exactly what follows remains |

## Left out

- Sockets, multipart framing, memory ownership, HDFS calls, logging and flags: replaced by reliable links without duplicates, and by a splitter that gives a block and then the bytes that follow it.
- Failed sends, crashes, mailbox shutdown and the destructor of Channel: mailboxes and queues stay for the whole run.
- The wrap-around of 32-bit counters, and the rounding of `float` in the choice of the slowest worker: numbers are unbounded, half an interval is rounded down.
- Condition variables of the mailboxes and of Channel are their conditions, evaluated under the lock; only AppBlocker's notification is modelled as a step.
- Adds and Gets of a worker go onto its links in one step each, in the cluster modules; the order in which Send loops over the servers is in KvTable.
- ResetWorker with Gets pending: taken as the start of a run on empty buffers.
- ASP, the SparseSSP server and its recorders: not part of this model; the sparse client is modelled up to what it sends and waits for.
- BspCluster.NoCheckFails: the discipline is sufficient; it is not claimed to be necessary.
- LineOwnership.EachLineOnceExactlyWhen: leaves out first blocks of a single byte and later ones of a single byte that is no newline, because for them the outcome depends on which reader gets which block and not only on the files (LineOwnership.SingleByteDependsOnHistory).
- InputReading.EveryLineReadOnce: the files of the directory have distinct names and all have the block size the splitter reads off the first of them, every block has a replica, and the readers have read all they were given.
- LineInput.LineInputFormat.Next: split into methods for its three parts; the bytes a fetch returns are any non-empty piece of what follows, not the block size of the file system.
- BlockAssigner.HDFSBlockAssigner.SelectHost: any host with a block may be chosen, the source takes the first in the order of its map; likewise any block of a host.
- BlockAssigner.HDFSBlockAssigner.Answer: the two levels of maps, by task and by URL, are one map by both; the per-host counters that are written and never read are left out.
- RapidReassignment.JobManager.Check: ends where it blocks on wait; Check, each handler and the assignment of a new batch are one step each, doReassgn is on, and kTerminateReassgn and kSendData are left out.
- WorkStealing.ConservedExactlyWhenTimely: the index worked on is the job manager's position; the example drivers keep a counter of their own.
- KvTable.SimpleKVTable.Get: recv_queue_ is given as the sequence of messages it will deliver; values are integers, not bytes, one for each key in replies.
- KvTable.SortByFront: std::sort is modelled by an insertion sort of which only sortedness and permutation are used.
- Sharding.ShardsAnswerAsOneMap: requests reach the shards one after the other; what concurrent requests see is the matter of the consistency controllers.
- Sharding.GetFromVector: the dispatch by virtual functions is one method for each storage.
- BinStream.RoundTrip: vectors, maps and bit vectors of up to 2^31 - 1 elements, which is what the loops count to; a map is its pairs in the order of iteration; reading behind the buffer, undefined in the source, is a failed read.
- BinStream.Layout: numbers are laid out as on a little-endian machine with a 64-bit size_t; the source copies the bytes it finds in memory.
- SuperstepRuns.SuperstepExact: the mailbox is new when the Channels are built, nobody else calls Barrier() on the same mailbox, and channel ids are not shared.
- GBDT, data samplers, parsing, node lists, scripts and example drivers: application code or only easy members.
