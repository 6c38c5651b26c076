# LStore execution layer: a Dafny model

This project models the part of LStore in which several schedulers, protocols and threads have to work
together, and proves what they guarantee over every run. It covers the execution layer of `src/gop` and
three pieces of the IBP depot in `src/ibp-server`.

**Thread pool** (`ThreadPool*.dfy`). Ops beyond the concurrency limit wait on one reserve stack per
recursion level, and one is released early only if it is deeper than every op that holds an overflow
slot. `ThreadPool` proves the imperative code against functions on the pool. `ThreadPoolRuns` is the
machine of all interleavings at the grain of the pool's lock and atomic counters, and `ThreadPoolOps` the
account of where its ops are. `ThreadPoolDeadlock`
defines what it is to be stuck, with only as many ops served as there are threads. `ThreadPoolAtomic` treats
the end of an op and the submit of the op it picked as uninterrupted, bounds the running ops there, and shows
that such runs are among the interleaved ones; `ThreadPoolCrowd` proves for exactly which depths they never
get stuck. `ThreadPoolStale` and `ThreadPoolIdle` show what becomes of all this in the code as it is, which
drops the lock in between.

**Host portal** (`HostPortal*.dfy`). A central thread and a send and a receive thread per connection,
joined by FIFO queues. `HostPortal` defines every step, `HostPortalConn` and `HostPortalInv` the
invariant (what a connection answers for, where the close token is, what each counter counts),
`HostPortalCentral` and `HostPortalSteps` prove that every step keeps it, and `HostPortalTheorems`
states what follows for every run. `HostPortalPlan` says how many connections a host gets, `HostPortalTries`
how often an op is tried, `HostPortalQueues` in what order ops go, and `HostPortalClose` how connections come
to their end. `HostPortalPass` is a whole dispatch pass, turn by turn, with the exact condition under which it
ends, and `HostPortalLoad` follows each connection's own workload figure over every run.

**Message queue connection** (`MqConn.dfy`, `MqConnFates.dfy`, `MqConnPortal.dfy`). Waiting tasks and
reference-counted heartbeat entries found through two tables: the state machine with its invariant, the
outcome each task gets and the time each entry was last heard of over every run, and the connection object
whose routines, scans included, are proved against it.

**Message routing** (`MqRouting.dfy`, `MqDispatch.dfy`). Frames consumed and appended hop by hop, return
addresses, tracked addresses and heartbeats, as the messages are built and as they travel; what a message is
taken for where it is sent and where it arrives, and the way of a request to the completion of its task.

**Operation queues** (`OpQueue.dfy`, `OpQueueLocks.dfy`, `OpQueueExec.dfy`, `Callback.dfy`). Trees of queues
that complete through callbacks, in any order and with the reports of several threads interleaved; how they
are built and started; the callback chain with its tail pointer.

**Streams and registrations** (`MqStream.dfy`, `MqStreamCalls.dfy`, `MqOngoing.dfy`). The handshake between a
stream's reader and its response handlers, what each call of the reader brings, and the heartbeat
registrations of a client.

**Depot** (`BufferTransfer.dfy`, `AllocLock.dfy`, `ActivityLog.dfy`, `ActivityLogLayout.dfy`). Resumable
scatter and gather, allocation locks with the size updates made under them, and the codec of copy records in
the activity log with the place of every field.

Code that updates objects or buffers in place is a class or a method with loops, proved against a function
of the old state. Code whose difficulty is the interleaving of threads is a state machine: a step is what
a thread does between two points at which others can see it, and the theorems quantify over all runs.

## Where the code does not do what one would expect

- `thread_pool_op.c:268-270` drops the lock between picking an op and submitting it again. The op carries
  a slot number that may belong to another op by then, and `thread_pool_config.c:195` frees it. Slot
  distinctness and the overflow count survive this. The bound on running ops does not, even if no op nests
  (`ThreadPoolStale.ThreadBoundFails`). The pool has only as many threads as that bound
  (`thread_pool_config.c:280`), so nested waiting can get stuck at depths the levels allow: the code never
  gets stuck if and only if no op nests (`ThreadPoolStale.InterleavedFreeIff`). Without the interruption
  both hold (`ThreadPoolAtomic.AtomicRuns`, `ThreadPoolCrowd.AtomicFreeIff`).
- Ops can stay reserved while places are free and nothing is under way that would take them up. This is ruled
  out if and only if there is at most one free place (`ThreadPoolIdle.KeepsBusyIff`), or when the two
  sections are not interrupted (`ThreadPoolAtomic.AtomicRuns`).
- `hportal.c:1048` subtracts a connection's workload from itself. In every run the figure is the work the
  connection answers for less what its retries made it forget (`HostPortalLoad.WorkloadOverRuns`), and for
  any limits a run reaches a connection that answers for work while its figure says none
  (`HostPortalLoad.WrongWorkloadReached`). The per-host figures are always right.
- The dispatch loop at `hportal.c:909-953` turns for ever exactly when ops are left once every ready
  connection is filled and one of these carries exactly the maximum (`HostPortalPass.PassEndsIff`). For any
  limits two ops are enough to get there (`HostPortalLoad.SpinReached`).
- A connection's request to close is dropped unless the central thread has taken note before that it is ready
  (`hportal.c:1031-1039`). One that idles first is never told to close: it stays ready while its send thread
  hands every op back (`HostPortalClose.GrantedIff`, `HostPortalClose.RequestLost`). In runs without such a
  request every connection that hands ops back is on its way out (`HostPortalClose.AskedOverRuns`).
- `mq_stream.c:175-177` looks for the end of a stream in a packet that the handler lets go during the same call
  (`mq_stream.c:110`). The end is reported by one call only, the one after the last packet; later calls report
  success and bring nothing (`MqStreamCalls.CallByCall`). A stream of one packet reports it every time.
- `mq_portal.c:1242-1256` passes over a task whose message has no empty frame or another version. It is neither
  sent nor completed (`MqDispatch.Examine` gives `Invalid` exactly then).
- The comment at `mq_portal.c:913` says that `npoll == 2` winds a connection down; the code uses 1, and so
  does the model.
- `mq_helpers.c:45-58` cuts the first frame at a bar. A response finds its way back to the senders exactly
  when no sender's name contains one (`MqRouting.ReturnsToSendersIff`).
- Reading back what was written is possible for every content exactly when the extents of a request do not
  overlap (`BufferTransfer.RoundTripIff`).
- `buffer_transfer.c:204-212` notes a failed disk read but still sends and counts the buffer it was meant for.
  Whatever the buffer held goes out at the positions that could not be read, all of them in the last buffer,
  and the call then reports a dead connection (`BufferTransfer.Request.ReadFromDisk`).
- `handle_commands.c:1995` and `:2105` keep the end of a copy within a depot in an `int`. A copy that ends at
  2^31 or beyond leaves the stored size short of its end (`AllocLock.CopyLosesSize`). The stored size is the
  furthest end exactly when no completed copy ends there and past the first size and every write
  (`AllocLock.NoLostUpdateIff`).
- A copy record reads back exactly when its fields fit their places and its path with its label fits the
  reader's buffers of 4096 bytes (`ActivityLog.ReadBackIff`; `activity_log.c:487-496` and the three places
  like it). The command that is logged can bring a path of 4091 to 4095 bytes, which does not
  (`ActivityLog.PathOf4091`).
- `mq_zmq.c:62-64` binds a socket under the part of its name in front of a bar. A tracked heartbeat visits the
  request's own hosts, and its frames are the request's own exactly when no relay's address has a bar and the
  host names itself as it was addressed (`MqRouting.TrackedIsForward`).
- `mq_ongoing.c:139` lowers the per-host count once for every heartbeat although nothing raised it. That
  count is not used for anything; the counts that are used are exact.

## Model

| member | source | states |
|---|---|---|
| `ThreadPool.Context.constructor` | src/gop/thread_pool_config.c:248-301 | whatever limits are asked for, at least one op runs freely and the threads are the free places plus one overflow slot per level |
| `ThreadPool.Dmax` | src/gop/thread_pool_op.c:153-161 | the greatest depth in a slot, or -1 when no slot is taken |
| `ThreadPool.LastFree` | src/gop/thread_pool_op.c:154-161 | a free slot, the last one, or -1 exactly when none is free |
| `ThreadPool.Pick` | src/gop/thread_pool_op.c:164-173 | the deepest non-empty reserve stack above a depth, or -1 when all of those are empty |
| `ThreadPool.Context.OverflowNext` | src/gop/thread_pool_op.c:147-181 | the two loops over slots and stacks release exactly the op, slot and counters of the specification, in place |
| `ThreadPool.Context.AdmitOp` | src/gop/thread_pool_config.c:178-201 | the locked section of a submit: push, release or roll back, with the recorded slot freed on a roll back |
| `ThreadPool.Context.SubmitOp` | src/gop/thread_pool_config.c:167-209 | a whole submit, counted first and admitted under the lock only beyond the limit |
| `ThreadPool.Context.FinishOp` | src/gop/thread_pool_op.c:243-271 | the end of an op: slot freed, op uncounted, a reserved op picked, its slot undone and the op submitted |
| `ThreadPoolRuns.FullSlotsReachTop` | src/gop/thread_pool_op.c:157-161 | pigeonhole: when no slot is free, the distinct depths in the slots reach the last level, so nothing more is released |
| `ThreadPoolRuns.NextGivesSlot` | src/gop/thread_pool_op.c:155-171 | an op released at or above the limit always gets a real slot, which was free, marked with its level |
| `ThreadPoolRuns.NextDominates` | src/gop/thread_pool_op.c:147-181 | after a pick every level that still has reserved ops is dominated by the released op or by the holder of a slot |
| `ThreadPoolRuns.StepKeeps` | src/gop/thread_pool_op.c:243-271 | every atomic step of every thread keeps slots distinct and truthful, the overflow count exact, running ops counted, and reserved levels dominated once no thread is between its steps |
| `ThreadPoolRuns.RunKeeps` | src/gop/thread_pool_config.c:167-209 | all of that in every reachable state, for any number of threads and any interleaving |
| `ThreadPoolOps.StepCounts` | src/gop/thread_pool_op.c:243-271 | every atomic step keeps the number of occurrences of every op, by id and depth, but for one that is issued or ends |
| `ThreadPoolOps.OpsOverRuns` | src/gop/thread_pool_config.c:167-209 | in every run an op that was issued and has not ended is in just one place, with its depth |
| `ThreadPoolOps.LastFirst` | src/gop/thread_pool_op.c:163-173 | over any stretch of a run in which a reserve stack does not shrink below a height, what lies up to that height stays, in order |
| `ThreadPoolDeadlock.SomeoneProceeds` | src/gop/thread_pool_op.c:163-173 | in a reachable quiet state with work left, no more running ops than threads, and ops waiting only for deeper ones within the levels, some op that has a thread waits for nothing |
| `ThreadPoolDeadlock.UnnestedProceeds` | src/gop/thread_pool_config.c:178-201 | so does one in any reachable quiet state with work left in which no op nests, however many are running |
| `ThreadPoolAtomic.ResubmitReleasesSame` | src/gop/thread_pool_op.c:258-270 | undoing the slot and submitting the picked op at once releases that same op |
| `ThreadPoolAtomic.AtomicRuns` | src/gop/thread_pool_config.c:269-277 | without interruption, running ops never exceed the free places plus slots in use, reserved work is counted exactly and implies that all places are busy |
| `ThreadPoolAtomic.SubmitIsRun` | src/gop/thread_pool_config.c:167-209 | an uninterrupted submit is one of the interleaved runs |
| `ThreadPoolAtomic.FinishIsRun` | src/gop/thread_pool_op.c:243-271 | so is an uninterrupted end of an op with the submit that follows |
| `ThreadPoolAtomic.AtomicIsRun` | src/gop/thread_pool_op.c:243-271 | every uninterrupted run is an interleaved run with the same outcome and the same depths |
| `ThreadPoolCrowd.CrowdedIsStuck` | src/gop/thread_pool_config.c:181-183 | a state in which every running op waits for a reserved child that was put on the last level with it |
| `ThreadPoolCrowd.AtomicFreeIff` | src/gop/thread_pool_config.c:181-187 | with the threads the pool has, no uninterrupted run with depths up to d ever gets stuck, if and only if d is below the number of levels or below 2 |
| `ThreadPoolStale.ThreadBoundFails` | src/gop/thread_pool_op.c:268-270 | for every configuration and every n there is a run of ops that do not nest, each ending only once it had a thread, with n ops running at once |
| `ThreadPoolStale.StuckInRange` | src/gop/thread_pool_config.c:278-281 | for every configuration there is such a run with depths 1 and 2 in which every thread is held by an op that waits for one that will never have a thread |
| `ThreadPoolStale.InterleavedFreeIff` | src/gop/thread_pool_op.c:243-271 | no interleaved run with depths up to d ever gets stuck, if and only if d is below 2, whatever the number of levels |
| `ThreadPoolIdle.IdleRun` | src/gop/thread_pool_op.c:250-271 | with two or more free places there is a run that ends quiet with a place free and an op reserved |
| `ThreadPoolIdle.KeepsBusyIff` | src/gop/thread_pool_op.c:250-271 | in every quiet state of such runs reserved work means that all places are busy, if and only if there is at most one place |
| `HostPortalPlan.Enough` | src/gop/hportal.c:701-716 | a dead host, and one whose connections and pending ones are as many as its work, its ops and the limit call for, gets nothing |
| `HostPortalPlan.ReachesIdeal` | src/gop/hportal.c:703-717 | a live host within its stable count and with room is brought to just one connection per maximum of work, at least one, no more than ops or the limit, and nothing is closed for it |
| `HostPortalPlan.ShortOfRoom` | src/gop/hportal.c:718-764 | without the room it gets what there is, and closes are asked for exactly if it has no connection at all or should have no more than its share |
| `HostPortalPlan.BeyondStable` | src/gop/hportal.c:727-745 | beyond its stable count it gets one connection after the pause, with the count going up, or one at once if it has none and never paused |
| `HostPortalPlan.PausedWithout` | src/gop/hportal.c:737-745 | while it pauses, a host without a connection is treated as within its stable count |
| `HostPortalPlan.StableRisesIff` | src/gop/hportal.c:728-736 | the stable count goes up by one if and only if the pause is over and a live host lacks connections and is at the count |
| `HostPortalPlan.NeverPassedOver` | src/gop/hportal.c:718-725 | a live host with ops and without a connection gets one or has one closed for it, unless as many closes as connections are under way |
| `HostPortalPlan.SizedOverRuns` | src/gop/hportal.c:694-770 | in every run, sizing such a host leaves it with exactly the connections its figures call for, or those it had, and every other host with its own |
| `HostPortalConn.LedgerKept` | src/gop/hportal.c:1200-1434 | a step of a send or receive thread keeps the tasks, the work and the ops its connection answers for, except completed ones |
| `HostPortalConn.TokenKept` | src/gop/hportal.c:1200-1434 | the close token stays behind everything else on its way through the two threads and back |
| `HostPortalConn.ThreadKeepsConn` | src/gop/hportal.c:801-821 | every thread step, retries included, keeps the whole invariant of its connection |
| `HostPortalCentral.RouteKeeps` | src/gop/hportal.c:667-687 | routing an op keeps every count and puts the op in exactly one more place |
| `HostPortalCentral.ReadyKeeps` | src/gop/hportal.c:1026-1030 | CONN_READY moves one connection out of limbo and keeps the invariant |
| `HostPortalCentral.CloseForKeeps` | src/gop/hportal.c:299-321 | asking a connection to close for another host keeps the invariant and counts the request |
| `HostPortalCentral.CloseReqKeeps` | src/gop/hportal.c:1031-1039 | so does handling a connection's own request to close, which tells it to close unless that has been done |
| `HostPortalCentral.ClosedIsDrained` | src/gop/hportal.c:966-997 | when CONN_CLOSED comes up, its connection has no tasks and both threads have ended with empty queues |
| `HostPortalSteps.ClosedKeeps` | src/gop/hportal.c:966-997 | handling a close keeps the invariant |
| `HostPortalSteps.RetryKeeps` | src/gop/hportal.c:1046-1055 | so does accepting a retried op and routing it again |
| `HostPortalSteps.DoneKeeps` | src/gop/hportal.c:1056-1069 | so does a completed op |
| `HostPortalSteps.DispatchKeeps` | src/gop/hportal.c:909-934 | so does sending a pending op to a connection |
| `HostPortalSteps.UseUpTryKeeps` | src/gop/hportal.c:891-907 | so does using up a try of a pending op, which completes it when none is left |
| `HostPortalSteps.FailAllKeeps` | src/gop/hportal.c:778-795 | so does failing everything pending for a dead host |
| `HostPortalSteps.ResizeKeeps` | src/gop/hportal.c:694-770 | so does opening connections and asking others to close, within the limits |
| `HostPortalSteps.RunKeeps` | src/gop/hportal.c:1152-1195 | the invariant holds in every reachable state |
| `HostPortalTheorems.OneFate` | src/gop/hportal.c:1004-1075 | in every run an issued op is in exactly one place and completes at most once; an op never issued is nowhere |
| `HostPortalTheorems.ClosedOverRuns` | src/gop/hportal.c:966-997 | in every run a connection whose CONN_CLOSED is processed has nothing left |
| `HostPortalTheorems.ConnectionCaps` | src/gop/hportal.c:694-770 | in every run running connections are the open ones, pending closes are at most those, the total and the per-host limits hold |
| `HostPortalTheorems.HostConservation` | src/gop/hportal.c:853-960 | in every run each host's pending work, executing work, submitted less processed, limbo and pending closes are the sums they stand for |
| `HostPortalTries.TriesOverRuns` | src/gop/hportal.c:801-821 | in every run, wherever an op is, its tries are those it was issued with less its failed attempts |
| `HostPortalTries.CompletedBy` | src/gop/hportal.c:778-821 | a step completes the op an answer came for, everything pending for a dead host, an op handed back without a try left, and nothing else |
| `HostPortalTries.GivenUpIff` | src/gop/hportal.c:801-821 | in every run an attempt without an answer completes its op if and only if the attempts it has cost are as many as its tries |
| `HostPortalQueues.IssuedOverRuns` | src/gop/hportal.c:1023-1025 | the ops accounted for are those issued, in order |
| `HostPortalQueues.FirstComeFirstSent` | src/gop/hportal.c:667-687 | over any stretch of a run, of the ops pending for a host those that are gone are the oldest and the rest keep their order |
| `HostPortalClose.FailureEnds` | src/gop/hportal.c:1234-1281 | after a failed send, a failed answer or idleness a thread takes no op or answer any more |
| `HostPortalClose.GrantedIff` | src/gop/hportal.c:1031-1039 | a request to close is granted if and only if the connection is known to be ready |
| `HostPortalClose.AskedOverRuns` | src/gop/hportal.c:1283-1301 | in every run without an early request, a connection whose threads hand ops back is being closed, has asked for it, or is about to |
| `HostPortalClose.RequestLost` | src/gop/hportal.c:1031-1039 | for any limits a run from the start leaves a ready connection that hands every op back and that nobody will close |
| `HostPortalClose.GivenUpOnlyIf` | src/gop/hportal.c:966-997 | a host's stable count goes down, and at zero with no connection left the host is marked dead, if and only if a connection ended that never was ready and no other has been |
| `HostPortalClose.ClosingStays` | src/gop/hportal.c:827-847 | a connection told to close stays so and gets no more ops |
| `HostPortalClose.ClosingBegins` | src/gop/hportal.c:299-321 | those chosen to make room and those closed on shutdown are told |
| `HostPortalLoad.RetryForgetsWork` | src/gop/hportal.c:1046-1055 | after a retry a connection's workload is right if and only if the retried op was all of it |
| `HostPortalLoad.DoneKeepsWork` | src/gop/hportal.c:1056-1069 | after a completed op it is always right |
| `HostPortalLoad.GapStep` | src/gop/hportal.c:1004-1075 | every step of every thread keeps the difference between the work a connection answers for and its figure, but for what a retry forgets |
| `HostPortalLoad.WorkloadOverRuns` | src/gop/hportal.c:1046-1055 | in every run a connection's workload is the work it answers for less the sum of what its retries made it forget |
| `HostPortalLoad.WrongWorkloadReached` | src/gop/hportal.c:1048 | for any limits a run from the start leaves a connection that answers for any given work with a figure of 0 |
| `HostPortalLoad.SpinReached` | src/gop/hportal.c:909-953 | for any limits a run from the start leaves a host whose dispatch pass never ends |
| `HostPortalPass.LeastBusy` | src/gop/hportal.c:827-847 | the first least loaded ready connection of the host within the limit, or none exactly when there is none |
| `HostPortalPass.FindConnToClose` | src/gop/hportal.c:266-292 | finds a ready connection whenever there is one, and none of a host with others is at least as good by its own load and its host's waiting work and better in one of them |
| `HostPortalPass.PassPlaces` | src/gop/hportal.c:883-953 | a pass that ends has filled the least loaded connection, then the least loaded of those left, and so on |
| `HostPortalPass.PassEndsIff` | src/gop/hportal.c:883-953 | a pass over the pending ops ends if and only if it is not so that ops are left once every ready connection is filled and one of these is exactly at the maximum |
| `HostPortalPass.OneConnEndsIff` | src/gop/hportal.c:909-953 | with one connection it ends if and only if its load with no number of the oldest pending ops, short of all, is exactly the maximum |
| `HostPortalLoad.PassIsRun` | src/gop/hportal.c:853-960 | however far a pass has come, it has taken steps of the state machine |
| `HostPortalLoad.PassWithout` | src/gop/hportal.c:883-907 | without a usable connection nothing is sent, and a try of the oldest op is used up if and only if the stable count is 0 |
| `MqConn.FinishKeeps` | src/gop/mq_portal.c:892-902 | a task that leaves gives up its reference; the entry goes from both tables with the last one and never before |
| `MqConn.ProcessKeeps` | src/gop/mq_portal.c:1291-1311 | a task sent, tracked or failed is waiting or completed, never both |
| `MqConn.TrackAddressKeeps` | src/gop/mq_portal.c:674-765 | a tracking address makes or shares an entry, found through both tables, and counts the reference; a second one is ignored |
| `MqConn.PongKeeps` | src/gop/mq_portal.c:815-834 | a heartbeat's answer refreshes the entry with its lookup id and no other |
| `MqConn.DeadKeeps` | src/gop/mq_portal.c:951-984 | a dead destination fails exactly the tasks that refer to it, each once, and its entry leaves both tables |
| `MqConn.CleanupKeeps` | src/gop/mq_portal.c:842-884 | after teardown nothing waits, both tables are empty and every task ever taken has been completed once |
| `MqConn.StepKeeps` | src/gop/mq_portal.c:557-601 | every operation keeps the tables, counts and fates consistent |
| `MqConn.TablesOverRuns` | src/gop/mq_portal.c:741-757 | in every run both tables hold the same entries, no reference dangles, and a count is the number of waiting tasks that refer to the entry plus one for the uplink |
| `MqConn.EntryLivesIffUsed` | src/gop/mq_portal.c:892-902 | in every run an entry other than the uplink's is live if and only if a waiting task refers to it |
| `MqConn.OneCompletion` | src/gop/mq_portal.c:918-1059 | in every run a task taken is waiting and not completed, or completed exactly once |
| `MqConn.LateResponseIgnored` | src/gop/mq_portal.c:573-579 | a response to a task that has left changes nothing |
| `MqConnFates.StepGives` | src/gop/mq_portal.c:557-601 | every operation gives a task just the outcome that is due and no other task one |
| `MqConnFates.FateOverRuns` | src/gop/mq_portal.c:1290-1311 | in every run a task was completed by its response, by a failed send, the death of its destination, its timeout or teardown, or by being sent untracked, if and only if such a step occurred, with the outcome that belongs to it |
| `MqConnFates.TakenOverRuns` | src/gop/mq_portal.c:1225-1231 | the tasks accounted for are those taken |
| `MqConnFates.WaitingSince` | src/gop/mq_portal.c:1296-1308 | in every run a waiting task was sent tracked, keeps its timeout, and nothing has ended it since |
| `MqConnFates.StepWaits` | src/gop/mq_portal.c:674-765 | a task leaves the waiting table exactly when it ends, and is attached to the first address it is told |
| `MqConnFates.LastHeard` | src/gop/mq_portal.c:815-834 | in every run an entry's time is that of the last answer with its id, or of its making |
| `MqConnPortal.Connection.constructor` | src/gop/mq_portal.c:1358-1380 | a client connection starts with its uplink's entry in both tables, counted once |
| `MqConnPortal.Connection.HeartbeatDec` | src/gop/mq_portal.c:892-902 | the in-place decrement is the specified one |
| `MqConnPortal.Connection.ProcessTask` | src/gop/mq_portal.c:1208-1311 | the new tables are the specified ones and consistent: a tracked task that was sent waits, any other is completed with what sending it came to |
| `MqConnPortal.Connection.OnResponse` | src/gop/mq_portal.c:557-601 | likewise; a task that waits is completed as responded |
| `MqConnPortal.Connection.OnTrackAddress` | src/gop/mq_portal.c:674-765 | likewise for a tracking address |
| `MqConnPortal.Connection.OnPong` | src/gop/mq_portal.c:815-834 | likewise for a heartbeat's answer, ignored when its id is unknown |
| `MqConnPortal.Connection.HeartbeatCleanup` | src/gop/mq_portal.c:842-884 | everything is emptied and each task completed once, the remaining ones as failures |
| `MqConnPortal.Connection.ScanDestinations` | src/gop/mq_portal.c:944-1001 | whatever the order of the table: entries that were silent too long are gone with their tasks, quiet ones are pinged, nothing else changes |
| `MqConnPortal.Connection.ScanWaiting` | src/gop/mq_portal.c:1003-1035 | exactly the expired tasks fail, their references are given up, and the rest is counted |
| `MqConnPortal.Connection.Heartbeat` | src/gop/mq_portal.c:918-1059 | one pass does both; its pings are the specified ones, the uplink's entry is live when it is pinged, and with a live uplink the pass asks to end if and only if the connection winds down and nothing is pending |
| `MqConnPortal.NoneForgotten` | src/gop/mq_portal.c:944-1059 | after a pass every entry left is within the failure limit, every one beyond the check limit has been pinged but for the uplink of an idle connection that winds down, and nothing else has |
| `MqRouting.IdBytes` | src/gop/mq_helpers.c:45-58 | the length of the frame up to the bar |
| `MqRouting.TravelVisits` | src/gop/mq_zmq.c:302-313 | a message visits the hops in front of its empty frame, in order and no others, and arrives with its senders behind it |
| `MqRouting.Message.ReceiveFrom` | src/gop/mq_zmq.c:302-313 | the sender moves from the front to the end |
| `MqRouting.Message.RemoveHeader` | src/gop/mq_helpers.c:124-137 | drops the three header frames and the extra ones |
| `MqRouting.ApplyReturnAddress` | src/gop/mq_portal.c:610-629 | the address goes in front reversed; it is kept or used up as asked |
| `MqRouting.MakeExec` | src/gop/mq_helpers.c:143-160 | builds the request's frames in order, with the command that says whether it is tracked |
| `MqRouting.MakeResponse` | src/gop/mq_helpers.c:167-181 | builds a response to a return address |
| `MqRouting.MakeTrackAddress` | src/gop/mq_portal.c:639-668 | builds the tracking answer: way back, command, then the relays and the host |
| `MqRouting.MakePing` | src/gop/mq_portal.c:697-746 | keeps the address up to its empty frame and turns it into a heartbeat |
| `MqRouting.MakePong` | src/gop/mq_portal.c:771-806 | answers a heartbeat with its id over the way it came |
| `MqRouting.RoundTrip` | src/gop/mq_helpers.c:167-181 | over any number of hops the request arrives, and its response visits the hops in reverse and arrives with id and results intact |
| `MqRouting.ReturnsToSendersIff` | src/gop/mq_zmq.c:165-211 | the way back names the senders themselves if and only if none contains a bar |
| `MqRouting.TrackedAddress` | src/gop/mq_portal.c:674-746 | the heartbeat made from a tracking answer is addressed to the relays and then the host |
| `MqRouting.TrackedIsForward` | src/gop/mq_portal.c:639-668 | where relays send under their bound identity the heartbeat visits the identities of the request's hops, and is the request's own address if and only if no relay's address has a bar and the host names itself as addressed |
| `MqRouting.IdHasNoBar` | src/gop/mq_zmq.c:62-64 | an identity has no bar and is its own identity |
| `MqRouting.PingPong` | src/gop/mq_portal.c:771-834 | a heartbeat reaches the tracked host and its answer comes back with the same lookup id |
| `MqDispatch.CommandsDiffer` | src/gop/gop/mq.h:204-217 | no command frame is taken for another |
| `MqDispatch.Examine` | src/gop/mq_portal.c:1230-1276 | reads version, command and id behind the address of any outgoing message; without an empty frame it is invalid |
| `MqDispatch.RequestIsTakenAs` | src/gop/mq_helpers.c:143-160 | a request is taken as tracked on its way out, and as the tracked command where it arrives, if and only if it was made so |
| `MqDispatch.ResponseTaken` | src/gop/mq_portal.c:1124-1128 | a response arrives as one |
| `MqDispatch.TrackTaken` | src/gop/mq_portal.c:1119-1123 | so does a tracking answer |
| `MqDispatch.PingTaken` | src/gop/mq_portal.c:1109-1113 | so does a heartbeat |
| `MqDispatch.PongTaken` | src/gop/mq_portal.c:1114-1118 | so does its answer |
| `MqDispatch.TaskWaitsIff` | src/gop/mq_portal.c:1259-1308 | a task waits for its response if and only if its message was made to be tracked, was sent and is not passed on for another |
| `MqDispatch.RequestCompletes` | src/gop/mq_portal.c:557-601 | a tracked request that travels, is answered and travels back completes its task with the response, and nothing else changes |
| `OpQueue.AddKeepsShape` | src/gop/opque.c:356-395 | adding a node that is in no queue keeps the structure a forest, ready to run once no queue is empty |
| `OpQueue.NotifyKeeps` | src/gop/opque.c:146-220 | a report, with all the reports it sets off above, leaves every queue's counters, lists and status consistent |
| `OpQueue.DoneIff` | src/gop/opque.c:184-206 | a queue has its status if and only if every operation below it has completed, and failed if and only if one of them ended in failure |
| `OpQueue.FiresOnce` | src/gop/opque.c:146-220 | after any run a queue's callbacks ran once if all below it completed and not at all otherwise, with the right status |
| `OpQueue.FiresAtLast` | src/gop/opque.c:180-206 | they run inside the completion of the last operation below it and of no other |
| `OpQueue.OrderIndependent` | src/gop/gop.c:525-559 | runs with the same results in any order leave every queue alike |
| `OpQueueLocks.StepKeeps` | src/gop/opque.c:170-220 | with any number of reports outstanding, an operation that ends or a single report under its queue's lock keeps every queue consistent |
| `OpQueueLocks.DoneOnly` | src/gop/opque.c:184-206 | a queue that has its status while reports are outstanding has it because every operation below has ended, with the right status |
| `OpQueueLocks.FiresOnceInterleaved` | src/gop/opque.c:146-220 | however reports interleave, a queue's callbacks run at most once, never early and with the right status, and have run once all below has ended and no report is outstanding |
| `OpQueueLocks.ReportsGetThrough` | src/gop/opque.c:146-220 | from any point reports alone lead to where none is outstanding |
| `OpQueueLocks.AsOneThread` | src/gop/gop.c:525-559 | then each queue is as one thread would have left it that completed the operations in turn |
| `OpQueueExec.OrderOnce` | src/gop/opque.c:426-458 | the order of submission holds each operation below the queue that no started queue holds exactly once, and nothing else |
| `OpQueueExec.EarlierFirst` | src/gop/opque.c:440-455 | of two operations below different members of a queue, or of any queue below it, the one below the earlier member is submitted first |
| `OpQueueExec.AddedLast` | src/gop/opque.c:356-395 | an operation added to a queue is submitted behind all added before it |
| `OpQueueExec.Queues.Add` | src/gop/opque.c:356-395 | the counters stay those of the new structure |
| `OpQueueExec.Queues.OpqueCb` | src/gop/opque.c:146-220 | the recursive callback does in place what the specification says |
| `OpQueueExec.Queues.MarkCompleted` | src/gop/gop.c:525-559 | completing an operation gives the specified state and keeps it consistent |
| `OpQueueExec.Queues.StartExecution` | src/gop/opque.c:426-458 | submits in that order whatever has been started before, and marks exactly the queues reached without passing a started one |
| `Callback.Append` | src/gop/callback.c:38-55 | the chain is longer by the new link at its end, whatever its length, and the tail pointer stays right |
| `Callback.Execute` | src/gop/callback.c:87-98 | callbacks run in the order they were appended, each once |
| `MqStream.InstallKeeps` | src/gop/mq_stream.c:94-103 | a packet is installed only while the reader waits for it and no other handler holds one |
| `MqStream.StepKeeps` | src/gop/mq_stream.c:157-258 | every locked step of the reader and the handlers keeps the handshake consistent |
| `MqStreamCalls.RequestedOverRuns` | src/gop/mq_stream.c:237-251 | in every run, with the reader idle and a packet at hand that says more is to come, its successor has been asked for unless an abort was passed on |
| `MqStreamCalls.AbortAsksOnce` | src/gop/mq_stream.c:243-247 | after an abort exactly one more request is made at most, the one that passes it on |
| `MqStreamCalls.CallByCall` | src/gop/mq_stream.c:157-258 | in every run without abort, after n calls the first n packets have been unpacked, or all there are, the next is asked for, and the end is reported by the call after the last packet and no other, or by every call of a stream of one packet |
| `MqStream.InOrder` | src/gop/mq_stream.c:74-118 | in every run packets reach the unpacker in request order, each once |
| `MqStream.NeverOverwritten` | src/gop/mq_stream.c:94-113 | in every run a held packet stays until its own handler lets it go |
| `MqStream.NeverStuck` | src/gop/mq_stream.c:157-258 | while the reader is in a call, it or a handler can take a step |
| `MqStream.CallsEnd` | src/gop/mq_stream.c:157-258 | the steps between two calls are bounded, so every call ends |
| `MqOngoing.StepKeeps` | src/gop/mq_ongoing.c:200-283 | registering, giving up, sending and collecting keep the entries exact |
| `MqOngoing.CountsRegistrations` | src/gop/mq_ongoing.c:200-283 | in every run an entry exists if and only if a registration has not been given up or a heartbeat sent for it not collected, and counts the registrations |
| `MqOngoing.NotFreedInFlight` | src/gop/mq_ongoing.c:100-156 | from send to collect a heartbeat's entry is the one it was made from |
| `MqOngoing.Ongoing.HostInc` | src/gop/mq_ongoing.c:200-252 | the new tables are the specified ones and consistent |
| `MqOngoing.Ongoing.HostDec` | src/gop/mq_ongoing.c:258-283 | likewise, and an entry under way is not freed |
| `MqOngoing.Ongoing.SendDue` | src/gop/mq_ongoing.c:85-123 | marks and sends what is due |
| `MqOngoing.Ongoing.CollectAll` | src/gop/mq_ongoing.c:131-156 | in whatever order heartbeats are collected, exactly what is registered is left |
| `BufferTransfer.IovecStart` | src/ibp-server/buffer_transfer.c:42-68 | the extent and offset of a stream position, or -1 when nothing is left |
| `BufferTransfer.StreamAt` | src/ibp-server/buffer_transfer.c:204-226 | the concatenated extents, byte by byte |
| `BufferTransfer.Request.Fill` | src/ibp-server/buffer_transfer.c:199-226 | the buffer is filled, or to the end, with the next run of the stream, across extents, but for what failed reads left there, and the position moves with it |
| `BufferTransfer.Send` | src/ibp-server/buffer_transfer.c:228-246 | what is sent is what the network took, up to the buffer, and calls go on exactly until all is sent, three have come up empty or the connection is dead |
| `BufferTransfer.Request.ReadFromDisk` | src/ibp-server/buffer_transfer.c:161-277 | what was sent is the run of the stream between the two positions; it gives up only after three empty network calls, reports a dead connection exactly if a network call or the disk failed, and completes over a network that always takes something; after a failed read exactly the positions it was for, all in the last buffer, carry what the buffer held |
| `BufferTransfer.Receive` | src/ibp-server/buffer_transfer.c:333-348 | takes what the network brings up to what was asked for, and calls on exactly until it is in, three calls have come up empty or the connection is dead |
| `BufferTransfer.Request.Store` | src/ibp-server/buffer_transfer.c:353-383 | the received bytes are spread over the extents and the size grows to the furthest of them |
| `BufferTransfer.Request.WriteToDisk` | src/ibp-server/buffer_transfer.c:288-412 | the disk is the old one with the received bytes spread over the extents, the size is the furthest byte end or the old one, and the call ends as a reading one does |
| `BufferTransfer.GrownIsFurthest` | src/ibp-server/buffer_transfer.c:374-376 | the size is the larger of the old one and the furthest end of a stored byte |
| `BufferTransfer.GatherAll` | src/ibp-server/buffer_transfer.c:161-277 | over any number of calls the bytes sent are a run of the stream with no loss or repeat, all of it when the last call reports completion |
| `BufferTransfer.ScatterAll` | src/ibp-server/buffer_transfer.c:288-412 | over any number of calls the disk is the first one with the whole received stream spread over the extents |
| `BufferTransfer.SpreadMisses` | src/ibp-server/buffer_transfer.c:353-383 | bytes outside the extents are unchanged |
| `BufferTransfer.SpreadHits` | src/ibp-server/buffer_transfer.c:353-383 | at an address the last stream byte meant for it is found |
| `BufferTransfer.RoundTripIff` | src/ibp-server/buffer_transfer.c:288-412 | every content reads back unchanged if and only if no two extents overlap |
| `BufferTransfer.UploadDownload` | src/ibp-server/buffer_transfer.c:161-277 | an upload in any number of calls and a download in any number of calls give the same bytes |
| `AllocLock.LocksDescend` | src/ibp-server/lock_alloc.c:64-98 | a pair is locked from the higher slot down and unlocked in reverse, the same slots once each, also when both ids share one |
| `AllocLock.WantsLower` | src/ibp-server/lock_alloc.c:64-79 | a waiting thread wants a slot below every slot it holds |
| `AllocLock.NoCircularWait` | src/ibp-server/lock_alloc.c:46-79 | no chain of waiting threads closes on itself |
| `AllocLock.NoDeadlock` | src/ibp-server/lock_alloc.c:46-98 | in every run of any number of threads with work left, some thread can go on |
| `AllocLock.Exclusive` | src/ibp-server/lock_alloc.c:46-58 | two threads inside the size update of allocations that share a slot are one |
| `AllocLock.StoreKeeps` | src/ibp-server/handle_commands.c:1759-1784 | storing a size keeps it the larger of the first one and all completed ends as they were kept, cut to an int for a copy |
| `AllocLock.MaxEndIsMax` | src/ibp-server/handle_commands.c:2167-2186 | the size so computed is an upper bound of the first one and all ends, and one of them |
| `AllocLock.KeptIsRealIff` | src/ibp-server/handle_commands.c:2153-2167 | cutting the ends of copies to an int changes it if and only if a copy ends at 2^31 or beyond and past the first size and every write |
| `AllocLock.NoLostUpdateIff` | src/ibp-server/handle_commands.c:2159-2186 | in every run the stored size never goes down, and is the larger of its first value and the ends completed so far if and only if no completed copy is of that kind |
| `AllocLock.EveryJobOnce` | src/ibp-server/handle_commands.c:1759-1784 | in every run each write and copy asked for has had its size stored once or has still to; when no thread has a job left, all have |
| `AllocLock.CopyLosesSize` | src/ibp-server/handle_commands.c:2105-2167 | a run in which a copy that ends at 2^31 or beyond completes and the stored size stays below that |
| `ActivityLog.GetPut` | src/ibp-server/activity_log.c:324-369 | a packed field reads back as its value cut to its width |
| `ActivityLog.PathOf` | src/ibp-server/activity_log.c:374-397 | a path that fits the reader's buffer with its label reads back and reading stops behind it |
| `ActivityLog.PathOf4091` | src/ibp-server/activity_log.c:487-496 | a record with a path of 4091 bytes cannot be read |
| `ActivityLog.StringsOf` | src/ibp-server/activity_log.c:401-439 | address, key and type key read back as they were cut |
| `ActivityLog.ReadBack` | src/ibp-server/activity_log.c:443-742 | a record in range reads back as itself in the form that was chosen for it, leaving what follows |
| `ActivityLog.ReadBackIff` | src/ibp-server/activity_log.c:717-742 | a record reads back as itself with nothing left over if and only if its fields are in range, the reader's path buffer included |
| `ActivityLog.LogRoundTrip` | src/ibp-server/activity_log.c:3134-3161 | a log of such records reads back as the same sequence with nothing left over |
| `ActivityLogLayout.HeaderLies` | src/ibp-server/activity_log.c:3248-3276 | time, form, thread and alias lie at their places |
| `ActivityLogLayout.CopyLies` | src/ibp-server/activity_log.c:326-354 | id, size, offset and resource lie where the packed structure puts them, in 32 or 64 bits |
| `ActivityLogLayout.ModeLies` | src/ibp-server/activity_log.c:365-369 | so do command, mode and type, and the second offset behind them |
| `ActivityLogLayout.CapLies` | src/ibp-server/activity_log.c:358-363 | so do port, family and the sizes of the two strings |
| `ActivityLogLayout.TailLies` | src/ibp-server/activity_log.c:401-439 | behind it come address, key, type key and path, to the end |
| `ActivityLogLayout.ShortestForm` | src/ibp-server/activity_log.c:717-742 | the form chosen is the shortest that loses nothing, if and only if no size or offset is the largest 32-bit number |
| `ActivityLogLayout.EncodedLength` | src/ibp-server/activity_log.c:401-439 | the length of a record |
| `ActivityLog.ThreadsReadBackIff` | src/ibp-server/activity_log.c:3202-3209 | with the header's id width for a number of threads, the records of all of these read back if and only if there are at most 65536 |
| `ActivityLog.Log.AppendString16` | src/ibp-server/activity_log.c:374-382 | appends size and string |
| `ActivityLog.Log.AppendDdCopy` | src/ibp-server/activity_log.c:717-742 | appends the record in the form its fields call for |
| `ActivityLog.Log.ReadNextEntry` | src/ibp-server/activity_log.c:3134-3161 | field by field from the file position: where a record in range was written it returns that record and stands behind it; otherwise it agrees with the decoder |

## Left out

- `HostPortal`: the threads' updates in place are functions on values, because the point is how threads interleave; aliasing of connection objects is not captured.
- Host portal queues are unbounded and putting a message on one always succeeds; the code ignores a failed put at `hportal.c:317` and `:1037`.
- Host portal: op coalescing (`before_exec`, `on_submit`), connection history, bandwidth figures and the health check's own rules; a host may be marked dead at any time.
- `HostPortalPass.FindConnToClose`: which of several equally good connections is chosen depends on the order of a hash table and is not characterised.
- Clocks are parameters. `MqConnPortal.Connection.Heartbeat` takes one reading per scan where the code takes one per entry.
- Message queue: malformed messages, which are dropped, tasks without an op, statistics, sockets and polling. Tracked tasks have fresh ids and heartbeat entries fresh lookup ids. A relay forwards a message unchanged.
- `MqConn.TrackAddressKeeps`: takes the address key as given; the code joins the address frames without separators, so two addresses with the same concatenation share an entry.
- `OpQueueLocks.FiresOnceInterleaved`: a report that sets off another holds its queue's lock meanwhile; the model lets others report to that queue in between, of whom there are none left.
- Operation queues: failure callbacks and retries, adding to a queue that has started, `gop_waitany` and the finished lists. Queues are not empty when they start and the parent relation has no cycle, which the ranks express.
- `gop_mark_completed` for coalesced ops, automatic destruction and condition variables.
- Streams: failed requests, the packer, compression, and the server's side.
- Registrations: the hash of a remote host is taken to identify it; shutdown.
- `BufferTransfer.Request.WriteToDisk`: only byte-array allocations; a failed write reports code 1, as the plain file device does, and is taken to store nothing of its piece. Failing to open an allocation changes nothing and is not modelled.
- `BufferTransfer.Request.ReadFromDisk`: another writer between two calls is not modelled; a failed read is taken to leave all of its part of the buffer as it was.
- Allocation locks: threads do nothing else with the mutex table, and allocations are not truncated.
- `AllocLock.NoLostUpdateIff`: the PULL branch of a transfer is the same size update; its transfer loop is not modelled.
- Activity log: records other than copies, and printing; a read that would overrun a buffer is taken to fail. Numbers are stored lowest byte first.
- Sockets, ZeroMQ, DNS, Phoebus, Berkeley DB, configuration, the file system tools and everything in `src/lio`: foreign libraries, input and output, or code without the kind of invariants treated here.
