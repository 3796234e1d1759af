# Verification of the DNS proxy's core

This project models, in Dafny, the parts of the DNS proxy whose correctness depends on
interleaving, on byte-exact streaming or on agreement between components, and proves what they
keep over all runs and all inputs. `dafny verify dfyconfig.toml` checks all of it.

| Part | Modules | Source |
|---|---|---|
| Bounded QUIC / HTTP-3 connection pool | PoolProtocol, PoolOwnership, PoolInvariant, PoolBounds, PoolRefinement, PoolRecency, PoolCapacity, PoolEviction, PoolOverload, PoolWitnesses, ConnectionPool | src/upstream/quic_pool.rs |
| Task supervisor | Supervisor, SupervisorTheorems, SupervisorOrder, StateLock, TaskGroup | src/tasks.rs |
| Admission limits of a DoQ listener | Permits, Admission, AdmissionTotals, DoqListener | src/readers/doq.rs |
| Startup, readiness, shutdown | Lifecycle, LifecycleTheorems, LifecycleFlags, Application | src/app.rs |
| The application with its task groups | AppShutdown, AppShutdownTheorems, OutlivingChildren | src/app.rs, src/tasks.rs |
| DoQ framing and relay | Framing, Streams, DoqRelay | src/upstream/quic.rs |
| DoT relay | DotRelay | src/readers/dot.rs |
| Bounded HTTP bodies | BodyCollection | src/proxy/http.rs, src/readers/doh3.rs, src/upstream/quic.rs |
| Names, rewriting, certificates | DnsNames, NameText, Rewriter, BaseOrder, Certificates | src/config.rs, src/rewriters/base.rs, src/tls_utils.rs |
| Backoff | Backoff | src/utils/backoff.rs |

## How concurrency is modelled

Each concurrent component is a state machine whose actions are the atomic sections of the code:
what happens between taking and releasing a lock, one operation on a semaphore or an `Arc`, one
load or store of a shared flag. The long section of `acquire_slot` is one action for each entry it
tests, because leases are dropped and connections die without the lock. A run is any sequence of
enabled actions, so a lemma about runs
holds for every interleaving, including a future dropped at any await, a connection that dies at
any moment and a task aborted before it ends. Beside each machine stands a class whose fields are
the fields of the source's object and whose methods are its sections; the contract of a method
names the action it performs, or records its steps in a history that must be a run, so the lemmas
about runs apply to every sequence of calls.

The QUIC pool and the HTTP-3 pool are one protocol with two liveness tests; both tests are
monotone, and the set of live connections stands for either.

What the network, the clock, the scheduler and hash-map iteration choose is a parameter or a
nondeterministic choice.

## What was found

These statements look true of the code and are not; each has a lemma with a concrete run or input,
and beside it the exact condition under which the code does meet the statement.

- A permit that an eviction frees can be taken by another call before the evicting one tries
  again, which then fails with `Overloaded` (`PoolWitnesses.FreedPermitCanBeStolen`). Undisturbed,
  `acquire_slot` fails exactly if no permit is free and every cached entry is borrowed.
- `invalidate` takes the key, not the failed session, so it can throw out a live session that
  replaced the failed one; it spares every other session exactly if nothing else is cached.
- `get` can return a dead lease: it does exactly if it publishes a connection that has died since the
  handshake while the key has no live entry.
- Only the caller that flips `closed` waits in `close_and_wait_until`; for every other caller the
  group is drained on return exactly if it was when the call began. So `App::shutdown` can leave
  children behind: a listener that closes its group first and is then aborted drops the close it
  waits in. When the application closes a group it can rely on the end of its children exactly if
  it finds the group open or without children.
- README.md:490-492 promises that `/ready` becomes unavailable if an ingress task exits. The code
  clears `ready` only when a listener returns an error before cancellation. A listener that returns
  without error stays invisible; a failure between the check of `failed` (src/app.rs:170) and the
  store to `ready` (src/app.rs:176) is overwritten; and since the cancellation token is never
  renewed, no failure is recorded in a start that follows a shutdown. After a successful start
  `ready` is, or is about to be, false exactly if a listener was in the middle of recording a
  failure when it was set, or one has returned an error since and shutdown was never called before.
- The two admission limits do not multiply into a global one: a stream task can outlive its
  connection's handler, whose permit then admits another connection. The product bounds the stream
  tasks as long as every connection that has one still has its handler. The converse does not hold:
  after a handler has ended the bound is kept until its permit admits a connection with streams.
- The HTTP/3 response collector copies the first contiguous slice of each chunk only, and counts what
  it copied; it agrees with the other two exactly if it rejects the body, or the body is within the
  limit and every chunk of a body delivered in full is contiguous.
- The rewriter does not check labels, so `www..example.com` is rewritten to a target that is no DNS
  name; the target is a valid name exactly if the prefix consists of labels and the result fits.
- The first base that matches wins, not the longest; they agree for every name exactly if no base
  first occurs after one of its parents. Names under different bases can share a target; none do
  exactly if every base is the first one or lies under it.
- Certificates configured under names that differ only in case are loaded in hash-map order; the
  loaded map is independent of that order exactly if such names share one certificate.

## Model

| member | source | states |
|---|---|---|
| PoolInvariant.StepInv | src/upstream/quic_pool.rs:247-334 | Every atomic section of `get`, `acquire_slot` and `invalidate`, every clone or drop of a lease, every death, failure or cancellation keeps the ownership invariant: a slot's strong count is the number of its holders, pending, evicting and cached holders exclude each other, and free permits plus live slots make up the limit |
| PoolInvariant.ReachableInv | src/upstream/quic_pool.rs:121-226 | The same for every state of every run, from an empty pool |
| PoolBounds.SlotConservation | src/upstream/quic_pool.rs:247-327 | In every reachable state free permits and distinct live slots add up to `max_entries`, each strong count is its number of holders, connections and handshakes together stay within the limit, and with no call running and no lease out the missing permits are exactly the cached entries |
| PoolBounds.ConnectionsBounded | src/upstream/quic_pool.rs:38-40 | Distinct open connections plus handshakes in progress never outnumber the allocated slots |
| PoolBounds.OpenConnectionIff | src/upstream/quic_pool.rs:21-26 | The connections counted are exactly those of the map, of the leases outside the pool, and of the calls that have made one, lost a race with one, or evict one |
| PoolBounds.QuiescentPermits | src/upstream/quic_pool.rs:16-26 | With no `get` running and no lease out, free permits are the limit minus the cached entries |
| PoolOwnership.ReleaseSlot | src/upstream/quic_pool.rs:16-26 | Dropping any holder's reference keeps the count of every slot equal to its holders and gives a permit back only with the last one |
| PoolRefinement.Refines | src/upstream/quic_pool.rs:253-305 | Every section is one step of an atomic cache: a returned lease is the one the map holds for the key at that point, or a new one that nobody else holds and that the map holds from then on |
| PoolRefinement.RunRefines | src/upstream/quic_pool.rs:121-198 | Seen from outside, every run of the pool is a run of the atomic look-up-or-insert cache |
| PoolRefinement.RacingGetsConverge | src/upstream/quic_pool.rs:287-305 | While a key's cached connection lives and neither `invalidate` nor an eviction takes the entry, the entry stays and every `get` of the key returns it |
| PoolRefinement.LivenessIsMonotone | src/upstream/quic_pool.rs:61-68 | A connection that has been opened and is dead never becomes alive again |
| PoolRefinement.MadeIsFresh | src/upstream/quic_pool.rs:276-285 | A connection about to be published shares neither its slot nor its connection with a cached entry |
| PoolRecency.ResultsAreReturns | src/upstream/quic_pool.rs:253-305 | Whoever newly holds a lease has cloned one, or one of the three look-ups has returned it as the result for its key |
| PoolRecency.ReturnTouches | src/upstream/quic_pool.rs:256-261 | A call that returns a lease leaves it cached under the key with the time of the call, in each of the three look-ups |
| PoolRecency.OthersDoNotTouch | src/upstream/quic_pool.rs:247-334 | No other step changes an entry that stays, its time included, or adds one |
| PoolRecency.LastUsedIsLastReturn | src/upstream/quic_pool.rs:287-304 | In every run an entry carries the time of the last call that returned a lease for its key |
| PoolOwnership.IdleMeansUnborrowed | src/upstream/quic_pool.rs:33-35 | `is_idle`, a test of a reference count, holds exactly if no caller outside the pool holds the entry's slot |
| PoolEviction.EvictionIsSafeAndExact | src/upstream/quic_pool.rs:308-323 | Whatever steps fall between the tests of one locked section: the victim was alive when the lock was taken and is unborrowed when it is taken out, and the last call that returned it did so no later than the last call that returned any remaining entry unborrowed at the start; every other entry that is gone is dead, the rest are unchanged |
| PoolEviction.NoVictimMeansBorrowed | src/upstream/quic_pool.rs:313-321 | A section that finds no victim leaves only entries that were borrowed when it began |
| PoolInvariant.IdleStays | src/upstream/quic_pool.rs:315-320 | Idleness seen under the lock survives every step that others can take while it is held |
| PoolOverload.OverloadedMeansExhausted | src/upstream/quic_pool.rs:308-327 | With no step of anybody else in between, `acquire_slot` fails exactly if no permit is free and every cached entry, live or dead, is borrowed |
| PoolCapacity.IdlenessLasts | src/upstream/quic_pool.rs:204-214 | From the lock's release until its drop the evicted slot has the evicting call as its only holder |
| PoolCapacity.DroppingEvictedFreesOne | src/upstream/quic_pool.rs:308-323 | Dropping the evicted lease returns exactly one permit |
| PoolCapacity.LoserIsReleased | src/upstream/quic_pool.rs:287-298 | A call that lost the race gives its slot, its permit and its own connection back |
| PoolCapacity.AbandonedGetReleases | src/upstream/quic_pool.rs:276-285 | A call can be cancelled wherever it waits for the lock or connects; then, or if connecting fails, it returns one permit if it had reserved a slot and none otherwise, owns nothing afterwards and leaves map and leases as they were |
| PoolCapacity.OverloadedMeansAllHeld | src/upstream/quic_pool.rs:22-25 | In any interleaving `Overloaded` is returned exactly if all slots are allocated, and each of them has a holder |
| PoolCapacity.InvalidateFreesUnborrowed | src/upstream/quic_pool.rs:329-334 | Invalidating frees a permit exactly if the entry exists and nobody borrows it |
| PoolCapacity.BorrowerKeepsSlot | src/upstream/quic_pool.rs:22-25 | In every reachable state a borrowed lease's slot is allocated, cached or not |
| PoolCapacity.InvalidateSparesOthers | src/upstream/quic.rs:285-288 | Invalidating after a borrower's session failed spares every other session exactly if the key's entry, if any, is that session |
| PoolCapacity.GetAdvances | src/upstream/quic_pool.rs:247-327 | Every step of a call ends it or brings it nearer to its end |
| PoolCapacity.OthersDoNotDisturb | src/upstream/quic_pool.rs:247-327 | No step of another call or of the surroundings sets a call back, not even in what it has still to test under the lock |
| PoolCapacity.HolderGoesOn | src/upstream/quic_pool.rs:312-321 | A call that holds the lock over several tests can always take its next step |
| PoolWitnesses.FreedPermitCanBeStolen | src/upstream/quic_pool.rs:318-327 | A reachable state in which a cached live entry is idle, and eight steps after which the call that evicted it has failed with `Overloaded` |
| PoolRefinement.DeadResultIff | src/upstream/quic_pool.rs:253-305 | `get` returns a dead lease exactly if it publishes a connection that died after the handshake while the key has no live entry; both look-ups return live leases only |
| PoolWitnesses.InvalidateCanTakeALiveSession | src/upstream/quic_pool.rs:329-334 | A reachable state in which invalidating after the failure of an old session removes a live newer one |
| PoolWitnesses.ReturnedLeaseCanBeDead | src/upstream/quic_pool.rs:285-305 | A run in which `get` returns a connection that is already dead |
| ConnectionPool.Pool.LookUpSection | src/upstream/quic_pool.rs:254-263 | The first locked section: a live entry is returned and carries the time of the call, anything else under the key is removed, and no other entry changes |
| ConnectionPool.Pool.RetainOneSection | src/upstream/quic_pool.rs:313-314 | One test of `retain`: the entry stays exactly if its connection is alive |
| ConnectionPool.Pool.ScanOneSection | src/upstream/quic_pool.rs:315-318 | One test of the scan: the candidate becomes the entry if that is idle and strictly older |
| ConnectionPool.Pool.PickSection | src/upstream/quic_pool.rs:319-321 | Takes the candidate out of the map and gives the lock back |
| ConnectionPool.Pool.AcquireSlotAlone | src/upstream/quic_pool.rs:308-327 | The whole of `acquire_slot`, undisturbed, succeeds exactly if a permit is free or some cached entry is unborrowed |
| ConnectionPool.Pool.LookAgainSection | src/upstream/quic_pool.rs:266-274 | The second look-up returns the live entry and stamps it, or leaves the map alone and goes on with the reserved slot |
| ConnectionPool.Pool.PublishSection | src/upstream/quic_pool.rs:287-305 | The third look-up returns the live entry, or installs and returns the new connection; either way the map holds what the caller got with the time of the call |
| ConnectionPool.Pool.DropFuture | src/upstream/quic_pool.rs:276-285 | A future dropped at any await gives back what it owns and keeps the invariant |
| ConnectionPool.Pool.InvalidateKey | src/upstream/quic_pool.rs:329-334 | Removes the key's entry and no other, and drops its lease |
| Supervisor.StepInv | src/tasks.rs:39-91 | Every step keeps the queue's order (Shutdown only at its end), and every accepted task in exactly one of queue, JoinSet, joined and orphaned |
| Supervisor.ReachableInv | src/tasks.rs:39-121 | The same for every state of every run |
| SupervisorTheorems.CompletedMeansDrained | src/tasks.rs:75-88 | When `completed` fires, every accepted task has ended and been joined and the queue is empty |
| SupervisorTheorems.NoAcceptedSpawnIsLost | src/tasks.rs:39-55 | A spawn is accepted exactly while the group is open; an accepted task is joined by completion and a refused one never runs |
| SupervisorOrder.StartedInOrder | src/tasks.rs:52-69 | In every run a task accepted before another is started before it |
| SupervisorTheorems.OneShutdown | src/tasks.rs:99-116 | No run sends Shutdown twice |
| SupervisorTheorems.EverySpawnPrecedesShutdown | src/tasks.rs:40-43 | When the actor receives Shutdown it is the only command left, and every task the group will ever accept has been started |
| SupervisorTheorems.OnlyTheFirstCloserWaits | src/tasks.rs:99-121 | `close_and_wait_until` returns with the group drained exactly if the caller was the one that flipped `closed`, or the group was drained already |
| SupervisorTheorems.SecondCloserDoesNotWait | src/tasks.rs:102-104 | A run in which a second caller returns while a child still runs |
| SupervisorTheorems.MeasureDecreases | src/tasks.rs:60-88 | After closing, every step of the actor or of a task lowers a measure of queue, tasks and phase, and no caller raises it |
| SupervisorTheorems.DrainingIsBounded | src/tasks.rs:75-88 | From any closed state a run has at most that many such steps left, whatever interleaves |
| SupervisorTheorems.ClosingNeverSticks | src/tasks.rs:75-88 | Until a close has been dealt with some such step is possible, also after its caller is gone; a task is waited for without bound only after it was aborted |
| StateLock.ReachableInv | src/tasks.rs:39-109 | With the state lock and its waiting callers: the owner is one of the calls, every call borrows an existing group, calls offer distinct fresh tasks, and a child that calls is alive |
| StateLock.RunProjects | src/tasks.rs:43-54 | Every run with the lock is, seen without it, a run of the supervisor, so all results about the supervisor hold |
| StateLock.OwnerCanRelease | src/tasks.rs:43-54 | Whoever holds the lock can release it, whatever the queue, the tasks, the phase of the actor and the closer are: nothing is awaited while it is held |
| StateLock.CallersGoOn | src/tasks.rs:100-107 | As long as a call waits for the lock, the lock can be taken or given back |
| StateLock.ClosingNeverSticks | src/tasks.rs:60-88 | A close makes progress even if every running child waits for the lock and cannot end; the end of a child is waited for only once it is aborted and makes no call |
| StateLock.DrainingIsBounded | src/tasks.rs:75-88 | From any closed state the advancing steps, those of the lock included, are at most a measure plus two for every call still made |
| TaskGroup.Group.SpawnCommand | src/tasks.rs:39-55 | Queues the task and starts the actor if needed, or drops the task if the group is closed |
| TaskGroup.Group.FlipClosed | src/tasks.rs:99-109 | Closes the group; the caller must send Shutdown exactly if it was open and had an actor |
| TaskGroup.Group.AbandonTheWait | src/tasks.rs:111-120 | Dropping the future that waits for completion leaves the actor and its tasks as they are |
| TaskGroup.Group.ReceiveCommand | src/tasks.rs:60-74 | Takes the oldest command: a task joins the JoinSet, Shutdown starts the drain |
| TaskGroup.Group.Drain | src/tasks.rs:75-88 | Joins until the deadline, aborts the rest and joins them, by supervisor steps only; ends with everything accepted joined, and a closer that still waits released |
| Permits.EndConserves | src/readers/doq.rs:124-125 | A task that ends gives back exactly the permits it owned; the others' stay accounted for |
| Permits.AcceptConserves | src/readers/doq.rs:112-125 | A permit moved into an accepted task stays accounted for |
| Permits.RefuseConserves | src/tasks.rs:44-46 | A permit moved into a task that a closed group drops is back at once |
| Admission.StepInv | src/readers/doq.rs:106-166 | Every step of the loops and of the supervisor keeps the permit ledger balanced |
| Admission.AdmissionBounds | src/readers/doq.rs:97-166 | In every reachable state at most `max_connections_per_listener` handlers and, per connection, at most `max_inflight_requests_per_connection` stream tasks are outstanding, and every missing permit is accounted for |
| Admission.CompletionReturnsPermits | src/readers/doq.rs:168-172 | When the group reports completion every task's permit is back |
| AdmissionTotals.TotalStreams | src/readers/doq.rs:225-250 | In every reachable state the outstanding stream tasks of all connections number at most the stream limit times the connections that have one |
| AdmissionTotals.GlobalBound | src/readers/doq.rs:97-166 | They number at most connections times streams as long as each such connection still has its handler; every connection that has lost it adds at most its own limit |
| AdmissionTotals.StreamsOutliveConnections | src/readers/doq.rs:225-284 | With limits of one connection and one stream, a run in which two stream tasks are running, through a state in which the bound still holds although a handler is gone |
| DoqListener.Listener.SpawnConnection | src/readers/doq.rs:112-125 | The accept loop's spawn: the permit moves into the task, or comes back if the group is closed |
| DoqListener.Listener.SpawnStream | src/readers/doq.rs:233-247 | The same for a stream task and its connection's semaphore |
| DoqListener.Listener.EndTask | src/readers/doq.rs:246-247 | A task that ends, in whatever way, returns its permits and keeps the ledger |
| Lifecycle.StepInv | src/app.rs:46-239 | Every step of start, shutdown and the listeners keeps track of who runs, which reports have been seen, and what `ready` implies |
| LifecycleTheorems.ReadyMeansAllBound | src/app.rs:111-182 | Whenever `ready` is set, every enabled listener of the latest start has reported that it is bound |
| LifecycleFlags.ReportsAreTrue | src/app.rs:194-200 | In every run a readiness channel holds a success exactly if its listener has reported one, and a refusal exactly if it has reported that |
| LifecycleFlags.ReadyMeansAllReported | src/app.rs:154-176 | Whenever `ready` is set, every enabled listener of the latest start has reported success |
| LifecycleFlags.FailedMeansRecorded | src/app.rs:200-206 | `failed` is set exactly if a listener has recorded a failure since a start last reset it |
| LifecycleFlags.CancelledMeansShutdown | src/app.rs:213-215 | The token is cancelled exactly if some shutdown has cancelled it |
| LifecycleTheorems.PublishFollowsCleanCheck | src/app.rs:170-176 | That step follows a check that found `failed` clear with all listeners bound; only listeners ran in between |
| LifecycleTheorems.ReadyWasChecked | src/app.rs:154-181 | Whenever the application is ready, some start found all its listeners bound and `failed` clear, only listeners acted until it set `ready`, and `ready` has been set ever since |
| LifecycleTheorems.EarlyFailureFailsStart | src/app.rs:154-175 | A failure recorded before the check, or a listener that refuses or loses its readiness channel, makes this start return an error and leaves the application not ready until the next call |
| LifecycleTheorems.FailureHasCause | src/app.rs:154-175 | Conversely a start that turns to failure was at some point before its check in exactly such a state |
| LifecycleTheorems.ReadyUntilListenerFails | src/app.rs:200-206 | After a successful start, and until the next call, `ready` is or is about to be false exactly if a listener was already failing when it was set, or one has returned an error since and shutdown was never called before |
| LifecycleTheorems.NothingIsRecordedAfterShutdown | src/app.rs:200-206 | Once shutdown has cancelled, in every later start `failed` is never set and only the caller clears `ready` |
| LifecycleTheorems.FailureAfterRestartIsLost | src/app.rs:200-206 | A run with a start after a shutdown that ends ready, with `failed` clear, although its only listener failed |
| LifecycleTheorems.CancelledForGood | src/app.rs:213-215 | The cancellation token stays cancelled in every later start |
| LifecycleTheorems.FailureInTheWindowIsLost | src/app.rs:170-176 | A run that ends ready although its only listener failed |
| LifecycleTheorems.QuietExitLeavesReady | src/app.rs:200-206 | A run that ends ready although its only listener returned |
| LifecycleTheorems.ShutdownStopsEverything | src/app.rs:213-239 | When shutdown ends every listener ever spawned is done, handles and groups are empty, and the application is not ready; what becomes of the children is stated in the rows of AppShutdownTheorems and OutlivingChildren |
| LifecycleTheorems.StoppedUntilStart | src/app.rs:213-239 | It stays so until start is called again |
| LifecycleTheorems.ShutdownDecreases | src/app.rs:224-236 | During shutdown every step, the caller's or a listener's, lowers a measure or ends the shutdown |
| LifecycleTheorems.ShutdownNeverSticks | src/app.rs:224-236 | And some step of the shutdown is always possible: late handles are aborted |
| AppShutdown.ReachableInv | src/app.rs:213-239 | The application composed with one supervisor per listener: in every reachable state each group is open or closed by one party, a close of the application is waited for before its handles are joined, and a close is abandoned only by an aborted listener |
| AppShutdownTheorems.ChildrenWhenShutdownEnds | src/app.rs:220-236 | When shutdown ends a group is drained if the application closed it, or if the listener did and its close returned; otherwise the listener was aborted in its close, and the children are gone exactly if those it left have been joined since |
| OutlivingChildren.RelianceOnClose | src/app.rs:220-226 | When the application closes a group, every way the shutdown can go on ends without children of it exactly if the group was open or had none |
| OutlivingChildren.ChildOutlivesShutdown | src/app.rs:228-236 | A run in which a listener closes first, is aborted, and a child still runs when shutdown has ended |
| Application.App.Start | src/app.rs:46-182 | With listeners acting between any two steps: with a valid configuration and certificates it fails exactly if at some point before its check `failed` was set or a listener of this start refused or lost its readiness channel; success means all listeners bound, failure leaves nothing ready and, after spawning, nothing running |
| Application.App.AwaitReadiness | src/app.rs:154-169 | Reads the channels in order; ends early only with some report that is not a success |
| Application.App.Shutdown | src/app.rs:213-239 | Ends stopped: not ready, cancelled, all listeners done, nothing tracked |
| Framing.FrameRoundTrip | src/upstream/quic.rs:142-161 | Reading a written frame returns its message and leaves what followed |
| Framing.EncodeIsBigEndian | src/upstream/quic.rs:147-160 | On the wire a frame is its length in two octets, the higher first, and the message |
| Framing.FrameUnique | src/upstream/quic.rs:107-140 | A frame that was read is the encoding of a message of 1 to 65535 bytes |
| Framing.StreamRoundTrip | src/upstream/quic.rs:107-161 | Reading the concatenation of any written frames returns the same messages, then the end |
| Framing.StreamUnique | src/upstream/quic.rs:107-140 | A stream is read through to its end exactly if it is the concatenation of its decoded frames followed by FIN |
| Framing.EncodingInjective | src/upstream/quic.rs:142-161 | Two message sequences with one encoding are equal |
| Framing.TruncationNoticed | src/upstream/quic.rs:122-138 | A stream cut short is accepted exactly if the cut falls between two frames |
| Framing.FramesThenTail | src/upstream/quic.rs:107-140 | Every stream is a sequence of frames followed by a proper beginning of a frame, possibly empty, or by an empty frame |
| Framing.CutStream | src/upstream/quic.rs:111-138 | A stream that ends within a frame gives a timeout if it stalled, and otherwise the error for a cut length or a cut message; after whole frames and FIN it gives none |
| Framing.EmptyFrameInStream | src/upstream/quic.rs:124-129 | An empty frame is an error after any frames and whatever follows |
| Framing.TimeoutMeansStalled | src/upstream/quic.rs:111-138 | Reading times out only if the stream stalled |
| Streams.RecvStream.ReadExact | src/upstream/quic.rs:111-113 | Filling a buffer depends on the bytes and the end of the stream alone, not on its chunks |
| DoqRelay.OneQueryPerStream | src/upstream/quic.rs:85-105 | A query is accepted exactly from a stream that is one frame of at least 12 bytes with ID zero, followed by FIN |
| DoqRelay.CutQuery | src/upstream/quic.rs:85-88 | A stream that ends within its first frame is rejected as missing, timed out or cut, by where and how it ended |
| DoqRelay.CutAfterQuery | src/upstream/quic.rs:99-104 | So is one that ends within a second frame after a valid query; with nothing but FIN after it the query is accepted |
| DoqRelay.WholeFrameRejected | src/upstream/quic.rs:89-103 | A whole first frame is rejected as too short, as having an ID, or for what follows it |
| DoqRelay.QueryTimeoutMeansStalled | src/upstream/quic.rs:85-105 | Reading the query times out only if the client stalled |
| DoqRelay.RelayIsTransparent | src/upstream/quic.rs:68-79 | The frames relayed are valid messages whose encoding is a prefix of the upstream's bytes; no error is met exactly if they are all of them, then FIN |
| DoqRelay.RelayComplete | src/upstream/quic.rs:22-28 | Every sequence of valid messages is relayed in full |
| DoqRelay.CutRelay | src/upstream/quic.rs:68-79 | An upstream stream that ends within a frame has its valid messages relayed and gives the error that its cut and its end determine |
| DoqRelay.BadFrameEndsRelay | src/upstream/quic.rs:68-74 | An empty frame, or one shorter than a header or with an ID, ends the relay after the valid messages before it |
| DoqRelay.RelayTimeoutMeansStalled | src/upstream/quic.rs:68-79 | The relay's reading times out only if the upstream stalled |
| DoqRelay.ReadDoqFrame | src/upstream/quic.rs:107-140 | Under any chunking: the next message, the end, or the error that the bytes and the stream's end determine |
| DoqRelay.WriteDoqFrame | src/upstream/quic.rs:142-161 | Writes the frame as far as the stream lets it through, and reports an error exactly if that is not all of it |
| DoqRelay.ReadDoqQuery | src/upstream/quic.rs:85-105 | The loop over the stream returns what the reading of its bytes as a query says |
| DoqRelay.RelayResponses | src/upstream/quic.rs:68-79 | The client gets exactly the acceptable frames, cut only where its own stream fails; the byte count is what it got |
| DoqRelay.ForwardQuicStream | src/upstream/quic.rs:19-83 | Completes exactly if the query is well-formed, the upstream stream opens, all response frames are acceptable and both peers take all bytes; then both directions are byte-identical, closed and counted. In every other case: what each peer saw, the error, and whether the pool entry was invalidated |
| DotRelay.RelayDirection | src/readers/dot.rs:313-344 | Output is a prefix of input; the call succeeds exactly if every single operation meets the idle timeout, and has then copied and counted the whole input and half-closed the writer; otherwise the first operation that fails decides the error |
| DotRelay.LongTransfersComplete | src/readers/dot.rs:310-312 | For every duration there is a transfer that takes longer and completes |
| DotRelay.OneBadOperationFails | src/readers/dot.rs:325-342 | One read, write or half-close that exceeds the timeout or fails makes the transfer fail, however fast the rest |
| DotRelay.AllGoodCompletes | src/readers/dot.rs:325-342 | A transfer all of whose operations succeed in time completes |
| DotRelay.OneMoreRead | src/readers/dot.rs:326-337 | Each read adds exactly its data to the input; FIN or a failure ends it |
| BodyCollection.CollectWithProgress | src/proxy/http.rs:88-116 | Equals "concatenate all data, fail above 65535", and rejects at the first chunk that crosses the limit |
| BodyCollection.CollectRequestBody | src/readers/doh3.rs:431-464 | The same, with the saturating test and the slice-by-slice copy |
| BodyCollection.ConcatAppend | src/proxy/http.rs:105-113 | The reference is the data of the events one after the other, however they are grouped |
| BodyCollection.CollectResponseBody | src/upstream/quic.rs:237-254 | Never keeps more than 65535 bytes and rejects at the first chunk that does not fit beside what was kept; otherwise returns the first slices |
| BodyCollection.ThirdRejectsIff | src/upstream/quic.rs:245-253 | It rejects exactly if some chunk does not fit beside the first slices kept before it, and otherwise returns those |
| BodyCollection.KeptOne | src/upstream/quic.rs:253 | Of each chunk exactly the first slice is kept |
| BodyCollection.ThirdAgreesIff | src/upstream/quic.rs:245-254 | For every body: it agrees with the reference exactly if it rejects the body, or the body is within the limit and, when delivered in full, every chunk is contiguous |
| BodyCollection.ThirdAgreesOnContiguous | src/upstream/quic.rs:245-254 | It agrees on every body of contiguous chunks |
| BodyCollection.LongBodyIsCut | src/upstream/quic.rs:245-254 | A body over the limit that is accepted, cut to two bytes |
| BodyCollection.SecondSliceIsLost | src/upstream/quic.rs:253-254 | A chunk of two slices of which it keeps one |
| DnsNames.SplitIsExact | src/config.rs:455-468 | Splitting a name at its dots loses nothing and leaves no dot in a label |
| NameText.NameIsText | src/config.rs:455-468 | Character by character: a name is valid exactly if it has 1 to 253 characters, all lower-case letters, digits, hyphens or dots, a letter or digit at both ends and on both sides of every dot, and no piece of more than 63 characters without a dot |
| DnsNames.SplitAtDot | src/config.rs:455-468 | The labels of a name are those of its two parts around any of its dots |
| DnsNames.NormalizeKeepsNames | src/rewriters/base.rs:62-63 | Normalisation leaves a valid name as it is |
| DnsNames.SpellingsNormalize | src/rewriters/base.rs:62 | Every spelling of a name, some of its letters in upper case, normalises to the name |
| DnsNames.DotsAreTrimmed | src/rewriters/base.rs:62 | Any number of trailing dots makes no difference |
| DnsNames.ParentMeaning | src/tls_utils.rs:165-169 | A name is a parent of another exactly if the other is something, a dot and the name |
| DnsNames.TargetIsValid | src/config.rs:470-472 | Exchanging the base of a valid name for a valid suffix gives a valid name exactly if it is at most 253 bytes long |
| DnsNames.TargetIsValidIff | src/rewriters/base.rs:33-35 | For any prefix, prefix and suffix make a valid name exactly if the prefix consists of labels and the result fits |
| Rewriter.FirstPrefixIsFirstMatch | src/rewriters/base.rs:18-31 | Returns a prefix exactly if it is the nonempty one in front of the first base that matches |
| Rewriter.RewriteIffUnderABase | src/rewriters/base.rs:40-89 | A name is rewritten exactly if its characters and the suffix pass the checks and it is a nonempty prefix, a dot and some base |
| Rewriter.RewriteIffPrefixDotBase | src/rewriters/base.rs:40-89 | The same with the characters and the concatenation spelled out |
| Rewriter.SpellingsRewriteAlike | src/rewriters/base.rs:62-88 | Every spelling of a name is rewritten alike |
| BaseOrder.FirstBaseWins | src/rewriters/base.rs:18-35 | The prefix is the one in front of the first base in the list that has a nonempty one, and the target is that prefix and the suffix |
| Rewriter.RewriteUsesFirstBase | src/rewriters/base.rs:62-88 | The prefix is the one before the first such base and the target is prefix and suffix |
| Rewriter.RewriteIsInjectivePerBase | src/rewriters/base.rs:33-35 | Two names rewritten under one base have one target exactly if they normalise to one name |
| Rewriter.ValidConfigIsStoredUnchanged | src/rewriters/base.rs:10-16 | The constructor changes nothing in a configuration that passed validation |
| Rewriter.ValidNamesStayValid | src/config.rs:396-414 | With a validated configuration the target of a valid name is valid exactly if it is at most 253 bytes long |
| Rewriter.AnyPrefixGoesThrough | src/rewriters/base.rs:62-88 | Any prefix of host characters is rewritten; the target is a name exactly if the prefix consists of labels and the result fits |
| Rewriter.EmptyLabelsGoThrough | src/rewriters/base.rs:18-31 | An empty label is carried into a target that is no DNS name, whatever the base and suffix |
| BaseOrder.LongestWinsIff | src/rewriters/base.rs:18-31 | The first base that matches is for every name a longest one exactly if no base first occurs after one of its parents |
| BaseOrder.RewriteIsInjectiveIff | src/rewriters/base.rs:62-88 | With a validated configuration different names have different targets exactly if every base is the first one or lies under it |
| Rewriter.BaseSniRewriter.constructor | src/rewriters/base.rs:10-16 | Normalises every base in place and lowers the suffix |
| Rewriter.BaseSniRewriter.ExtractPrefix | src/rewriters/base.rs:18-31 | The loop over the bases finds the prefix under the first base that matches |
| Rewriter.BaseSniRewriter.RewriteSni | src/rewriters/base.rs:40-89 | Returns what the rewrite function says of the stored configuration |
| Certificates.GetCertForDomain | src/tls_utils.rs:155-177 | Visiting the map in any order finds the certificate of the name itself, else of its longest configured parent, else the default |
| Certificates.LookupIsDeterministic | src/tls_utils.rs:162-173 | The result does not depend on the order of the visit: parents of one name with one length are equal |
| Certificates.LookupResult | src/tls_utils.rs:155-177 | The certificate of the very name comes first; else that of a configured parent no other exceeds in length; else the default |
| Certificates.SpellingsShareCertificate | src/tls_utils.rs:156 | Every spelling of a name has the same certificate |
| Certificates.FallbackIffNothingConfigured | src/tls_utils.rs:157-176 | The default is used exactly if neither the name nor any parent of it is configured |
| Certificates.RewrittenNamesAreCovered | src/tls_utils.rs:155-177 | A name rewritten under a base that is a certificate key is served by its own key or by a parent at least as long as the base |
| Certificates.DottedKeysAreDead | src/tls_utils.rs:76-91 | A configured key that ends with a dot is never selected |
| Certificates.LoadingIsDeterministicIffConsistent | src/tls_utils.rs:76-91 | The loaded map is independent of the iteration order exactly if keys that differ only in case have one certificate |
| Certificates.CertificateResolver.New | src/tls_utils.rs:76-91 | Fails exactly if the default or some configured certificate does not load; otherwise stores every certificate under its lower-case name, in some order |
| Backoff.DelayBounds | src/utils/backoff.rs:28-37 | Every delay lies between the smaller of base and maximum, and the maximum |
| Backoff.DelayIsCappedPower | src/utils/backoff.rs:28-37 | With saturation at 64 bits the delay is the minimum of base times a capped power of two and the maximum |
| Backoff.DelayDoubles | src/utils/backoff.rs:33-35 | The first delay is the base, each further one up to the tenth is twice the one before, and it stays from there; all capped at the maximum |
| Backoff.Delays | src/utils/backoff.rs:84-91 | Sequentially every eleventh delay is the base and every other one twice the one before, capped at the maximum |
| Backoff.CounterBounded | src/utils/backoff.rs:84-91 | Under any interleaving the counter is at most 10 plus the callers that still owe a reset |
| Backoff.OneCaller | src/utils/backoff.rs:84-91 | One caller at a time takes the counter from 0 to 10 and back |
| Backoff.CounterDoesNotWrap | src/utils/backoff.rs:84-91 | So it cannot wrap unless about 2^32 callers owe one at once |

## Left out

- TLS, QUIC, HTTP/3 and hyper, name resolution and handshakes: library code; connecting is a
  nondeterministic success or failure, liveness a flag that only falls.
- src/upstream/pool.rs: its bound is a check before an insert in a concurrent map and holds only
  sequentially, where it is easy.
- Loading of certificates, CA bundles and TOML, and the ports, addresses and file checks of the
  configuration: I/O and single comparisons.
- Base64, URI, Host and Content-Type handling, and the header check of `validate_dns_message`: library
  calls or single branches.
- Metrics, health endpoints, logging and HTTP status codes: no effect on the state modelled.
- The DoH and DoT accept loops and src/server.rs: repeats of the admission pattern of the DoQ listener.
- Wrap-around of the 64-bit byte counters: transfers of that size are out of reach.
- Time in the pool: `last_used` is any number, so the proofs do not need a monotone clock.
- Cancellation in the middle of a relay or a body: the streams are dropped with the future, and only
  what was already written can be observed, which the prefix properties cover.
- Dropping the futures of `start` and `shutdown` themselves: the application runs them to their end.
- Application.App.Shutdown: the object closes its task groups in one step; the groups themselves, and
  what the application waits for, are in AppShutdown and its theorems.
- AppShutdown.ReachableInv: the state lock of a group is left out there, because by
  StateLock.RunProjects it adds no behaviour.
- Wall-clock deadlines: a deadline may pass at any moment, so nothing relies on the listener's ten
  seconds being shorter or longer than the application's.
- Streams.SendStream: how many bytes the peer lets through before the stream fails is a constant
  fixed in advance, which stands for every possible behaviour of the peer in one finite transfer.
- DnsNames.Normalize: a string is its UTF-8 bytes; a multi-byte character fails the host character
  check, as it does in the source.
