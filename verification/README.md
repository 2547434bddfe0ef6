# hpserver, modelled and proved in Dafny

hpserver is an HTTP proxy: one reactor thread accepts connections and drives sockets, worker
pools talk to upstream servers, and completions come back through a queue and an eventfd. This
project models the parts whose correctness depends on interleavings, on partial results from the
kernel, or on two data structures agreeing, and proves what they promise.

- **Worker pool** (`ThreadPool*.dfy`). Workers, submitters and one stopper are program counters
  over shared state; each step is one atomic access or one critical-section boundary of the
  source. Every theorem is about every interleaving of any number of threads: work conservation
  without lost wake-ups, both modes of `stop` and a bound on the steps until it returns, the ledger
  behind the queue bound, and exactly which pools can outgrow that bound, without limit, through
  the counter repair.
- **Concurrent queues** (`FifoHistory.dfy`, `TwoLockQueue*.dfy`, `RingBuffer*.dfy`). Both queues are
  linearizable: the history of linearization points replays on a sequential queue, and it accounts
  for every call, its argument and its answer. The two-lock queue never touches a freed or foreign
  node; the ring never reads the slot being written.
- **Reactor** (`ConnectionIo.dfy`, `Reactor*.dfy`, `ProxyServer*.dfy`). The server object updates
  its tables in place, equals pure table functions of the answers it logged and keeps the table
  invariant through any sequence of events; what each handler means for its connection is stated
  apart from those functions. The reactor together with its workers is a transition system whose
  runs lose no completion, complete every job exactly once and close a connection in order only
  after a reply that was reported for its descriptor. The in-flight gate is sound
  exactly on the runs that close no descriptor with an outstanding job, and a run with a reused
  descriptor shows what happens otherwise.
- **CONNECT relay** (`ConnectTunnel.dfy`) against arbitrary socket behaviour, through a trace of
  socket events.
- **Timer** (`TimerHeap.dfy`): lazy-deletion heap against a map of deadlines.
- **Cache** (`LruSpec.dfy`, `LruInclusion.dfy`, `LruSlack.dfy`, `MemoryCache.dfy`): list, index and weight
  sum against a recency sequence, with 64-bit wrap-around, and exactly when a small cache stays inside
  a large one.
- **Address filter** (`BitwiseTrie.dfy`, `BloomFilter.dfy`, `IpFilter.dfy`) against a plain set.
- **Forwarded request** (`Message*.dfy`) against a reference splitter.

`Runs.dfy`, `Counting.dfy` and `Basics.dfy` hold induction over runs, counting, and small shared
definitions.

Modelling choices. Atomics are sequentially consistent steps. `send`, `recv`, `poll`, `epoll_ctl`,
the pool's answer to `try_push` and the request parser are nondeterministic within their
contracts. The clock is any non-decreasing sequence of readings in nanoseconds. `accept` never
returns the descriptor of a live connection. Numbers are unbounded except where the source's width
matters: the queued-task counter, the cache's weight sum and the hashes are 64-bit, addresses
32-bit.

Where the code does less than its comments say: the filter's header offers `10.0.0.0/8` as an
example of a blocked range, but prefixes shorter than 24 bits block the literal address only
(src/net/core/ip_filter.h:24, src/net/core/ip_filter.cpp:48-50); the model follows the code and
`IpFilter.PrefixBlockedExactly` says when a prefix blocks its range.

## Model

| member | source | states |
|---|---|---|
| `ThreadPoolSafety.MutexStep` | src/util/thread_pool.h:103-142 | Every step keeps mutual exclusion: a thread is inside its critical section exactly when it is the recorded owner. |
| `ThreadPoolSafety.QueueStep` | src/util/thread_pool.h:48-139 | Every step keeps the queue the run of consecutive task numbers that ends at the last accepted one, and empty while a worker whose wait predicate found it empty still holds the mutex. |
| `ThreadPoolSafety.WakeStep` | src/util/thread_pool.h:180-203 | Every step keeps: while a worker sleeps, the queue is no longer than the number of workers that will look at it again, plus one for a submitter that is about to notify. |
| `ThreadPoolSafety.LedgerStep` | src/util/thread_pool.h:48-214 | Every step before the first repair keeps the counter equal to the ledger modulo 2^64 and the ledger within its limits. |
| `ThreadPoolSafety.UnderflowNeedsAdder` | src/util/thread_pool.h:208-212 | A worker can find the counter at zero only while exactly one submitter is between its enqueue and its addition. |
| `ThreadPoolSafety.AddingAtMostOnce` | src/util/thread_pool.h:139-164 | At most one submitter is between its enqueue and its addition: the one that holds the mutex. |
| `ThreadPoolSafety.FateStep` | src/util/thread_pool.h:48-190 | Every step keeps each accepted task in exactly one of: queued, in the hands of exactly one worker, settled by exactly one run or discard. |
| `ThreadPoolStop.FlagStep` | src/util/thread_pool.h:85-101 | Every step keeps the flags in step with the stopper: which of the three kinds is set is determined by its mode and position. |
| `ThreadPoolStop.ClosedStep` | src/util/thread_pool.h:103-161 | Every step keeps: once the stopper has had the mutex, no submitter is past its flag checks. |
| `ThreadPoolStop.AwakeStep` | src/util/thread_pool.h:104-197 | Every step keeps all workers awake after the stopper's `notify_all`. |
| `ThreadPoolStop.JoinStep` | src/util/thread_pool.h:108-112 | Every step keeps the joined workers exited, and the queue empty once `stop` has returned. |
| `ThreadPoolStop.DrainedStep` | src/util/thread_pool.h:194-202 | Every step keeps: in a gracefully stopping pool a worker leaves only with nothing queued and no submitter about to queue. |
| `ThreadPoolStop.NothingDiscardedStep` | src/util/thread_pool.h:86-101 | Every step keeps: with at least one worker a graceful stop discards nothing, and its final clearing finds the queue empty. |
| `ThreadPoolStop.RunInv` | src/util/thread_pool.h:85-214 | All invariants together hold in every state of every run. |
| `ThreadPoolStop.NoLostWakeup` | src/util/thread_pool.h:126-203 | In every reachable state with a sleeping worker and no submitter between enqueue and notify, the queue is no longer than the number of awake workers that will look at it again. |
| `ThreadPoolStop.AllAsleepMeansIdle` | src/util/thread_pool.h:192-197 | If all workers sleep and nobody is announcing a task, the queue is empty. |
| `ThreadPoolStop.GracefulStopRunsAll` | src/util/thread_pool.h:85-203 | With at least one worker, once all workers have exited under `stop(true)` every accepted task has run exactly once, none was discarded, and the queue is empty. |
| `ThreadPoolStop.WithoutWorkersNothingRuns` | src/util/thread_pool.h:85-117 | A pool without workers never runs a task. |
| `ThreadPoolStop.GracefulStopExact` | src/util/thread_pool.h:85-117 | After a graceful stop every accepted task has run exactly once if and only if there was a worker or nothing was accepted. |
| `ThreadPoolStop.StopSettlesAll` | src/util/thread_pool.h:85-117 | After either mode of `stop` the queue is empty and every accepted task was run once or discarded once, not both. |
| `ThreadPoolStop.NothingAcceptedAfterStop` | src/util/thread_pool.h:103-161 | From the point where the stopper has passed the mutex, no later state of the run has accepted another task. |
| `ThreadPoolStop.HolderCanStep` | src/util/thread_pool.h:103-142 | Whoever holds the mutex has an enabled step of its own. |
| `ThreadPoolStop.JoinNeverStuck` | src/util/thread_pool.h:103-112 | While the stopper waits for a worker that has not exited, that worker or the holder of the mutex can take a step. |
| `ThreadPoolProgress.NextLowers` | src/util/thread_pool.h:85-214 | After `notify_all` every step of a worker or of the stopper lowers a measure of queue length and positions, and no other step raises it. |
| `ThreadPoolProgress.StopIsBounded` | src/util/thread_pool.h:103-117 | On every run, from `notify_all` on, workers and stopper together take at most 8 steps per queued task, 12 per worker and 5 more, however many submitters interfere. |
| `ThreadPoolProgress.StopNeverStuck` | src/util/thread_pool.h:103-117 | Until `stop` has returned, the stopper, the worker it waits for or the holder of the mutex has an enabled step. |
| `ThreadPoolProgress.AtMostOneMoreTask` | src/util/thread_pool.h:183-199 | On every run a worker whose stop flag is set runs at most one more task, whatever is queued. |
| `ThreadPoolCalls.TryPushNeverWaits` | src/util/thread_pool.h:157-161 | On every run a call of `try_push` never blocks in `cv_not_full.wait`. |
| `ThreadPoolCalls.EveryCallCounts` | src/util/thread_pool.h:119-169 | On every run each call is under way, returned with its task accepted or refused, and the accepted tasks are those of the calls that returned with one plus those about to. |
| `ThreadPoolCalls.RefusedForCause` | src/util/thread_pool.h:127-161 | `push` is refused only by a stopping pool; `try_push` only by a stopping pool or a full counter. |
| `ThreadPoolStop.LedgerHolds` | src/util/thread_pool.h:48-214 | Up to the first repair the counter is queued + popped but uncounted - enqueued but uncounted (modulo 2^64), and the queue never exceeds its bound. |
| `ThreadPoolStop.FirstUnderflow` | src/util/thread_pool.h:208-212 | The first underflow happens only while exactly one submitter sits between its enqueue and its addition, and leaves the counter at 2^64 - 1. |
| `ThreadPoolLimits.QueueUnbounded` | src/util/thread_pool.h:127-214 | For every number of workers and submitters above zero, every bound and every length, a reachable state whose queue is at least that long while the counter is 0: the repair makes the bound void. |
| `ThreadPoolLimits.QueueBoundExactly` | src/util/thread_pool.h:127-214 | Every reachable state of a pool keeps the queue within its bound if and only if the pool has no workers or no submitters. |
| `ThreadPoolLimits.NoWorkersKeep` | src/util/thread_pool.h:48-54 | Without workers only the stopper can repair the counter, and by then no submitter is on its way to the queue: the bound holds on every run. |
| `FifoHistory.LegalHistory` | src/util/threadsafe_queue.h:15-32 | A history that replays on a sequential queue pops a prefix of what it pushed and holds the rest within its bound. |
| `TwoLockQueueSafety.StepIsSafe` | src/util/threadsafe_queue.h:20-73 | From every invariant state each enabled step dereferences only nodes that exist. |
| `TwoLockQueueSafety.LinkList` | src/util/threadsafe_queue.h:25-28 | Moving `tail` to the new dummy makes the list hold one value more and extends the history by that push. |
| `TwoLockQueueSafety.PushStepInv` | src/util/threadsafe_queue.h:20-29 | Every step of every pusher keeps the list, lock and ownership invariants; that a returned push is in the history is `TwoLockQueueCalls.EveryCallCounts`. |
| `TwoLockQueueSafety.PopStepInv` | src/util/threadsafe_queue.h:54-73 | Every step of every popper keeps them, including freeing the detached node. |
| `TwoLockQueueSafety.Linearizable` | src/util/threadsafe_queue.h:20-73 | In every reachable state the history replays on a sequential FIFO queue and the popped values are a prefix of the pushed ones. |
| `TwoLockQueueSafety.NoDanglingAccess` | src/util/threadsafe_queue.h:20-73 | In every reachable state every enabled step touches only live nodes. |
| `TwoLockQueueSafety.FailedPopSawEmpty` | src/util/threadsafe_queue.h:68-70 | The comparison of `head` with the copied `tail` makes a pop give up exactly if as many values had been popped as pushed when `tail` was read. |
| `TwoLockQueueSafety.FailuresAreEmptyPops` | src/util/threadsafe_queue.h:65-73 | In every reachable state the failed pops of the sequential history are exactly as many as the pops that returned without a value plus those about to. |
| `TwoLockQueueSafety.PopTakesFront` | src/util/threadsafe_queue.h:71-72 | The value a pop is about to return is the front of the sequential queue. |
| `TwoLockQueueSafety.DisjointTargets` | src/util/threadsafe_queue.h:24-73 | A pusher in its critical section writes the dummy only, and no popper touches the dummy. |
| `TwoLockQueueCalls.EveryCallCounts` | src/util/threadsafe_queue.h:20-73 | On every run and for every value: calls of push with it are under way or returned; the history pushes it once per returned call and per call past its effect; the history pops it once per pop that returned it or is about to; calls of pop are under way, failed or returned a value. |
| `TwoLockQueueCalls.QuietQueueHoldsTheRest` | src/util/threadsafe_queue.h:20-73 | When no call is under way, every value is in the queue as often as it was pushed and not popped. |
| `RingBufferSafety.SlotDistance` | src/util/ring_buffer.h:62-69 | The size formula applied to two modular indices gives the distance of the unwrapped positions. |
| `RingBufferSafety.SlotSucc` | src/util/ring_buffer.h:20-54 | The modular successor of an index is the slot of the next position. |
| `RingBufferSafety.TestsAreExact` | src/util/ring_buffer.h:22-59 | The full test holds exactly with `capacity_` values held, the empty test exactly with none. |
| `RingBufferSafety.PushStepInv` | src/util/ring_buffer.h:17-29 | Every step of every producer keeps the ring invariant. |
| `RingBufferSafety.PopStepInv` | src/util/ring_buffer.h:45-56 | Every step of every consumer keeps it. |
| `RingBufferSafety.Linearizable` | src/util/ring_buffer.h:14-56 | In every reachable state the history replays on a queue bounded by `capacity_`: popped is a prefix of pushed, at most `capacity_` are held, and failed operations met a full or empty queue. |
| `RingBufferSafety.DisjointSlots` | src/util/ring_buffer.h:26-53 | While one thread writes a slot and another reads one, the slots differ. |
| `RingBufferSafety.PopTakesFront` | src/util/ring_buffer.h:52-55 | The value a consumer has read is the front of the bounded queue. |
| `RingBufferSafety.SizeOfTwoLoads` | src/util/ring_buffer.h:62-69 | `size()`, whose two loads are taken at different times, is pushed-by-then less popped-before modulo the number of slots; it is the number held at the later load if and only if the pops in between are a multiple of the slots. |
| `RingBufferSafety.EmptyOfTwoLoads` | src/util/ring_buffer.h:58-60 | The unlocked `empty()` answers yes exactly if that difference is a multiple of the slots, hence exactly for an empty queue when no pop finished between its loads. |
| `RingBufferCalls.EveryCallCounts` | src/util/ring_buffer.h:17-56 | On every run and for every value: pushes of it are under way, returned true or returned false; the history pushes it once per call that returned true or is about to, and pops it once per pop that returned it or is about to. |
| `RingBufferCalls.EveryAnswerCounts` | src/util/ring_buffer.h:17-56 | The refused pushes and failed pops of the sequential queue are exactly the calls that returned so and those about to. |
| `ConnectionIo.HttpConnectionIo.constructor` | src/net/http/http_connection_io.cpp:40-77 | A new connection has queued and sent nothing. |
| `ConnectionIo.HttpConnectionIo.PendingMeansUnsent` | src/net/http/http_connection_io.cpp:93-95 | What was sent is a prefix of what was queued, and output is pending exactly when the two differ. |
| `ConnectionIo.HttpConnectionIo.QueueWrite` | src/net/http/http_connection_io.cpp:40-45 | Queueing appends to everything queued so far and sends nothing. |
| `ConnectionIo.HttpConnectionIo.FlushToSocket` | src/net/http/http_connection_io.cpp:47-77 | For any socket: sent grows along queued by the returned total, a non-negative result leaves output pending only after would-block, -1 only for a dead descriptor or a hard error, and the loop ends. |
| `ReactorTables.CloseKeeps` | src/hpserver.cpp:122-137 | Closing one connection clears all its table entries and restores the table invariant for the rest. |
| `ReactorTables.FlushKeeps` | src/hpserver.cpp:336-372 | After a successful flush, write interest is on exactly when output is pending; other connections are untouched. |
| `ReactorTables.ReplyKeeps` | src/hpserver.cpp:296-329 | Queue, flush, then close or defer the close keeps the table invariant. |
| `ReactorTables.DrainOneKeeps` | src/hpserver.cpp:278-333 | Handling one completion keeps the table invariant, also for stale descriptors; what is replied to whom is `ReactorEffects.CompletionEffect`. |
| `ReactorTables.DrainAllKeeps` | src/hpserver.cpp:277-334 | Handling any sequence of completions keeps it. |
| `ReactorTables.OnReadableKeeps` | src/hpserver.cpp:485-538 | Reading a request keeps it, whether the read fails, is partial, is ignored or submits a job. |
| `ReactorTables.OnClientKeeps` | src/hpserver.cpp:458-491 | Dispatching any combination of client events keeps it. |
| `ReactorTables.OnAcceptKeeps` | src/hpserver.cpp:438-453 | Accepting a connection keeps it. |
| `ReactorTables.OnTimeoutKeeps` | src/hpserver.cpp:150-157 | The idle-timeout callback keeps it. |
| `ReactorEffects.CompletionEffect` | src/hpserver.cpp:279-332 | A completion for a live connection queues the response if it succeeded, nothing for an ended tunnel, the error reply otherwise, and nothing for any other connection; then the connection is closed, deferred or kept as the flush and the kind of completion say, with that much queued. A completion for a dead descriptor changes nothing. |
| `ReactorEffects.ClientEffect` | src/hpserver.cpp:458-538 | A client event queues nothing and touches no other connection; the connection is closed exactly when the peer is gone, the flush fails, a deferred close is due or the request fails, in that order; a job is submitted exactly for a complete request on a connection that stays open and has none. |
| `ReactorEffects.AcceptEffect` | src/hpserver.cpp:438-453 | A usable descriptor becomes a live connection with a timer and nothing queued, any other changes nothing. |
| `ReactorEffects.TimeoutEffect` | src/hpserver.cpp:150-157 | An expired timer closes exactly its own connection as it is. |
| `Reactor.DrainSocket` | src/hpserver.cpp:344-365 | The flush loop ends for any socket and keeps what was sent a growing prefix of what was queued. It answers 1 exactly if all is sent, 0 only if the last answer of the socket was would-block, and, on a valid descriptor, -1 exactly if that was a send error. |
| `Reactor.HpServer.FlushClientOutput` | src/hpserver.cpp:336-372 | Result and tables equal the pure flush for the answers actually given: the error is the last answer of the socket, pending output without an error means it would block, and the modify result is the one logged for write interest exactly if output is pending. |
| `Reactor.HpServer.HandleDone` | src/hpserver.cpp:279-332 | One completion is handled as the pure function says for the flush it logged, for all four outcomes; the reply it owes, and nothing else, is queued for its connection and for no other; a final one keeps the table invariant of the object. |
| `Reactor.HpServer.DrainProxyDoneEvents` | src/hpserver.cpp:270-334 | Empties the eventfd, then the whole queue in order, with the effect of the pure fold over the flushes it logged; keeps the table invariant when the completions are final. |
| `Reactor.HpServer.SubmitProxyJob` | src/hpserver.cpp:202-268 | The pool is asked once; the job is in the pool if it took it, otherwise one failed completion is queued and the eventfd is readable. |
| `Reactor.HpServer.HandleClient` | src/hpserver.cpp:500-538 | Result, tables and submissions equal the pure function of the one answer that reading gave, as logged; a descriptor in flight is left alone and not read. |
| `Reactor.HpServer.OnWritable` | src/hpserver.cpp:470-483 | The write half of the dispatch: flush, then close on failure or when a deferred close is due, for the flush logged. |
| `Reactor.HpServer.OnClient` | src/hpserver.cpp:458-491 | The order of error, timeout refresh, write and read equals the pure function of the answers logged in that order, and keeps the table invariant of the object. |
| `Reactor.HpServer.OnAccept` | src/hpserver.cpp:438-453 | A new connection with its timer, or nothing when the set-up fails or the descriptor is out of range; the table invariant is kept. |
| `Reactor.HpServer.OnTimeout` | src/hpserver.cpp:150-157 | The callback closes a live connection, ignores others, and keeps the table invariant. |
| `Reactor.HpServer.FinishJob` | src/hpserver.cpp:206-242 | A worker turns its pooled job into one final completion for the same descriptor that carries its result, and leaves the eventfd readable. |
| `Reactor.HpServer.Serve` | src/hpserver.cpp:406-495 | Any possible event - accept, client event, completions, timeout, a finished job - changes tables, pools and done queue as its pure function says, keeps the tables in step, and leaves no completion waiting behind an empty eventfd. |
| `Reactor.Listen` | src/hpserver.cpp:406-495 | A server object that has handled any number of events in any order got there by exactly their effects, one after the other; its tables are in step, every orderly close so far came after full delivery, and no completion waits behind an empty eventfd. |
| `ProxyServer.EventStep` | src/hpserver.cpp:270-490 | Every step of reactor or worker keeps the table invariant, and every waiting completion names the descriptor of its job. |
| `ProxyServer.WakeStep` | src/hpserver.cpp:235-278 | Every step keeps: a readable eventfd will be reported or is being read, and waiting completions have a readable eventfd or a producer about to write it. |
| `ProxyServer.SubmitAdds` | src/hpserver.cpp:202-268 | A submission adds exactly one outstanding job, also when the pool is saturated. |
| `ProxyServer.DrainTakes` | src/hpserver.cpp:278 | Popping a completion takes exactly its job out of the outstanding ones. |
| `ProxyServer.JobStep` | src/hpserver.cpp:202-288 | Every step keeps: submitted jobs are, as a multiset, the outstanding and the drained ones. |
| `ProxyServerSafety.TablesStayInStep` | src/hpserver.cpp:122-490 | In every reachable state: a timer exactly per live connection, no flag for a dead one, and pending output, deferred close and write interest all true or all false. |
| `ProxyServerSafety.OrderlyCloseDeliversAll` | src/hpserver.cpp:296-483 | A connection closed after a finished job or a deferred close, without error, was sent everything queued for it. |
| `ProxyServerSafety.NoLostCompletion` | src/hpserver.cpp:235-278 | In every reachable state outside the drain with completions waiting, the eventfd is readable and will be reported, or a producer is about to write it. |
| `ProxyServerSafety.CompletesOnce` | src/hpserver.cpp:202-288 | Every submission is, exactly once, pooled, running, waiting as a completion or drained. |
| `ProxyServerSafety.GateKeptExactly` | src/hpserver.cpp:286-535 | From a sound gate a step keeps it sound if and only if it closes no descriptor with an outstanding job. |
| `ProxyServerSafety.GateSoundExactly` | src/hpserver.cpp:286-535 | On a whole run, the in-flight flag says exactly whether one job is outstanding (never two) if and only if no such close occurs. |
| `ProxyServerSafety.ReusedDescriptorBreaksGate` | src/hpserver.cpp:126-535 | A reachable state in which a reused descriptor has two jobs outstanding. |
| `ProxyServerReplies.CompletionOrigin` | src/hpserver.cpp:206-264 | On every run each completion, waiting or drained, carries the job and result of an earlier step: a worker that finished, or a request that a saturated pool refused. |
| `ProxyServerReplies.OrderlyCloseIsReported` | src/hpserver.cpp:279-483 | On every run a connection closed in order, at once or deferred, was sent all that was queued for it, and that ends in the reply of a completion reported earlier for a job of its descriptor. |
| `ProxyServerReplies.RepliedIsReported` | src/hpserver.cpp:315-329 | A connection closed as replied to was sent, last, the response that a worker reported for a successful job of its descriptor. |
| `ProxyServerReplies.ErrorReplyIsReported` | src/hpserver.cpp:290-309 | A connection closed after an error reply was sent, last, the error that a failed worker or a saturated pool reported for its descriptor. |
| `ConnectTunnel.SentIsPrefixOfRead` | src/net/proxy/http_proxy.cpp:445-517 | On every disciplined trace, what was sent to a side is a prefix of what was read from the other. |
| `ConnectTunnel.NothingAfterShutdown` | src/net/proxy/http_proxy.cpp:453-460 | On every disciplined trace nothing is sent to a side after its shutdown, and it is shut down at most once. |
| `ConnectTunnel.WaitsOnlyWhenBlocked` | src/net/proxy/http_proxy.cpp:445-484 | On every disciplined trace the relay polls for writing on a side only if that side has refused a send since the poll before. |
| `ConnectTunnel.ReadsOutBeforePolling` | src/net/proxy/http_proxy.cpp:507-516 | On every disciplined trace a side reported readable is read until it would block, ends or fails before the next poll. |
| `ConnectTunnel.FlushNonblocking` | src/net/proxy/http_proxy.cpp:74-94 | For any socket, sent bytes followed by the unsent tail stay equal to the bytes read; a successful return leaves bytes unsent only after the socket refused a send, and clears the buffer otherwise. |
| `ConnectTunnel.AppendNonblockingRead` | src/net/proxy/http_proxy.cpp:24-46 | For any socket, everything received is appended in order and end of stream is recorded; a successful return means the socket would block or has ended. |
| `ConnectTunnel.HalfClose` | src/net/proxy/http_proxy.cpp:453-460 | Each side is shut down once its source ended and everything was delivered. |
| `ConnectTunnel.Wait` | src/net/proxy/http_proxy.cpp:466-493 | The poll asks for exactly what the buffers call for, never for nothing, and is allowed by the discipline. |
| `ConnectTunnel.Relay` | src/net/proxy/http_proxy.cpp:436-517 | For any socket behaviour and any number of socket calls the trace is disciplined (order kept, no send after shutdown, no poll of an empty interest set, for writing only on a side that refused a send, or before a readable side is read out), success means both streams delivered and both half-closes issued, and failure means a socket fault. |
| `TimerHeap.Timer.Top` | src/util/timer.h:58-116 | The top is some node with the earliest deadline. |
| `TimerHeap.Timer.MaybeCompactHeap` | src/util/timer.h:128-150 | Compaction keeps a matching node for every live entry; it happens exactly above 4095 nodes and 4 per live entry, and then leaves one node per live entry. |
| `TimerHeap.Timer.Add` | src/util/timer.h:19-31 | The id gets the new deadline and callback, every live entry keeps a matching node, the space bound holds; a negative id changes nothing. |
| `TimerHeap.Timer.Adjust` | src/util/timer.h:33-44 | A live id gets the new deadline and keeps its callback; an unknown id changes nothing. |
| `TimerHeap.Timer.Remove` | src/util/timer.h:46-49 | Exactly the id is gone, and the space bound holds. |
| `TimerHeap.Timer.DiscardStaleTop` | src/util/timer.h:114-124 | Afterwards the top is the earliest live deadline, or nothing is live; entries are untouched. |
| `TimerHeap.Timer.PopKeepsCover` | src/util/timer.h:65-122 | Popping a node keeps every other entry matched, and all entries when the node was stale. |
| `TimerHeap.Timer.Fire` | src/util/timer.h:63-74 | One firing takes out exactly the entry and what its callback removes, and makes the heap smaller. |
| `TimerHeap.Timer.Tick` | src/util/timer.h:51-76 | Fires only entries whose current deadline has passed, each once, in deadline order; exactly they and what their callbacks removed are gone; nothing left is due at the last reading; ends on heap size. |
| `TimerHeap.Timer.GetNextTimeoutMs` | src/util/timer.h:78-88 | -1 exactly without live entries, otherwise the wait to the earliest live deadline, never more and less than 1 ms short, within a 32-bit int. |
| `TimerHeap.FireNext` | src/util/timer.h:63-74 | One more firing extends the order and accounts for what is gone. |
| `LruSpec.EvictLeavesLongest` | src/util/memory_cache.h:194-202 | Whatever the weights, eviction leaves exactly the longest prefix of the recency order that passes the loop test, whose sum is compared modulo 2^64. |
| `LruSpec.EvictLeavesLongestFit` | src/util/memory_cache.h:194-202 | When the weights add up to less than 2^64, that is the longest prefix that truly fits both bounds. |
| `LruSpec.GetMovesToFront` | src/util/memory_cache.h:81-88 | A hit moves its item to the front and leaves the others in order; a miss changes nothing. |
| `LruSpec.PutLeavesLongest` | src/util/memory_cache.h:112-202 | A put leaves the longest passing prefix of the new item followed by the others in order; a switched-off cache keeps what it has. |
| `LruInclusion.HeavyValueExactly` | src/util/memory_cache.h:174-202 | Putting any value of a weight above the byte bound empties every fitting cache if and only if the cache has one entry or byte bound plus weight is below 2^64. |
| `LruInclusion.PutFits` | src/util/memory_cache.h:174-202 | From fitting contents a put leaves contents that fit both bounds, under the exact condition of the next row. |
| `LruInclusion.PutKeepsBoundsExactly` | src/util/memory_cache.h:112-202 | Puts of one weight keep both true bounds from all fitting contents if and only if the cache is switched off, has one entry, or byte bound plus weight is below 2^64. |
| `LruInclusion.RunKeepsBounds` | src/util/memory_cache.h:81-146 | After any operation sequence no key is held twice and both bounds hold, when every weight put meets the exact condition above. |
| `LruInclusion.GetIncluded` | src/util/memory_cache.h:81-88 | A lookup in both caches keeps the smaller one's order a sub-sequence of the larger's. |
| `LruInclusion.PutIncluded` | src/util/memory_cache.h:174-202 | So does a put in both. |
| `LruInclusion.SmallInsideLarge` | src/util/memory_cache.h:81-202 | After any operation sequence on two caches with S <= L entries and slack byte bounds, the smaller one's contents are a sub-sequence, with equal values, of the larger's, and never more. |
| `LruInclusion.InclusionExactly` | src/util/memory_cache.h:112-127 | Under the same bounds inclusion holds for all sequences if and only if the large cache takes values or the small one is switched off. |
| `LruInclusion.ByteBoundsBreakInclusion` | src/util/memory_cache.h:194-202 | Without slack it fails: a sequence after which the smaller byte bound holds a key that the larger does not. |
| `LruSlack.SlackNeededExactly` | src/util/memory_cache.h:81-202 | With a slack large cache, S <= L entries and values of all weights up to the largest, inclusion holds for all operation sequences if and only if the small cache is switched off, has one entry, or has a slack byte bound itself. |
| `LruSlack.TightBreaks` | src/util/memory_cache.h:81-202 | For any bounds that are not slack in this way, an operation sequence after which the small cache holds a key that the large one has lost. |
| `LruSlack.OneEntryExactly` | src/util/memory_cache.h:81-202 | For a small cache of one entry and any byte bounds, inclusion holds for all operation sequences if and only if every weight within the small byte bound is within the large one. |
| `LruSlack.SameBounds` | src/util/memory_cache.h:81-202 | Equal bounds, slack or not, keep inclusion. |
| `LruSlack.RunDistinct` | src/util/memory_cache.h:81-202 | No operation sequence makes the cache hold a key twice, whatever the weights, also when the sum wraps around. |
| `MemoryCache.Cache.constructor` | src/util/memory_cache.h:164-171 | A new cache is empty. |
| `MemoryCache.Cache.Fetch` | src/util/memory_cache.h:81-88 | Answers the value of the key or nothing, and moves exactly that key to the front. |
| `MemoryCache.Cache.Erase` | src/util/memory_cache.h:130-139 | Removes exactly the key, tells whether it was there, and keeps list, index and sum in agreement. |
| `MemoryCache.Cache.Clear` | src/util/memory_cache.h:142-146 | Leaves an empty, consistent cache. |
| `MemoryCache.Cache.EvictIfNeeded` | src/util/memory_cache.h:194-202 | The loop over list, index and sum equals eviction on the recency order. |
| `MemoryCache.Cache.Overwrite` | src/util/memory_cache.h:178-184 | The known-key branch puts the new item in front of the others and corrects the sum. |
| `MemoryCache.Cache.Insert` | src/util/memory_cache.h:185-189 | The new-key branch does the same with a new node. |
| `MemoryCache.Cache.DoPut` | src/util/memory_cache.h:174-192 | The new item in front, then eviction. |
| `MemoryCache.Cache.Store` | src/util/memory_cache.h:112-127 | A put equals the specification, including the switched-off cache. |
| `MemoryCache.FindNode` | src/util/memory_cache.h:82-175 | The index finds exactly the keys of the list, each once, and leads to the right item. |
| `MemoryCache.UnlinkGood` | src/util/memory_cache.h:135-200 | Taking a node out of all three structures keeps them in agreement, also across wrap-around of the sum. |
| `BitwiseTrie.LeavesDiffer` | src/util/bitwise_trie.h:36-37 | The bit walks of two different 32-bit keys end in different places. |
| `BitwiseTrie.Trie.constructor` | src/util/bitwise_trie.h:21 | A new trie holds nothing. |
| `BitwiseTrie.Trie.Search` | src/util/bitwise_trie.h:34-44 | Answers exactly the map of inserted and not removed keys. |
| `BitwiseTrie.Trie.Insert` | src/util/bitwise_trie.h:49-59 | Allocates the missing nodes of one path and updates the map at that key only. |
| `BitwiseTrie.Trie.Remove` | src/util/bitwise_trie.h:64-76 | Removes the key from the map, and tells whether it was there. |
| `BloomFilter.Fnv1aHash` | src/util/bloom_filter.h:36-43 | The loop computes the recursively defined FNV-1a hash modulo 2^64. |
| `BloomFilter.Bloom.constructor` | src/util/bloom_filter.h:15 | A new filter has no bit set. |
| `BloomFilter.Bloom.Add` | src/util/bloom_filter.h:17-22 | Afterwards a bit is set exactly if something added hashes to it. |
| `BloomFilter.Bloom.Contains` | src/util/bloom_filter.h:24-29 | True exactly if each of the three bits belongs to something added; hence never false for what was added. |
| `BloomFilter.Bloom.Clear` | src/util/bloom_filter.h:31-33 | Forgets everything. |
| `IpFilter.ShrBlock` | src/net/core/ip_filter.cpp:43-44 | Two numbers agree after a shift exactly if they lie in one aligned block. |
| `IpFilter.BlockIsRun` | src/net/core/ip_filter.cpp:42-47 | The addresses with the same leading bits are a run of consecutive ones from the masked base, and the run does not wrap around in 32 bits. |
| `IpFilter.BaseOfBlock` | src/net/core/ip_filter.cpp:44 | The address masked bit by bit with `0xFFFFFFFF << s` in 32 bits is the first address of its block. |
| `IpFilter.PrefixBlockedExactly` | src/net/core/ip_filter.cpp:40-50 | A prefix of any length, also 0, blocks exactly the addresses that share it if and only if it has 24 bits or more. |
| `IpFilter.TenSlashEight` | src/net/core/ip_filter.h:24 | The failing instance of the header comment: 10.0.0.1 shares the prefix 10.0.0.0/8 and is not blocked by it. |
| `IpFilter.AddressFilter.constructor` | src/net/core/ip_filter.cpp:13-14 | A new filter blocks nothing. |
| `IpFilter.AddressFilter.AddIp` | src/net/core/ip_filter.cpp:17-21 | Blocks one more address. |
| `IpFilter.AddressFilter.AddCidr` | src/net/core/ip_filter.cpp:36-51 | Blocks exactly the addresses with the same leading bits for 24 to 32 bits, the literal address for 1 to 23, nothing for other lengths. |
| `IpFilter.AddressFilter.IsBlocked` | src/net/core/ip_filter.cpp:53-59 | True exactly for the blocked addresses, whatever the Bloom filter's size. |
| `IpFilter.AddressFilter.Load` | src/net/core/ip_filter.cpp:71-75 | After any sequence of additions exactly what some entry covers is blocked. |
| `MessageBuilder.OriginForm` | src/net/http/http_message_builder.cpp:33-69 | The target is `*` or starts with a slash. |
| `MessageBuilder.AppendHeaders` | src/net/http/http_message_builder.cpp:154-173 | The loop appends the lines of exactly the headers that are kept, in order, and its flags say whether host and content-length were among them. |
| `MessageBuilder.BuildForwardProxyRequest` | src/net/http/http_message_builder.cpp:137-195 | The appended string is the printed form of start line, fields and body, and empty exactly for a request without method or host or for CONNECT; what it says to its reader is `MessageReading`. |
| `MessageRoundTrip.HeadEndFound` | src/net/http/http_message_builder.cpp:147-193 | The first CRLF CRLF of the output is the end of the head, whatever the body holds. |
| `MessageRoundTrip.SplitLinesBack` | src/net/http/http_message_builder.cpp:147-192 | Splitting the printed head at line ends gives back its lines. |
| `MessageRoundTrip.RoundTrip` | src/net/http/http_message_builder.cpp:137-195 | Without line breaks and colons where they do not belong, the splitter gives back start line, fields and body. |
| `MessageRoundTrip.ReceivedFields` | src/net/http/http_message_builder.cpp:154-193 | The reader gets the body, the original headers less the hop-by-hop ones, one host, one `connection: close`, and one content-length exactly if there is a body or the client gave one; the values are in the rows of `MessageReading`. |
| `MessageRoundTrip.FieldCounts` | src/net/http/http_message_builder.cpp:154-191 | Host and connection go out exactly once, content-length exactly when stated. |
| `MessageRoundTrip.TimesFields` | src/net/http/http_message_builder.cpp:154-191 | How often any name goes out, for any headers, also with repeated names. |
| `MessageRoundTrip.OtherFields` | src/net/http/http_message_builder.cpp:71-173 | Every other name arrives as often as it was given, and not at all when it is hop-by-hop. |
| `MessageRoundTrip.OrderIsImmaterial` | src/net/http/http_message_builder.cpp:156-173 | Two iteration orders of the header map send the same fields. |
| `MessageRoundTrip.DecimalBack` | src/net/http/http_message_builder.cpp:180-187 | The decimal text of a number reads back as the number. |
| `MessageRoundTrip.HostBack` | src/net/http/http_message_builder.cpp:175-183 | The text before the first colon of the host value is the host if and only if the host has no colon; then the port reads back too, 80 standing for none. |
| `MessageRoundTrip.StartLineBack` | src/net/http/http_message_builder.cpp:142-152 | Cut at spaces the start line gives back the method if and only if it has no space, then the target if and only if it has none, then the version. |
| `MessageRoundTrip.OriginFormFixed` | src/net/http/http_message_builder.cpp:33-69 | The target is a fixed point of the conversion. |
| `MessageRoundTrip.OriginFormCuts` | src/net/http/http_message_builder.cpp:34-50 | An absolute URL becomes its part from the first slash after the host, or the root. |
| `MessageRoundTrip.OriginFormKeeps` | src/net/http/http_message_builder.cpp:52-68 | Any other URL is kept, with a slash before it where one is missing. |
| `MessageReading.LengthReceived` | src/net/http/http_message_builder.cpp:185-189 | A body without a given length arrives with exactly one content-length, in decimal digits, that reads as the number of bytes of the body received. |
| `MessageReading.HostReceived` | src/net/http/http_message_builder.cpp:175-183 | A request without a host header arrives with exactly one, that reads as the host and the port, 80 standing for none. |
| `MessageReading.HopsReceived` | src/net/http/http_message_builder.cpp:71-191 | None of the seven connection-specific names arrives, except one `connection: close`. |
| `MessageReading.HeaderReceived` | src/net/http/http_message_builder.cpp:156-173 | Every other header arrives with its value, its name as often as it was given. |
| `MessageReading.NothingInvented` | src/net/http/http_message_builder.cpp:154-191 | Nothing else arrives: every field was given, is a host, a content-length or `connection: close`. |

## Left out

- `waiting_thread_count`, `pop_task` and thread ids of the pool: no other code depends on them.
- Progress of a blocking `push` and of `wait_pop`: their notifiers do not hold the waiter's mutex, so no such promise can be made.
- A second or concurrent call of `stop`: the model has one stopper.
- C++ memory orders, exceptions and allocation failure.
- The second overloads of ring and cache insertion, and `with_value`, which repeat modelled code.
- `take_write_buffer` and the read side of `http_connection_io`: the parser's answer is an oracle.
- The request and response parsers, the poller, sockets, DNS, connecting, logging and the command line.
- The two-level HTTP cache, its protobuf encoding and RocksDB.
- Rejecting a blocked client with a reply: `reject_blacklisted_client` touches no table.
- Reading the address list from a file and address text: `IpFilter.AddressFilter.Load` starts from numbers.
- The plain-text responses of the message builder: straight concatenation.
- Delivery to the connection that asked across reuse of a descriptor: completion events carry the descriptor only, see `ProxyServerSafety.ReusedDescriptorBreaksGate`.
- Reactor.HpServer.OnAccept: requires that `accept` never returns the descriptor of a live connection, which the kernel guarantees.
- ConnectTunnel.Relay: the relay may run forever, so it is observed for an arbitrary number of socket calls; that it ends is not claimed.
- TimerHeap.Timer.Tick: callbacks may only remove entries, as the server's do; a callback that adds due entries could keep the source's loop going. The space bound is claimed after add, adjust and remove, where the source compacts.
- TimerHeap.Timer.Top: the binary heap inside `std::priority_queue` is modelled as a sequence with some earliest element.
- TimerHeap.Timer.Add: deadlines are unbounded integers, not 64-bit time points.
- MemoryCache.Cache.Insert: list nodes have numbers for identities instead of addresses, so list and index are values held in fields; aliasing between them is by number.
- ProxyServer.JobStep: the two worker pools are one, and workers are a multiset of running jobs.
- LruSpec.EvictLeavesLongestFit: the true bounds need a sum below 2^64; `LruSpec.EvictLeavesLongest` covers the rest.
- LruInclusion.RunKeepsBounds: the condition on weights is exact for single puts from any fitting contents, see `LruInclusion.PutKeepsBoundsExactly`; which contents the weights at hand can build up is not analysed.
- IpFilter.AddressFilter.AddIp: additions and lookups require a Bloom filter of at least one bit; with none the source divides by zero.
- Reactor.HpServer.Serve: requires that a finished job was pooled and that `accept` returns no live descriptor.
- ThreadPoolProgress.StopIsBounded: counts steps, and leaves it to the scheduler that the thread that has a step takes it.
- LruSlack.SlackNeededExactly: the large byte bound is slack; two byte bounds that both decide are covered for one entry only.
