# schaloop event loop — a Dafny model

schaloop is a Go event loop: producers submit work items (an action, a
diagnostic name and an error handler) to a queue; a single dispatcher
goroutine takes at most one item per clock tick and runs it under a timeout
watchdog. Panics are recovered and handed to the item's error handler, and
a `Monitor` keeps three counters: ticks, lag (pending depth) and
cumulative execution time.

This project models the sequential bookkeeping of that loop as immutable
datatypes and pure transition functions:

- `counter.dfy` (`Counters`): the telemetry counter of `monitoring/counter.go`.
- `monitoring.dfy` (`Monitoring`): the `Monitor` of `monitoring/monitoring.go`.
  The clock is a natural number passed in by the caller instead of
  `time.Now()`.
- `work.dfy` (`Works`): the `work` record and `safeExecute`. An action is
  modelled by what the loop can observe of it: `Returned`, or
  `Panicked(v)`, where `v` is a string or another value.
  Handlers are either the default one, which panics again (`Rethrow`), or a
  caller-supplied one (`Custom(id)`). `TIMEOUT_ERROR` is its own error
  constructor, because Go compares it by identity.
- `queue.dfy` (`WorkQueue`): `enqueue`, `dequeueWork` and `hasWork` on a
  `seq<Work>`. The slice stores the newest item first and pops from the
  end, so `Pending` (the storage order reversed) is the dispatch order.
- `eventloop.dfy` (`Schaloop`): the loop state (queue plus monitor), the
  submission entry points, and one iteration of the `StartWithTimeout` loop
  body as a step. A run is any interleaving of submissions and iterations.
  The lemmas about runs give FIFO order, gauge accuracy, tick counting,
  monotone execution time and failure isolation.
- `wrappers.dfy` (`Wrappers`): the `Option` type standing for Go's nil pointers.

The goroutine, ticker and channels are abstracted away. Each iteration
receives a `TickInput`: the clock reading at execution start, the reading
at execution stop, and which side of the watchdog race won (`Finished` or
`DeadlineFirst`). The monitor's `AddWork`/`SubWork` run in goroutines of
their own in Go; here they happen synchronously with the queue change.

Notes on the code:
- The package comment calls the queue a "stack of work". `enqueue` prepends and `dequeueWork` pops the last element, so `Pending` (the stored order reversed) is the dispatch order, which is first in, first out.
- An action that panics after its deadline can reach its handler a second time, because the watchdog calls the handler (eventloop.go:222) and the worker's `safeExecute` may still call it (eventloop.go:233). The model gives each race one winner (see Left out).
- `ExecutionStop` never clears the start mark (monitoring/monitoring.go:41-50).

## Model

| member | source | states |
|---|---|---|
| Counters.NewCounter | monitoring/counter.go:9-11 | a new counter reads zero |
| Counters.Add | monitoring/counter.go:13-15 | the value read afterwards is exactly `n` more than before |
| Counters.Sub | monitoring/counter.go:17-19 | the value read afterwards is exactly `n` less, and the update is the same as adding `-n` |
| Counters.AddThenSubRestores | monitoring/counter.go:13-19 | `Add(n)` followed by `Sub(n)` gives back the original counter |
| Counters.AddsCompose | monitoring/counter.go:13-15 | two additions equal one addition of their sum |
| Monitoring.NewMonitor | monitoring/monitoring.go:16-22 | ticks, lag and execution all start at zero, and no execution start is recorded |
| Monitoring.AddWork | monitoring/monitoring.go:24-26 | lag rises by one; ticks, execution and the start mark are unchanged |
| Monitoring.SubWork | monitoring/monitoring.go:28-30 | lag drops by one; ticks, execution and the start mark are unchanged |
| Monitoring.Tick | monitoring/monitoring.go:32-34 | ticks rise by one; lag, execution and the start mark are unchanged |
| Monitoring.ExecutionStart | monitoring/monitoring.go:36-39 | the start mark becomes the given clock reading; the counters are unchanged |
| Monitoring.ExecutionStop | monitoring/monitoring.go:41-50 | with no start mark nothing changes; otherwise execution grows by `now - start`; the start mark is kept, and lag and ticks are unchanged |
| Monitoring.SubWorkUndoesAddWork | monitoring/monitoring.go:24-30 | `SubWork` after `AddWork` restores the monitor exactly |
| Monitoring.BracketKeepsGauges | monitoring/monitoring.go:36-50 | a start/stop bracket leaves ticks and lag unchanged |
| Monitoring.BracketAddsElapsed | monitoring/monitoring.go:36-50 | a start at `s` and stop at `t >= s` add exactly `t - s`, so execution never decreases and grows strictly when `t > s` |
| Monitoring.SecondStopCountsFromSameStart | monitoring/monitoring.go:41-50 | a second stop with no new start adds again, measured from the same start |
| Monitoring.AddTwiceSubTwice | monitoring/monitoring_test.go:10-25 | two `AddWork` give lag 2 with ticks 0; two `SubWork` after that bring lag back to 0 |
| Monitoring.TickTwice | monitoring/monitoring_test.go:27-37 | two ticks on a new monitor count 2, and lag stays 0 |
| Works.RecoveredError | eventloop.go:52-58 | a string panic value becomes an error with exactly that message; any other value becomes "An error occurred: " followed by its rendering |
| Works.SafeExecute | eventloop.go:50-63 | a normal return calls no handler; a panic calls the item's own handler exactly once, with the recovered error |
| Works.Invoke | eventloop.go:93-96 | the default handler escalates the error it receives; a custom handler receives it unchanged |
| Works.StringPanicMessageRoundTrip | eventloop.go:54-55 | `panic(s)` with a string reaches the handler as an error whose message is `s` |
| Works.PanicIsNeverTimeout | eventloop.go:50-63 | a recovered panic never produces the timeout sentinel, even `panic("Timeout")` |
| Works.DefaultHandlerEscalates | eventloop.go:93-99 | under the default handler, a panicking action always escalates its recovered error, so the failure is never silent |
| Works.FooReachesHandler | eventloop_test.go:46-52 | `panic("foo")` under a custom handler delivers the error "foo" to that handler |
| WorkQueue.Enqueue | eventloop.go:149-150 | the new item is at index 0 and the earlier items follow in their old order |
| WorkQueue.HasWork | eventloop.go:166-168 | true exactly when the queue is non-empty, that is, when something is pending |
| WorkQueue.Dequeue | eventloop.go:155-164 | on a non-empty queue, returns the last stored item (the oldest pending one) and leaves exactly the rest |
| WorkQueue.EnqueueJoinsBack | eventloop.go:149-150 | an enqueued item joins the back of the dispatch order |
| WorkQueue.EnqueueAllJoinsBack | eventloop.go:149-150 | items enqueued one after another wait behind the old ones, in the order they were enqueued |
| WorkQueue.Drain | eventloop.go:155-168 | dequeuing while `hasWork` holds yields the pending items in dispatch order |
| WorkQueue.EnqueueThenDrain | eventloop.go:149-168 | FIFO: enqueuing items on an empty queue and then dequeuing all of them returns them in enqueue order |
| Schaloop.NewEventLoop | eventloop.go:83-89 | a new loop has an empty queue, a fresh monitor and an accurate lag gauge |
| Schaloop.QueueWorkWithError | eventloop.go:137-153 | stores an item with exactly the given name, action and handler at the back of the dispatch order; lag rises by one, ticks, execution and the start mark are unchanged, and the gauge stays accurate |
| Schaloop.QueueWork | eventloop.go:93-99 | same as `QueueWorkWithError` with the re-raising default handler |
| Schaloop.Resolve | eventloop.go:209-238 | an item that finishes first gets exactly the handler calls of `safeExecute`; if the deadline passes first, its handler gets one call with the timeout sentinel; never more than one call |
| Schaloop.Iterate | eventloop.go:193-240 | one iteration adds exactly one tick; it takes an item exactly when `hasWork` holds, and then the oldest one, lowering lag by one; with an empty queue it leaves the queue alone and calls nothing; at most one handler call |
| Schaloop.IterateTakesOldest | eventloop.go:196-201 | the item taken is the head of the dispatch order, and the rest stay in order |
| Schaloop.IterateKeepsGauge | eventloop.go:196-206 | an iteration keeps lag equal to the queue length |
| Schaloop.IterateBracketsExecution | eventloop.go:208-239 | an iteration that runs an item marks execution start at the start reading and adds stop minus start; an idle one only ticks |
| Schaloop.RunPreservesOrder | eventloop.go:137-201 | for any interleaving of submissions and iterations, the items dispatched, followed by those still pending, are the items pending at the start followed by those submitted, in order |
| Schaloop.DispatchIsPrefixOfSubmission | eventloop.go:137-201 | from a new loop, the dispatched items are a prefix of the submitted ones, and the pending items are the rest |
| Schaloop.RunKeepsGaugeAccurate | eventloop.go:149-164 | with synchronous gauge updates, lag equals the queue length after every event |
| Schaloop.RunCountsTicks | eventloop.go:193-207 | ticks grow by exactly the number of iterations |
| Schaloop.RunExecutionNeverDecreases | eventloop.go:208-239 | if the clock does not run backwards within an iteration, cumulative execution time never decreases |
| Schaloop.RunDispatchesAtMostOnePerTurn | eventloop.go:193-240 | there are never more dispatched items, or more handler calls, than iterations |
| Schaloop.SubmitAllQueues | eventloop.go:137-153 | submissions dispatch nothing, call no handler, and queue their items behind the pending ones |
| Schaloop.TurnAllDrains | eventloop.go:193-204 | as many iterations as pending items dispatch all of them, oldest first, and empty the queue |
| Schaloop.SubmitThenTurnInOrder | eventloop.go:137-204 | items submitted to a new loop, each followed by an iteration, are dispatched in submission order |
| Schaloop.RunCallsAreExecutions | eventloop.go:208-239 | failure isolation: when no deadline is hit, a run's handler calls are exactly those of running each dispatched item alone, in dispatch order |
| Schaloop.SubmitThenTurnCalls | eventloop.go:193-240 | items submitted and then drained without timeouts are dispatched in order and make exactly their own handler calls |
| Schaloop.OrderScenario | eventloop_test.go:14-36 | two returning items dispatch in submission order, call no handler and leave the queue empty |
| Schaloop.HandleErrorScenario | eventloop_test.go:38-62 | an item panicking with a string under a custom handler gives that handler one error with that message, and the item after it still runs |

`Counters.Get` has no contract of its own. It is a function of an
immutable counter, so reading a counter cannot change it.

## Left out

- Counters.Add: the Go counter is an `int64` updated with `atomic.AddInt64`. The model uses an unbounded integer, so 64-bit wrap-around is not modelled.
- Counters.Sub: same as `Add`; the `int64` wrap-around of `nbr * -1` is not modelled.
- Monitoring.ExecutionStop: `time.Now()`, `Time.Sub` and the nanosecond conversion become a natural-number clock argument. The elapsed time is `now - start`. Monotonicity is proved for `start <= now` only.
- Monitoring.AddWork and Monitoring.SubWork: the loop calls these in separate goroutines (`go eventloop.monitor.AddWork()`), so in Go the gauge is only eventually consistent. The model applies them in the same step as the queue change.
- Schaloop.Iterate: blocking on `ticker.C` and tick coalescing are not modelled. One iteration is one step. The queue mutex is implicit, because steps are sequential. The pop happens before the tick wait (eventloop.go:196-205), so after `Stop` an already-dequeued item can be lost: it is off the queue and its lag has been decremented, but it never runs and its handler is never called. `Turn` pops and runs in one step, so the model cannot express that loss.
- Schaloop.Resolve: the watchdog goroutines and channels are replaced by a `Race` input. After a timeout the action's goroutine keeps running. If it panics later, the Go code calls the handler a second time; that is concurrency and is not modelled. On timeout, Go calls the handler in a new goroutine, so in Go the ordering of handler calls across items is not fixed. The model lists them in dispatch order.
- Works.SafeExecute: a `panic(nil)` depends on the Go version. Before Go 1.21 `recover()` returns nil and no handler runs; from 1.21 the value is a `*runtime.PanicNilError`. `PanicValue` has no nil case. How `%s` renders a non-string value is abstracted into the `rendered` field of `OtherValue`.
- Works.Invoke: the re-raised panic of the default handler happens inside a deferred function in the worker goroutine and ends the process. The model records it as `Escalated` and does not model the crash.
- `Stop`: stopping the ticker, and the loop waiting forever after it, are not modelled, because the model has no ticker. The model therefore does not capture the item that the last pass has already dequeued and that is then lost (see the `Schaloop.Iterate` line above).
- `DumpStack`, `DumpMonitor` and `Monitor.Dump`: string formatting, including `%p` pointers.
- `QueueWorkFromChannel` and `QueueWorkFromChannelWithError`: a goroutine forwarding channel messages. A forwarded message is the same as a `Submit` event.
- `abortWithError`: it is never called in the source.
- `LOOP_FREQ` and the `timeout` argument: durations exist only inside the abstract `TickInput`.
