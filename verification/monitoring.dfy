/**
  The Monitor of monitoring/monitoring.go: three counters (ticks, lag,
  cumulative execution time) and the mark of the last execution start.
  Time is an abstract natural-number clock reading handed in by the caller
  in place of `time.Now()`; its unit plays the role of nanoseconds.
 */
module Monitoring {
  import opened Wrappers
  import opened Counters

  datatype Monitor = Monitor(
    currentExecutionStart: Option<nat>,
    ticks: Counter,
    lag: Counter,
    execution: Counter)

  /** A new monitor: every counter at zero and no execution started. */
  function NewMonitor(): (m: Monitor)
    ensures Get(m.ticks) == 0 && Get(m.lag) == 0 && Get(m.execution) == 0
    ensures m.currentExecutionStart.None?
  {
    Monitor(None, NewCounter(), NewCounter(), NewCounter())
  }

  /** One more pending item: the lag gauge rises by one, nothing else moves. */
  function AddWork(m: Monitor): (r: Monitor)
    ensures Get(r.lag) == Get(m.lag) + 1
    ensures r.ticks == m.ticks && r.execution == m.execution
    ensures r.currentExecutionStart == m.currentExecutionStart
  {
    m.(lag := Add(m.lag, 1))
  }

  /** One item fewer pending: the lag gauge drops by one, nothing else moves. */
  function SubWork(m: Monitor): (r: Monitor)
    ensures Get(r.lag) == Get(m.lag) - 1
    ensures r.ticks == m.ticks && r.execution == m.execution
    ensures r.currentExecutionStart == m.currentExecutionStart
  {
    m.(lag := Sub(m.lag, 1))
  }

  /** One dispatcher tick: the tick count rises by one, nothing else moves. */
  function Tick(m: Monitor): (r: Monitor)
    ensures Get(r.ticks) == Get(m.ticks) + 1
    ensures r.lag == m.lag && r.execution == m.execution
    ensures r.currentExecutionStart == m.currentExecutionStart
  {
    m.(ticks := Add(m.ticks, 1))
  }

  /** Records `now` as the start of the execution in flight. */
  function ExecutionStart(m: Monitor, now: nat): (r: Monitor)
    ensures r.currentExecutionStart == Some(now)
    ensures r.ticks == m.ticks && r.lag == m.lag && r.execution == m.execution
  {
    m.(currentExecutionStart := Some(now))
  }

  /**
    Closes an execution at clock `now`: without a recorded start nothing
    changes; otherwise the time elapsed since the start is added to the
    cumulative execution counter.  The start mark is kept, not cleared.
   */
  function ExecutionStop(m: Monitor, now: nat): (r: Monitor)
    ensures m.currentExecutionStart.None? ==> r == m
    ensures m.currentExecutionStart.Some? ==>
      Get(r.execution) == Get(m.execution) + (now - m.currentExecutionStart.value)
    ensures r.currentExecutionStart == m.currentExecutionStart
    ensures r.ticks == m.ticks && r.lag == m.lag
  {
    match m.currentExecutionStart
    case None => m
    case Some(start) => m.(execution := Add(m.execution, now - start))
  }

  /** `SubWork` undoes `AddWork`: the monitor is exactly as before. */
  lemma SubWorkUndoesAddWork(m: Monitor)
    ensures SubWork(AddWork(m)) == m
  {
  }

  /** Lag and tick gauges are independent of the execution bracket. */
  lemma BracketKeepsGauges(m: Monitor, s: nat, t: nat)
    ensures ExecutionStop(ExecutionStart(m, s), t).ticks == m.ticks
    ensures ExecutionStop(ExecutionStart(m, s), t).lag == m.lag
  {
  }

  /**
    A start at `s` followed by a stop at `t >= s` adds exactly `t - s`: the
    execution total never decreases and grows as soon as time has passed.
   */
  lemma BracketAddsElapsed(m: Monitor, s: nat, t: nat)
    requires s <= t
    ensures Get(ExecutionStop(ExecutionStart(m, s), t).execution) == Get(m.execution) + (t - s)
    ensures Get(ExecutionStop(ExecutionStart(m, s), t).execution) >= Get(m.execution)
    ensures s < t ==> Get(ExecutionStop(ExecutionStart(m, s), t).execution) > Get(m.execution)
  {
  }

  /**
    Because the start mark survives a stop, a second stop without a new
    start counts again from the same start.
   */
  lemma SecondStopCountsFromSameStart(m: Monitor, s: nat, t1: nat, t2: nat)
    ensures Get(ExecutionStop(ExecutionStop(ExecutionStart(m, s), t1), t2).execution)
         == Get(m.execution) + (t1 - s) + (t2 - s)
  {
  }

  /** A fresh monitor after `AddWork` twice and `SubWork` twice is back at lag zero, ticks untouched. */
  lemma AddTwiceSubTwice()
    ensures Get(AddWork(AddWork(NewMonitor())).lag) == 2
    ensures Get(AddWork(AddWork(NewMonitor())).ticks) == 0
    ensures Get(SubWork(SubWork(AddWork(AddWork(NewMonitor())))).lag) == 0
  {
  }

  /** A fresh monitor after two ticks counts two ticks and no lag. */
  lemma TickTwice()
    ensures Get(Tick(Tick(NewMonitor())).ticks) == 2
    ensures Get(Tick(Tick(NewMonitor())).lag) == 0
  {
  }
}
