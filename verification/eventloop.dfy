/**
  The sequential core of the EventLoop in eventloop.go: its queue and
  monitor, the submission entry points, and one pass of the dispatch loop
  started by `StartWithTimeout`, as pure state transitions.

  The loop's goroutine, ticker and channels are not modelled.  One loop
  iteration is one step, whose clock readings and watchdog race result
  arrive as a `TickInput`.  The lag gauge is updated in the same step as
  the queue rather than from a separate goroutine.
 */
module Schaloop {
  import opened Wrappers
  import opened Counters
  import opened Monitoring
  import opened Works
  import opened WorkQueue

  datatype EventLoop = EventLoop(queue: Queue, monitor: Monitor)

  /**
    Which side of the watchdog race resolved the item: the worker finished
    (normally or by a recovered panic), or the deadline passed first.
   */
  datatype Race = Finished | DeadlineFirst

  /**
    What the outside world contributes to one iteration: the clock reading
    at execution start and stop, and the result of the watchdog race.
   */
  datatype TickInput = TickInput(start: nat, stop: nat, race: Race)

  /** The state after a step, the item it ran (if any) and the handler calls it made. */
  datatype StepResult = StepResult(loop: EventLoop, ran: Option<Work>, calls: seq<HandlerCall>)

  /** The gauge is accurate: lag equals the number of stored items. */
  predicate GaugeAccurate(el: EventLoop)
  {
    Get(el.monitor.lag) == |el.queue|
  }

  /** A new loop: nothing queued, a fresh monitor. */
  function NewEventLoop(): (el: EventLoop)
    ensures el.queue == [] && Pending(el.queue) == []
    ensures el.monitor == NewMonitor()
    ensures GaugeAccurate(el)
  {
    EventLoop([], NewMonitor())
  }

  /**
    Stores a new item built from exactly the given name, action and handler
    and raises the lag gauge by one.
   */
  function QueueWorkWithError(el: EventLoop, name: string, fn: Outcome, handler: Handler): (r: EventLoop)
    ensures |r.queue| == |el.queue| + 1 && r.queue[0] == Work(fn, name, handler)
    ensures Pending(r.queue) == Pending(el.queue) + [Work(fn, name, handler)]
    ensures Get(r.monitor.lag) == Get(el.monitor.lag) + 1
    ensures r.monitor.ticks == el.monitor.ticks && r.monitor.execution == el.monitor.execution
    ensures r.monitor.currentExecutionStart == el.monitor.currentExecutionStart
    ensures GaugeAccurate(el) ==> GaugeAccurate(r)
  {
    var w := Work(fn, name, handler);
    EnqueueJoinsBack(el.queue, w);
    EventLoop(Enqueue(el.queue, w), AddWork(el.monitor))
  }

  /** Submission with the default handler, which re-raises any error. */
  function QueueWork(el: EventLoop, name: string, fn: Outcome): (r: EventLoop)
    ensures r == QueueWorkWithError(el, name, fn, Rethrow)
    ensures |r.queue| > 0 && r.queue[0].errorHandler == Rethrow
  {
    QueueWorkWithError(el, name, fn, Rethrow)
  }

  /**
    The handler calls that resolve one dispatched item: the worker's own
    (recovered) run when it finishes first, otherwise a single call with the
    timeout sentinel.
   */
  function Resolve(w: Work, race: Race): (calls: seq<HandlerCall>)
    ensures |calls| <= 1
    ensures forall c :: c in calls ==> c.handler == w.errorHandler
    ensures race == DeadlineFirst ==> calls == [HandlerCall(w.errorHandler, Timeout)]
    ensures race == Finished ==> calls == SafeExecute(w)
  {
    match race
    case Finished => SafeExecute(w)
    case DeadlineFirst => [HandlerCall(w.errorHandler, Timeout)]
  }

  /**
    One iteration of the dispatch loop: take the oldest pending item if there
    is one, count the tick, and run the item between an execution start and
    stop.
   */
  function Iterate(el: EventLoop, t: TickInput): (r: StepResult)
    ensures Get(r.loop.monitor.ticks) == Get(el.monitor.ticks) + 1
    ensures r.ran.Some? <==> HasWork(el.queue)
    ensures HasWork(el.queue) ==>
      && r.ran.value == el.queue[|el.queue| - 1]
      && r.loop.queue == el.queue[..|el.queue| - 1]
      && Get(r.loop.monitor.lag) == Get(el.monitor.lag) - 1
      && r.calls == Resolve(r.ran.value, t.race)
    ensures !HasWork(el.queue) ==> r.loop.queue == el.queue && r.calls == []
    ensures |r.calls| <= 1
  {
    if HasWork(el.queue) then
      var (w, rest) := Dequeue(el.queue);
      var m := ExecutionStart(Monitoring.Tick(SubWork(el.monitor)), t.start);
      var calls := Resolve(w, t.race);
      StepResult(EventLoop(rest, ExecutionStop(m, t.stop)), Some(w), calls)
    else
      StepResult(el.(monitor := Monitoring.Tick(el.monitor)), None, [])
  }

  /**
    An iteration that finds work takes the oldest pending item; the others
    keep their order.
   */
  lemma IterateTakesOldest(el: EventLoop, t: TickInput)
    requires HasWork(el.queue)
    ensures [Iterate(el, t).ran.value] + Pending(Iterate(el, t).loop.queue) == Pending(el.queue)
  {
    var (w, rest) := Dequeue(el.queue);
  }

  /** An iteration keeps the lag gauge equal to the queue length. */
  lemma IterateKeepsGauge(el: EventLoop, t: TickInput)
    requires GaugeAccurate(el)
    ensures GaugeAccurate(Iterate(el, t).loop)
  {
  }

  /**
    An iteration that runs an item brackets it with an execution start at
    `t.start` and a stop at `t.stop`, adding the elapsed time; an idle
    iteration leaves the execution total and the start mark alone.
   */
  lemma IterateBracketsExecution(el: EventLoop, t: TickInput)
    ensures var m := Iterate(el, t).loop.monitor;
      HasWork(el.queue) ==>
        && m.currentExecutionStart == Some(t.start)
        && Get(m.execution) == Get(el.monitor.execution) + (t.stop - t.start)
    ensures var m := Iterate(el, t).loop.monitor;
      !HasWork(el.queue) ==> m == Monitoring.Tick(el.monitor)
  {
  }

  /** Things that happen to a loop: a submission from some producer, or one loop iteration. */
  datatype Event =
    | Submit(name: string, fn: Outcome, handler: Handler)
    | Turn(input: TickInput)

  /** One event applied to the loop. */
  function Apply(el: EventLoop, e: Event): (r: StepResult)
    ensures e.Submit? ==> r.ran.None? && r.calls == []
    ensures e.Turn? ==> r == Iterate(el, e.input)
  {
    match e
    case Submit(name, fn, handler) => StepResult(QueueWorkWithError(el, name, fn, handler), None, [])
    case Turn(t) => Iterate(el, t)
  }

  /** The result of a run: final state, items dispatched in order, handler calls in order. */
  datatype RunResult = RunResult(loop: EventLoop, dispatched: seq<Work>, calls: seq<HandlerCall>)

  /** Applies the events one after another. */
  function Run(el: EventLoop, events: seq<Event>): (r: RunResult)
    decreases |events|
  {
    if |events| == 0 then RunResult(el, [], [])
    else
      var s := Apply(el, events[0]);
      var rest := Run(s.loop, events[1..]);
      RunResult(rest.loop, ToSeq(s.ran) + rest.dispatched, s.calls + rest.calls)
  }

  /** The item an event submits, if it is a submission. */
  function SubmittedBy(e: Event): (ws: seq<Work>)
    ensures e.Submit? <==> |ws| == 1
    ensures e.Submit? ==> ws[0] == Work(e.fn, e.name, e.handler)
  {
    if e.Submit? then [Work(e.fn, e.name, e.handler)] else []
  }

  /** The items the events submit, in submission order. */
  function Submitted(events: seq<Event>): (ws: seq<Work>)
    ensures |ws| <= |events|
    decreases |events|
  {
    if |events| == 0 then [] else SubmittedBy(events[0]) + Submitted(events[1..])
  }

  /** The number of loop iterations among the events. */
  function Turns(events: seq<Event>): (n: nat)
    ensures n <= |events|
    decreases |events|
  {
    if |events| == 0 then 0
    else (if events[0].Turn? then 1 else 0) + Turns(events[1..])
  }

  /** One event: what it dispatches, then what stays pending, is what was pending plus what it submits. */
  lemma ApplyPreservesOrder(el: EventLoop, e: Event)
    ensures ToSeq(Apply(el, e).ran) + Pending(Apply(el, e).loop.queue) == Pending(el.queue) + SubmittedBy(e)
  {
  }

  /** Concatenation is associative. */
  lemma Splice3<T>(x: seq<T>, y: seq<T>, z: seq<T>)
    ensures x + (y + z) == (x + y) + z
  {
  }

  /** Sequence bookkeeping for one step of the induction below. */
  lemma Splice(d: seq<Work>, p: seq<Work>, d': seq<Work>, p': seq<Work>, q: seq<Work>, b: seq<Work>, s: seq<Work>)
    requires d + p == q + b
    requires d' + p' == p + s
    ensures (d + d') + p' == q + (b + s)
  {
    calc {
      (d + d') + p';
      d + (d' + p');
      d + (p + s);
      (d + p) + s;
      (q + b) + s;
    }
  }

  /**
    First in, first out, with producers and the loop interleaved arbitrarily:
    the items dispatched followed by those still pending are exactly the
    items pending at the start followed by those submitted, in order.
   */
  lemma {:induction false} RunPreservesOrder(el: EventLoop, events: seq<Event>)
    ensures Run(el, events).dispatched + Pending(Run(el, events).loop.queue)
         == Pending(el.queue) + Submitted(events)
    decreases |events|
  {
    if |events| > 0 {
      var s := Apply(el, events[0]);
      var rest := Run(s.loop, events[1..]);
      var d, p, b := ToSeq(s.ran), Pending(s.loop.queue), SubmittedBy(events[0]);
      ApplyPreservesOrder(el, events[0]);
      RunPreservesOrder(s.loop, events[1..]);
      assert d + p == Pending(el.queue) + b;
      assert rest.dispatched + Pending(rest.loop.queue) == p + Submitted(events[1..]);
      var whole := Run(el, events);
      assert whole.dispatched == d + rest.dispatched && whole.loop == rest.loop;
      assert Submitted(events) == b + Submitted(events[1..]);
      Splice(d, p, rest.dispatched, Pending(rest.loop.queue), Pending(el.queue), b, Submitted(events[1..]));
    }
  }

  /**
    From a new loop, the dispatched items are always a prefix of the
    submitted ones: no item is skipped, reordered or invented.
   */
  lemma {:induction false} DispatchIsPrefixOfSubmission(events: seq<Event>)
    ensures Run(NewEventLoop(), events).dispatched <= Submitted(events)
    ensures Pending(Run(NewEventLoop(), events).loop.queue)
         == Submitted(events)[|Run(NewEventLoop(), events).dispatched|..]
  {
    RunPreservesOrder(NewEventLoop(), events);
    var r := Run(NewEventLoop(), events);
    assert r.dispatched + Pending(r.loop.queue) == Submitted(events);
  }

  /** The lag gauge equals the queue length after every event, once it does at the start. */
  lemma {:induction false} RunKeepsGaugeAccurate(el: EventLoop, events: seq<Event>)
    requires GaugeAccurate(el)
    ensures GaugeAccurate(Run(el, events).loop)
    decreases |events|
  {
    if |events| > 0 {
      RunKeepsGaugeAccurate(Apply(el, events[0]).loop, events[1..]);
    }
  }

  /** Each iteration counts exactly one tick; submissions count none. */
  lemma {:induction false} RunCountsTicks(el: EventLoop, events: seq<Event>)
    ensures Get(Run(el, events).loop.monitor.ticks) == Get(el.monitor.ticks) + Turns(events)
    decreases |events|
  {
    if |events| > 0 {
      RunCountsTicks(Apply(el, events[0]).loop, events[1..]);
    }
  }

  /** Every iteration reads a clock that does not run backwards between start and stop. */
  predicate ClockForward(events: seq<Event>)
  {
    forall i :: 0 <= i < |events| && events[i].Turn? ==> events[i].input.start <= events[i].input.stop
  }

  /** With a forward-running clock, cumulative execution time never decreases. */
  lemma {:induction false} RunExecutionNeverDecreases(el: EventLoop, events: seq<Event>)
    requires ClockForward(events)
    ensures Get(Run(el, events).loop.monitor.execution) >= Get(el.monitor.execution)
    decreases |events|
  {
    if |events| > 0 {
      assert ClockForward(events[1..]) by {
        forall i | 0 <= i < |events[1..]| && events[1..][i].Turn?
          ensures events[1..][i].input.start <= events[1..][i].input.stop
        {
          assert events[1..][i] == events[i + 1];
        }
      }
      RunExecutionNeverDecreases(Apply(el, events[0]).loop, events[1..]);
    }
  }

  /** At most one item is dispatched per iteration, and only by iterations. */
  lemma {:induction false} RunDispatchesAtMostOnePerTurn(el: EventLoop, events: seq<Event>)
    ensures |Run(el, events).dispatched| <= Turns(events)
    ensures |Run(el, events).calls| <= Turns(events)
    decreases |events|
  {
    if |events| > 0 {
      RunDispatchesAtMostOnePerTurn(Apply(el, events[0]).loop, events[1..]);
    }
  }

  /** Running `e` and then `rest` is one step followed by the run of the rest. */
  lemma RunCons(el: EventLoop, e: Event, rest: seq<Event>)
    ensures var s := Apply(el, e); var r := Run(s.loop, rest);
      Run(el, [e] + rest) == RunResult(r.loop, ToSeq(s.ran) + r.dispatched, s.calls + r.calls)
  {
    assert ([e] + rest)[0] == e && ([e] + rest)[1..] == rest;
  }

  /** Running `a` and then `b` is the run of `a` followed by the run of `b` from where it stopped. */
  lemma {:induction false} RunAppend(el: EventLoop, a: seq<Event>, b: seq<Event>)
    ensures var ra := Run(el, a); var rb := Run(ra.loop, b);
      Run(el, a + b) == RunResult(rb.loop, ra.dispatched + rb.dispatched, ra.calls + rb.calls)
    decreases |a|
  {
    if |a| == 0 {
      assert a + b == b;
    } else {
      var e, a' := a[0], a[1..];
      var s := Apply(el, e);
      assert a == [e] + a';
      assert a + b == [e] + (a' + b);
      RunCons(el, e, a');
      RunCons(el, e, a' + b);
      RunAppend(s.loop, a', b);
      var ra' := Run(s.loop, a');
      var rb := Run(ra'.loop, b);
      Splice3(ToSeq(s.ran), ra'.dispatched, rb.dispatched);
      Splice3(s.calls, ra'.calls, rb.calls);
    }
  }

  /** The events that submit `ws`, each item with its own handler, one after another. */
  function SubmitAll(ws: seq<Work>): (events: seq<Event>)
    ensures |events| == |ws|
    ensures forall i :: 0 <= i < |ws| ==> events[i] == Submit(ws[i].name, ws[i].fn, ws[i].errorHandler)
  {
    seq(|ws|, i requires 0 <= i < |ws| => Submit(ws[i].name, ws[i].fn, ws[i].errorHandler))
  }

  /** One iteration per clock input. */
  function TurnAll(ts: seq<TickInput>): (events: seq<Event>)
    ensures |events| == |ts|
    ensures forall i :: 0 <= i < |ts| ==> events[i] == Turn(ts[i])
  {
    seq(|ts|, i requires 0 <= i < |ts| => Turn(ts[i]))
  }

  /** Submissions dispatch nothing, call no handler, and queue their items behind the pending ones. */
  lemma {:induction false} SubmitAllQueues(el: EventLoop, ws: seq<Work>)
    ensures Run(el, SubmitAll(ws)).dispatched == []
    ensures Run(el, SubmitAll(ws)).calls == []
    ensures Pending(Run(el, SubmitAll(ws)).loop.queue) == Pending(el.queue) + ws
    decreases |ws|
  {
    if |ws| > 0 {
      var w := ws[0];
      var e := Submit(w.name, w.fn, w.errorHandler);
      var el' := QueueWorkWithError(el, w.name, w.fn, w.errorHandler);
      assert SubmitAll(ws) == [e] + SubmitAll(ws[1..]);
      RunCons(el, e, SubmitAll(ws[1..]));
      assert Apply(el, e) == StepResult(el', None, []);
      SubmitAllQueues(el', ws[1..]);
      var r := Run(el', SubmitAll(ws[1..]));
      assert Run(el, SubmitAll(ws)) == RunResult(r.loop, [] + r.dispatched, [] + r.calls);
      assert Pending(el'.queue) == Pending(el.queue) + [w];
      assert ws == [w] + ws[1..];
      Splice3(Pending(el.queue), [w], ws[1..]);
    }
  }

  /** As many iterations as there are pending items dispatch them all, oldest first. */
  lemma {:induction false} TurnAllDrains(el: EventLoop, ts: seq<TickInput>)
    requires |ts| == |el.queue|
    ensures Run(el, TurnAll(ts)).dispatched == Pending(el.queue)
    ensures Run(el, TurnAll(ts)).loop.queue == []
    decreases |ts|
  {
    if |ts| > 0 {
      var s := Iterate(el, ts[0]);
      assert TurnAll(ts)[0] == Turn(ts[0]) && TurnAll(ts)[1..] == TurnAll(ts[1..]);
      TurnAllDrains(s.loop, ts[1..]);
    }
  }

  /**
    First in, first out at the level of the loop: items submitted to an idle
    loop and then given one iteration each are dispatched in submission order,
    and the queue ends empty.
   */
  lemma {:induction false} SubmitThenTurnInOrder(ws: seq<Work>, ts: seq<TickInput>)
    requires |ts| == |ws|
    ensures Run(NewEventLoop(), SubmitAll(ws) + TurnAll(ts)).dispatched == ws
    ensures Run(NewEventLoop(), SubmitAll(ws) + TurnAll(ts)).loop.queue == []
  {
    var ra := Run(NewEventLoop(), SubmitAll(ws));
    SubmitAllQueues(NewEventLoop(), ws);
    assert Pending(ra.loop.queue) == ws;
    TurnAllDrains(ra.loop, ts);
    RunAppend(NewEventLoop(), SubmitAll(ws), TurnAll(ts));
  }

  /** The handler calls of running the items of `ws` to completion, in order. */
  function ExecuteAll(ws: seq<Work>): (calls: seq<HandlerCall>)
    ensures |calls| <= |ws|
    decreases |ws|
  {
    if |ws| == 0 then [] else SafeExecute(ws[0]) + ExecuteAll(ws[1..])
  }

  /** Every iteration's item finishes before its deadline. */
  predicate NoDeadlineHit(events: seq<Event>)
  {
    forall i :: 0 <= i < |events| && events[i].Turn? ==> events[i].input.race == Finished
  }

  /**
    Failure isolation: when no deadline is hit, the handler calls of a run
    are exactly those of each dispatched item run on its own, in dispatch
    order; a failing item under a custom handler changes nothing for the
    ones after it.  An `Escalated` call from the default handler ends the
    Go process, whereas the model's run continues past it.
   */
  lemma {:induction false} RunCallsAreExecutions(el: EventLoop, events: seq<Event>)
    requires NoDeadlineHit(events)
    ensures Run(el, events).calls == ExecuteAll(Run(el, events).dispatched)
    decreases |events|
  {
    if |events| > 0 {
      assert NoDeadlineHit(events[1..]) by {
        forall i | 0 <= i < |events[1..]| && events[1..][i].Turn?
          ensures events[1..][i].input.race == Finished
        {
          assert events[1..][i] == events[i + 1];
        }
      }
      var e := events[0];
      var s := Apply(el, e);
      var rest := Run(s.loop, events[1..]);
      assert events == [e] + events[1..];
      RunCons(el, e, events[1..]);
      RunCallsAreExecutions(s.loop, events[1..]);
      if s.ran.Some? {
        assert e.Turn? && e.input.race == Finished;
        ExecuteAllCons(s.ran.value, rest.dispatched);
      } else {
        assert s.calls == [] && ToSeq(s.ran) == [];
        assert ToSeq(s.ran) + rest.dispatched == rest.dispatched;
        assert s.calls + rest.calls == rest.calls;
      }
    }
  }

  /** Executing an item and then others is that item's calls followed by theirs. */
  lemma ExecuteAllCons(w: Work, ws: seq<Work>)
    ensures ExecuteAll([w] + ws) == SafeExecute(w) + ExecuteAll(ws)
  {
    assert ([w] + ws)[0] == w && ([w] + ws)[1..] == ws;
  }

  /**
    Items submitted to an idle loop, each then given an iteration that beats
    its deadline, produce exactly the handler calls of running them one by
    one in submission order.
   */
  lemma {:induction false} SubmitThenTurnCalls(ws: seq<Work>, ts: seq<TickInput>)
    requires |ts| == |ws|
    requires forall i :: 0 <= i < |ts| ==> ts[i].race == Finished
    ensures Run(NewEventLoop(), SubmitAll(ws) + TurnAll(ts)).dispatched == ws
    ensures Run(NewEventLoop(), SubmitAll(ws) + TurnAll(ts)).loop.queue == []
    ensures Run(NewEventLoop(), SubmitAll(ws) + TurnAll(ts)).calls == ExecuteAll(ws)
  {
    var events := SubmitAll(ws) + TurnAll(ts);
    assert NoDeadlineHit(events) by {
      forall i | 0 <= i < |events| && events[i].Turn?
        ensures events[i].input.race == Finished
      {
        assert i >= |ws| && events[i] == TurnAll(ts)[i - |ws|];
      }
    }
    SubmitThenTurnInOrder(ws, ts);
    RunCallsAreExecutions(NewEventLoop(), events);
  }

  /** Running two items one by one. */
  lemma ExecuteTwo(w1: Work, w2: Work)
    ensures ExecuteAll([w1, w2]) == SafeExecute(w1) + SafeExecute(w2)
  {
    ExecuteAllCons(w1, [w2]);
    ExecuteAllCons(w2, []);
    assert [w1] + [w2] == [w1, w2] && [w2] + [] == [w2];
  }

  /**
    The ordering test, for any two items whose actions return: submitted one
    after the other and each given an iteration that beats its deadline, the
    first is dispatched before the second, no handler is called and the
    queue ends empty.
   */
  lemma {:induction false} OrderScenario(w1: Work, w2: Work, t1: TickInput, t2: TickInput)
    requires w1.fn == Returned && w2.fn == Returned
    requires t1.race == Finished && t2.race == Finished
    ensures var r := Run(NewEventLoop(), SubmitAll([w1, w2]) + TurnAll([t1, t2]));
      && r.dispatched == [w1, w2]
      && r.loop.queue == []
      && r.calls == []
  {
    SubmitThenTurnCalls([w1, w2], [t1, t2]);
    ExecuteTwo(w1, w2);
  }

  /**
    The error-handling test, for any message: an item panicking with that
    string under a custom handler, then an item that returns; the custom
    handler receives an error carrying exactly that message, once, and the
    second item still runs.
   */
  lemma {:induction false} HandleErrorScenario(w1: Work, w2: Work, msg: string, id: nat, t1: TickInput, t2: TickInput)
    requires w1.fn == Panicked(StringValue(msg)) && w1.errorHandler == Custom(id)
    requires w2.fn == Returned
    requires t1.race == Finished && t2.race == Finished
    ensures var r := Run(NewEventLoop(), SubmitAll([w1, w2]) + TurnAll([t1, t2]));
      && r.calls == [HandlerCall(Custom(id), Error(msg))]
      && r.dispatched == [w1, w2]
  {
    SubmitThenTurnCalls([w1, w2], [t1, t2]);
    ExecuteTwo(w1, w2);
  }
}
