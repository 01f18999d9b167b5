/**
  The `work` record of eventloop.go and its failure isolation (`safeExecute`).

  An action is a Go closure; all the event loop can observe of it is whether
  it returned normally or panicked, and with which value.  That observable
  outcome is what a `Work` carries in place of the closure.
 */
module Works {

  /** A value passed to `panic`: a Go string, or anything else. */
  datatype PanicValue =
    | StringValue(s: string)
      /** Any non-string value; `rendered` is what `%s` formatting prints for it. */
    | OtherValue(rendered: string)

  /** What running an action does. */
  datatype Outcome = Returned | Panicked(value: PanicValue)

  /**
    Error values handed to handlers: a message-carrying error, or the
    distinguished `TIMEOUT_ERROR` sentinel, which Go compares by identity and
    so differs from every other error even if the messages agree.
   */
  datatype Error = Error(msg: string) | Timeout

  /** The text `err.Error()` returns. */
  function Message(e: Error): string
  {
    match e
    case Error(msg) => msg
    case Timeout => "Timeout"
  }

  /**
    Error handlers: the default installed by `QueueWork`, which panics again
    with the error it receives, or a caller-supplied one identified by `id`.
   */
  datatype Handler = Rethrow | Custom(id: nat)

  /** A work item: the action, a diagnostic name and the error handler. */
  datatype Work = Work(fn: Outcome, name: string, errorHandler: Handler)

  /** One invocation of a handler with an error. */
  datatype HandlerCall = HandlerCall(handler: Handler, err: Error)

  /** What a handler invocation amounts to for the program. */
  datatype Effect =
    | Delivered(id: nat, err: Error)   // a custom handler received the error
    | Escalated(err: Error)            // the default handler re-panicked: the failure is fatal

  const ErrorPrefix: string := "An error occurred: "

  /** The error `safeExecute` builds from a recovered panic value. */
  function RecoveredError(v: PanicValue): (e: Error)
    ensures e.Error?
    ensures v.StringValue? ==> Message(e) == v.s
    ensures v.OtherValue? ==> Message(e) == ErrorPrefix + v.rendered
  {
    match v
    case StringValue(s) => Error(s)
    case OtherValue(r) => Error(ErrorPrefix + r)
  }

  /**
    Runs the action of `w` with panics recovered.  The result lists the
    handler invocations the run makes: none for a normal return, exactly one,
    to the item's own handler, for a panic.
   */
  function SafeExecute(w: Work): (calls: seq<HandlerCall>)
    ensures w.fn.Returned? <==> |calls| == 0
    ensures w.fn.Panicked? <==> |calls| == 1
    ensures forall c :: c in calls ==> c.handler == w.errorHandler && c.err.Error?
    ensures w.fn.Panicked? && w.fn.value.StringValue? ==> Message(calls[0].err) == w.fn.value.s
    ensures w.fn.Panicked? && w.fn.value.OtherValue? ==>
      Message(calls[0].err) == ErrorPrefix + w.fn.value.rendered
  {
    match w.fn
    case Returned => []
    case Panicked(v) => [HandlerCall(w.errorHandler, RecoveredError(v))]
  }

  /** What invoking a handler does with the error it is given. */
  function Invoke(call: HandlerCall): (e: Effect)
    ensures e.err == call.err
    ensures call.handler.Rethrow? <==> e.Escalated?
    ensures call.handler.Custom? ==> e == Delivered(call.handler.id, call.err)
  {
    match call.handler
    case Rethrow => Escalated(call.err)
    case Custom(id) => Delivered(id, call.err)
  }

  /**
    A string panic value reaches the handler as an error whose message is that
    very string, so distinct string panics stay distinguishable.
   */
  lemma StringPanicMessageRoundTrip(w: Work, s: string)
    requires w.fn == Panicked(StringValue(s))
    ensures SafeExecute(w) == [HandlerCall(w.errorHandler, Error(s))]
    ensures Message(SafeExecute(w)[0].err) == s
  {
  }

  /**
    A recovered panic never produces the timeout sentinel, not even
    `panic("Timeout")`: a handler can tell a timeout from a failure.
   */
  lemma PanicIsNeverTimeout(w: Work)
    ensures forall c :: c in SafeExecute(w) ==> c.err != Timeout
  {
  }

  /**
    With the default handler, a panicking action is never silent: its
    recovered error is re-raised.
   */
  lemma DefaultHandlerEscalates(w: Work)
    requires w.errorHandler == Rethrow && w.fn.Panicked?
    ensures |SafeExecute(w)| == 1
    ensures Invoke(SafeExecute(w)[0]) == Escalated(RecoveredError(w.fn.value))
  {
  }

  /** The scenario of the error-handling test: `panic("foo")` gives the handler the error "foo". */
  lemma FooReachesHandler(id: nat)
    ensures SafeExecute(Work(Panicked(StringValue("foo")), "1", Custom(id)))
         == [HandlerCall(Custom(id), Error("foo"))]
    ensures Invoke(HandlerCall(Custom(id), Error("foo"))) == Delivered(id, Error("foo"))
  {
  }
}
