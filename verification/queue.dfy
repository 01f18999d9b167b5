/**
  The work queue of eventloop.go.  The Go slice stores the newest item at
  index 0 (`enqueue` prepends) and `dequeueWork` pops the last element, so
  the storage order is the reverse of the dispatch order.  `Pending` names
  that dispatch order; the lemmas below show it is first-in, first-out.
 */
module WorkQueue {
  import opened Works

  type Queue = seq<Work>

  /** The pending items in the order they will be dispatched: the storage order reversed. */
  function Pending(q: Queue): (p: seq<Work>)
    ensures |p| == |q|
    ensures forall i :: 0 <= i < |q| ==> p[i] == q[|q| - 1 - i]
  {
    seq(|q|, i requires 0 <= i < |q| => q[|q| - 1 - i])
  }

  /** Inserts `w` in front of every stored item. */
  function Enqueue(q: Queue, w: Work): (r: Queue)
    ensures |r| == |q| + 1
    ensures r[0] == w
    ensures r[1..] == q
  {
    [w] + q
  }

  /** Whether anything is pending. */
  function HasWork(q: Queue): (b: bool)
    ensures b <==> |q| > 0
    ensures b <==> Pending(q) != []
  {
    |q| > 0
  }

  /**
    Removes the last stored item; callers check `HasWork` first, as the Go
    code indexes the slice without a guard.
   */
  function Dequeue(q: Queue): (r: (Work, Queue))
    requires HasWork(q)
    ensures r.0 == q[|q| - 1]
    ensures r.1 == q[..|q| - 1]
    ensures [r.0] + Pending(r.1) == Pending(q)
  {
    (q[|q| - 1], q[..|q| - 1])
  }

  /** An enqueued item joins the back of the dispatch order; the rest keep their order. */
  lemma EnqueueJoinsBack(q: Queue, w: Work)
    ensures Pending(Enqueue(q, w)) == Pending(q) + [w]
  {
    assert Pending(Enqueue(q, w)) == Pending(q) + [w];
  }

  /** Enqueues the items of `ws`, first item first. */
  function EnqueueAll(q: Queue, ws: seq<Work>): (r: Queue)
    ensures |r| == |q| + |ws|
    decreases |ws|
  {
    if |ws| == 0 then q else EnqueueAll(Enqueue(q, ws[0]), ws[1..])
  }

  /** After enqueuing `ws`, they wait behind the old items in submission order. */
  lemma {:induction false} EnqueueAllJoinsBack(q: Queue, ws: seq<Work>)
    ensures Pending(EnqueueAll(q, ws)) == Pending(q) + ws
    decreases |ws|
  {
    if |ws| == 0 {
      assert Pending(q) + ws == Pending(q);
    } else {
      EnqueueJoinsBack(q, ws[0]);
      EnqueueAllJoinsBack(Enqueue(q, ws[0]), ws[1..]);
      assert [ws[0]] + ws[1..] == ws;
      assert (Pending(q) + [ws[0]]) + ws[1..] == Pending(q) + ws;
    }
  }

  /** Dequeues until the queue is empty, returning the items in the order taken. */
  method Drain(q: Queue) returns (taken: seq<Work>)
    ensures taken == Pending(q)
  {
    var rest := q;
    taken := [];
    while HasWork(rest)
      invariant taken + Pending(rest) == Pending(q)
      decreases |rest|
    {
      var (w, rest') := Dequeue(rest);
      assert taken + Pending(rest) == (taken + [w]) + Pending(rest');
      taken := taken + [w];
      rest := rest';
    }
    assert Pending(rest) == [];
  }

  /**
    First in, first out: enqueuing `ws` on an empty queue and then dequeuing
    everything yields `ws` in the order it was enqueued.
   */
  method EnqueueThenDrain(ws: seq<Work>) returns (taken: seq<Work>)
    ensures taken == ws
  {
    EnqueueAllJoinsBack([], ws);
    taken := Drain(EnqueueAll([], ws));
  }
}
