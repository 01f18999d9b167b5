/**
  The telemetry accumulator of monitoring/counter.go.  The Go type wraps an
  int64 updated atomically; here it is an immutable record over a
  mathematical integer, and every update returns the new counter.
 */
module Counters {

  datatype Counter = Counter(count: int)

  /** A fresh counter reads zero. */
  function NewCounter(): (c: Counter)
    ensures Get(c) == 0
  {
    Counter(0)
  }

  /** The value currently accumulated. */
  function Get(c: Counter): int
  {
    c.count
  }

  /** Adds `n` (which may be negative) to the counter. */
  function Add(c: Counter, n: int): (r: Counter)
    ensures Get(r) - Get(c) == n
  {
    Counter(c.count + n)
  }

  /** Subtracts `n`: the Go code adds `n * -1`. */
  function Sub(c: Counter, n: int): (r: Counter)
    ensures Get(c) - Get(r) == n
    ensures r == Add(c, -n)
  {
    Add(c, n * -1)
  }

  /** Adding and then subtracting the same amount gives back the same counter. */
  lemma AddThenSubRestores(c: Counter, n: int)
    ensures Sub(Add(c, n), n) == c
  {
  }

  /** Updates compose: two additions are one addition of the sum. */
  lemma AddsCompose(c: Counter, m: int, n: int)
    ensures Add(Add(c, m), n) == Add(c, m + n)
  {
  }
}
