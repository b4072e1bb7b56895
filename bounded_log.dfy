/** The bounded append-only logs of the measurement loggers: a call records one
    entry while there is room and nothing once the log holds `capacity`
    entries. */
module BoundedLogs {

  function Min(a: nat, b: nat): nat
  {
    if a <= b then a else b
  }

  /** The log after one call that offers `x`. */
  function Record<T>(log: seq<T>, x: T, capacity: nat): seq<T>
  {
    if |log| < capacity then log + [x] else log
  }

  /** The log after calls offering `xs[0]`, `xs[1]`, ... in turn, from empty. */
  function Replay<T>(xs: seq<T>, capacity: nat): seq<T>
  {
    if |xs| == 0 then [] else Record(Replay(xs[..|xs| - 1], capacity), xs[|xs| - 1], capacity)
  }

  /** The log keeps the first `capacity` offers, in order, and drops the
      rest. */
  lemma {:induction false} ReplayKeepsFirst<T>(xs: seq<T>, capacity: nat)
    ensures Replay(xs, capacity) == xs[..Min(|xs|, capacity)]
  {
    if |xs| > 0 {
      var init := xs[..|xs| - 1];
      ReplayKeepsFirst(init, capacity);
      assert init[..Min(|init|, capacity)] == xs[..Min(|init|, capacity)];
      if |init| < capacity {
        assert xs[..|init|] + [xs[|xs| - 1]] == xs[..|xs|];
      }
    }
  }

  /** A call never changes what is already logged. */
  lemma RecordExtends<T>(log: seq<T>, x: T, capacity: nat)
    ensures log <= Record(log, x, capacity)
    ensures |Record(log, x, capacity)| <= if |log| < capacity then capacity else |log|
  {
  }
}
