/** wait_until: poll until done or out of time. */
module Polling {

  /** fetch(n) and done(n): what the n-th poll returns, and whether that ends the wait; clock(n): the
      ticks elapsed when it has returned.  Sleeps are no shorter than asked. */
  method WaitUntil<T>(fetch: nat -> T, done: nat -> bool, clock: nat -> int, timeout: int, interval: int)
    returns (finished: bool, state: T, elapsed: int, polls: nat)
    requires interval > 0
    requires clock(0) >= 0 && forall n: nat :: clock(n + 1) >= clock(n) + interval
    ensures polls > 0 && state == fetch(polls - 1) && elapsed == clock(polls - 1)
    ensures finished == done(polls - 1)
    ensures forall n | 0 <= n < polls - 1 :: !done(n) && clock(n) + interval <= timeout
    ensures !finished ==> elapsed + interval > timeout
    ensures polls == 1 || polls <= timeout / interval + 1
  {
    var n := 0;
    while true
      invariant n * interval <= clock(n)
      invariant forall k | 0 <= k < n :: !done(k) && clock(k) + interval <= timeout
      invariant n == 0 || n * interval <= timeout
      decreases timeout - clock(n) + interval
    {
      state := fetch(n);
      elapsed := clock(n);
      polls := n + 1;
      if n > 0 { AtMost(n, interval, timeout); }
      if done(n) { return true, state, elapsed, polls; }
      if elapsed + interval > timeout { return false, state, elapsed, polls; }
      assert (n + 1) * interval == n * interval + interval;
      n := n + 1;
    }
  }

  lemma AtMost(n: nat, interval: int, timeout: int)
    requires interval > 0 && n * interval <= timeout
    ensures n <= timeout / interval
  {
    var q := timeout / interval;
    assert timeout == interval * q + timeout % interval;
    if n > q { Grows(q + 1, n, interval); }
  }

  lemma Grows(a: int, b: int, x: int)
    requires a <= b && x > 0
    ensures a * x <= b * x
  {}
}
