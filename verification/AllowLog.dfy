/**
 Sampling of the rows that report allowed queries (`_allow_log_sampled`): a counter modulo 100,
 kept without randomness so that every hundred consecutive calls log exactly `rate` rows.
 */
module AllowLog {

  /** The counter after one call. */
  function Tick(tick: nat): (r: nat)
    requires tick < 100
    ensures r < 100
  {
    if tick == 99 then 0 else tick + 1
  }

  predicate Samples(rate: int, tick: nat) {
    rate >= 100 || (rate > 0 && tick < rate)
  }

  class Sampler {
    var count: nat

    ghost predicate Valid() reads this { count < 100 }

    constructor ()
      ensures Valid() && count == 0
    {
      count := 0;
    }

    method Sampled(rate: int) returns (hit: bool)
      requires Valid()
      modifies this
      ensures Valid()
      ensures count == if 0 < rate < 100 then Tick(old(count)) else old(count)
      ensures hit == Samples(rate, count)
    {
      if rate >= 100 {
        return true;
      }
      if rate <= 0 {
        return false;
      }
      count := (count + 1) % 100;
      return count < rate;
    }
  }

  /** How many of `n` consecutive calls are logged, starting from counter `c`. */
  function Hits(rate: int, c: nat, n: nat): nat
    requires c < 100
    decreases n
  {
    if n == 0 then 0
    else (if Samples(rate, Tick(c)) then 1 else 0) + Hits(rate, Tick(c), n - 1)
  }

  lemma {:induction false} LastCall(rate: int, c: nat, n: nat, last: nat)
    requires c < 100 && last < 100 && n > 0
    requires c + n == last || c + n == last + 100
    ensures Hits(rate, c, n) == Hits(rate, c, n - 1) + (if Samples(rate, last) then 1 else 0)
    decreases n
  {
    if n > 1 {
      LastCall(rate, Tick(c), n - 1, last);
    }
  }

  /** From the end of the cycle on: the first `n` calls see the counters 0 to n - 1. */
  lemma {:induction false} FromZero(rate: int, n: nat)
    requires 0 <= rate <= 100 && n <= 100
    ensures Hits(rate, 99, n) == if n < rate then n else rate
    decreases n
  {
    if n > 0 {
      FromZero(rate, n - 1);
      LastCall(rate, 99, n, n - 1);
    }
  }

  /** Any hundred consecutive calls, wherever the counter stands, log exactly `rate` rows. */
  lemma {:induction false} HundredCallsLogRate(rate: int, c: nat)
    requires 0 <= rate <= 100 && c < 100
    ensures Hits(rate, c, 100) == rate
    decreases 99 - c
  {
    if c == 99 {
      FromZero(rate, 100);
    } else {
      HundredCallsLogRate(rate, c + 1);
      LastCall(rate, c + 1, 100, c + 1);
    }
  }
}
