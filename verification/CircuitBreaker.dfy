/**
 Circuit breakers of the intelligence sources and of the upstream resolver, and the
 degradation window (`circuit_breaker`).  Each method is one critical section; the clock is
 read inside it.  Thresholds and timeouts are the configuration the source reads per call.
 */
module CircuitBreaker {

  datatype Phase = Closed | Open | HalfOpen

  datatype Breaker = Breaker(phase: Phase, failures: nat, openedAt: real)

  const FRESH := Breaker(Closed, 0, 0.0)

  // ----- one breaker, on values -----

  /** Whether a call may go out now; an expired window lets exactly one probe through. */
  predicate Grants(b: Breaker, now: real, timeout: real) {
    b.phase == Closed || (b.phase == Open && now - b.openedAt >= timeout)
  }

  function Asked(b: Breaker, now: real, timeout: real): Breaker {
    if b.phase == Open && Grants(b, now, timeout) then b.(phase := HalfOpen) else b
  }

  function Succeeded(b: Breaker): Breaker {
    b.(phase := Closed, failures := 0)
  }

  function Failed(b: Breaker, now: real, threshold: nat): Breaker {
    match b.phase
    case HalfOpen => Breaker(Open, threshold, now)
    case Open => b
    case Closed =>
      if threshold > 0 && b.failures + 1 >= threshold
      then Breaker(Open, b.failures + 1, now)
      else b.(failures := b.failures + 1)
  }

  // ----- the degradation window, on values -----

  datatype Mode = Intercept | Degrade

  datatype Window = Window(failsafes: nat, until: real, openings: nat)

  predicate IsDegradedAt(w: Window, now: real) {
    now < w.until
  }

  /** A fail-safe answer at `now` opens a window. */
  predicate Opens(w: Window, now: real, mode: Mode, threshold: nat) {
    mode == Degrade && threshold > 0 && w.failsafes + 1 >= threshold && now >= w.until
  }

  function FailsafeSeen(w: Window, now: real, mode: Mode, threshold: nat, width: real): Window {
    if Opens(w, now, mode, threshold)
    then Window(0, now + width, w.openings + 1)
    else w.(failsafes := w.failsafes + 1)
  }

  function VerdictSeen(w: Window, now: real): Window {
    if now < w.until then Window(0, 0.0, w.openings) else w.(failsafes := 0)
  }

  // ----- the module's state -----

  /** A source without an entry behaves as a fresh, closed breaker. */
  function SourceIn(breakers: map<string, Breaker>, name: string): Breaker {
    if name in breakers then breakers[name] else FRESH
  }

  class Guard {
    var breakers: map<string, Breaker>
    var upstream: Breaker
    var openCount: nat
    var fastFails: nat
    var window: Window

    constructor ()
      ensures breakers == map[] && upstream == FRESH && window == Window(0, 0.0, 0)
      ensures openCount == 0 && fastFails == 0
    {
      breakers, upstream, window := map[], FRESH, Window(0, 0.0, 0);
      openCount, fastFails := 0, 0;
    }

    function Source(name: string): Breaker
      reads this
    {
      SourceIn(breakers, name)
    }

    method AllowsSource(name: string, now: real, timeout: real) returns (allowed: bool)
      modifies this`breakers
      ensures allowed == Grants(old(Source(name)), now, timeout)
      ensures var b := old(Source(name));
              && (allowed <==> b.phase == Closed || (b.phase == Open && b.openedAt + timeout <= now))
              && Source(name) == if b.phase == Open && allowed then b.(phase := HalfOpen) else b
      ensures Source(name) == Asked(old(Source(name)), now, timeout)
      ensures forall n: string | n != name :: Source(n) == old(Source(n))
    {
      if name !in breakers {
        return true;
      }
      var br := breakers[name];
      if br.phase == Closed {
        return true;
      }
      if br.phase == Open {
        if now - br.openedAt >= timeout {
          breakers := breakers[name := br.(phase := HalfOpen)];
          return true;
        }
        return false;
      }
      return false;
    }

    method RecordSuccess(name: string)
      modifies this`breakers
      ensures Source(name) == Succeeded(old(Source(name)))
      ensures forall n: string | n != name :: Source(n) == old(Source(n))
    {
      if name in breakers {
        breakers := breakers[name := breakers[name].(phase := Closed, failures := 0)];
      }
    }

    method RecordFailure(name: string, now: real, threshold: nat)
      modifies this`breakers
      ensures Source(name) == Failed(old(Source(name)), now, threshold)
      ensures forall n: string | n != name :: Source(n) == old(Source(n))
    {
      var br := if name in breakers then breakers[name] else FRESH;
      breakers := breakers[name := br];
      if br.phase == HalfOpen {
        breakers := breakers[name := Breaker(Open, threshold, now)];
        return;
      }
      if br.phase == Open {
        return;
      }
      br := br.(failures := br.failures + 1);
      if threshold > 0 && br.failures >= threshold {
        br := br.(phase := Open, openedAt := now);
      }
      breakers := breakers[name := br];
    }

    method UpstreamAllows(now: real, timeout: real) returns (allowed: bool)
      modifies this`upstream, this`fastFails
      ensures allowed == Grants(old(upstream), now, timeout)
      ensures allowed <==>
                old(upstream).phase == Closed
                || (old(upstream).phase == Open && old(upstream).openedAt + timeout <= now)
      ensures var b := old(upstream);
              upstream == if b.phase == Open && allowed then b.(phase := HalfOpen) else b
      ensures upstream == Asked(old(upstream), now, timeout)
      ensures fastFails == old(fastFails) + (if old(upstream).phase == Open && !allowed then 1 else 0)
    {
      if upstream.phase == Closed {
        return true;
      }
      if upstream.phase == Open {
        if now - upstream.openedAt >= timeout {
          upstream := upstream.(phase := HalfOpen);
          return true;
        }
        fastFails := fastFails + 1;
        return false;
      }
      return false;
    }

    method UpstreamRecordSuccess()
      modifies this`upstream
      ensures upstream == Succeeded(old(upstream))
    {
      upstream := upstream.(phase := Closed, failures := 0);
    }

    method UpstreamRecordFailure(now: real, threshold: nat)
      modifies this`upstream, this`openCount
      ensures upstream == Failed(old(upstream), now, threshold)
      ensures openCount == old(openCount) + (if old(upstream).phase == Closed && upstream.phase == Open then 1 else 0)
    {
      if upstream.phase == HalfOpen {
        upstream := Breaker(Open, threshold, now);
        return;
      }
      if upstream.phase == Open {
        return;
      }
      upstream := upstream.(failures := upstream.failures + 1);
      if threshold > 0 && upstream.failures >= threshold {
        upstream := upstream.(phase := Open, openedAt := now);
        openCount := openCount + 1;
      }
    }

    method IsDegraded(now: real) returns (degraded: bool)
      ensures degraded == IsDegradedAt(window, now) && (degraded <==> now < window.until)
    {
      degraded := now < window.until;
    }

    method RecordFailsafe(now: real, mode: Mode, threshold: nat, width: real)
      modifies this`window
      ensures window == FailsafeSeen(old(window), now, mode, threshold, width)
      ensures mode == Intercept || threshold == 0 ==>
                window.until == old(window).until && window.openings == old(window).openings
    {
      window := window.(failsafes := window.failsafes + 1);
      if mode != Degrade || threshold <= 0 {
        return;
      }
      if window.failsafes >= threshold && now >= window.until {
        window := window.(until := now + width, openings := window.openings + 1);
        window := window.(failsafes := 0);
      }
    }

    method RecordVerdict(now: real)
      modifies this`window
      ensures window == VerdictSeen(old(window), now)
    {
      var inWindow := now < window.until;
      window := window.(failsafes := 0);
      if inWindow {
        window := window.(until := 0.0);
      }
    }
  }
}
