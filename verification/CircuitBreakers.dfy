/** One backend's circuit breaker: as a value, and as the object that changes in place. */
module CircuitBreakers {

  const SECOND := 1_000_000_000

  datatype CircuitState = Closed | Open | HalfOpen

  /** `timeout` is in seconds, `openedAt` a clock reading in nanoseconds. */
  datatype Breaker = Breaker(threshold: int, timeout: int, failures: int, state: CircuitState, sent: bool, openedAt: int)

  function New(threshold: int, timeout: int): Breaker {
    Breaker(threshold, timeout, 0, Closed, false, 0)
  }

  function Cooldown(b: Breaker): int { b.timeout * SECOND }

  /** What a probe at `now` answers, and what it makes of the breaker. */
  function Allow(b: Breaker, now: int): (Breaker, bool) {
    var b' := if b.state == Open && now - b.openedAt >= Cooldown(b) then b.(state := HalfOpen) else b;
    match b'.state
    case Open => (b', false)
    case HalfOpen => if b'.sent then (b', false) else (b'.(sent := true), true)
    case Closed => (b', true)
  }

  function Succeed(b: Breaker): Breaker {
    b.(state := Closed, failures := 0, sent := false, openedAt := 0)
  }

  function Fail(b: Breaker, now: int): Breaker {
    var b' := b.(failures := b.failures + 1);
    if b'.failures >= b'.threshold then b'.(state := Open, sent := false, openedAt := now) else b'
  }

  /** Half open is having the trial out; closed is being below the threshold. */
  predicate Sound(b: Breaker) {
    && b.threshold >= 1 && b.failures >= 0
    && (b.state == HalfOpen <==> b.sent)
    && (b.state == Closed <==> b.failures < b.threshold)
  }

  lemma StaysSound(b: Breaker, now: int)
    requires Sound(b)
    ensures Sound(Allow(b, now).0) && Sound(Succeed(b)) && Sound(Fail(b, now))
  {}

  /** A denied probe leaves no trace, so asking again at the same instant is denied again. */
  lemma DenialLeavesNoTrace(b: Breaker, now: int)
    requires Sound(b) && !Allow(b, now).1
    ensures Allow(b, now).0 == b
  {}

  /** Whatever comes of a request settles a half-open breaker. */
  lemma RecordSettles(b: Breaker, now: int)
    requires Sound(b)
    ensures Succeed(b).state == Closed
    ensures Fail(b, now).state != HalfOpen
    ensures b.state == HalfOpen ==> Fail(b, now).state == Open && !Fail(b, now).sent
  {}

  class CircuitBreaker {
    const failureThreshold: int
    const timeout: int
    var failureCount: int
    var state: CircuitState
    var halfOpenSent: bool
    var openingTime: int

    constructor (failureThreshold: int, timeout: int)
      ensures Value() == New(failureThreshold, timeout)
    {
      this.failureThreshold, this.timeout := failureThreshold, timeout;
      failureCount, state, halfOpenSent, openingTime := 0, Closed, false, 0;
    }

    function Value(): Breaker
      reads this
    {
      Breaker(failureThreshold, timeout, failureCount, state, halfOpenSent, openingTime)
    }

    method AllowRequest(now: int) returns (granted: bool)
      modifies this
      ensures (Value(), granted) == Allow(old(Value()), now)
      ensures old(Sound(Value())) ==> Sound(Value()) && (!granted ==> Value() == old(Value()))
      ensures granted <==>
                || old(state) == Closed
                || (old(state) == Open && now - old(openingTime) >= timeout * 1_000_000_000 && !old(halfOpenSent))
                || (old(state) == HalfOpen && !old(halfOpenSent))
      ensures failureCount == old(failureCount) && openingTime == old(openingTime)
      ensures granted && old(state) != Closed ==> state == HalfOpen && halfOpenSent
    {
      if state == Open && now - openingTime >= timeout * SECOND {
        state := HalfOpen;
      }
      match state {
        case Open => granted := false;
        case HalfOpen =>
          granted := !halfOpenSent;
          halfOpenSent := true;
        case Closed => granted := true;
      }
    }

    method RecordSuccess()
      modifies this
      ensures Value() == Succeed(old(Value()))
      ensures state == Closed && failureCount == 0 && !halfOpenSent
      ensures old(Sound(Value())) ==> Sound(Value())
    {
      state := Closed;
      failureCount := 0;
      halfOpenSent := false;
      openingTime := 0;
    }

    method RecordFailure(now: int)
      modifies this
      ensures Value() == Fail(old(Value()), now)
      ensures failureCount == old(failureCount) + 1
      ensures if failureCount >= failureThreshold then state == Open && !halfOpenSent && openingTime == now
              else state == old(state) && halfOpenSent == old(halfOpenSent) && openingTime == old(openingTime)
      ensures old(Sound(Value())) ==> Sound(Value())
    {
      failureCount := failureCount + 1;
      if failureCount >= failureThreshold {
        state := Open;
        halfOpenSent := false;
        openingTime := now;
      }
    }
  }
}
