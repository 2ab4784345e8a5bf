/** The breaker against its whole history: when it grants, and how far apart its trials are. */
module BreakerHistory {
  import opened Arithmetic
  import opened CircuitBreakers

  /** What happened to a breaker, each with the clock's reading. */
  datatype Event = Probe(now: int) | Success(now: int) | Failure(now: int)

  function Play(b: Breaker, trace: seq<Event>): Breaker {
    if trace == [] then b else
    var before := Play(b, trace[..|trace| - 1]);
    match trace[|trace| - 1]
    case Probe(now) => Allow(before, now).0
    case Success(_) => Succeed(before)
    case Failure(now) => Fail(before, now)
  }

  /** Failures since the last success. */
  function Failures(trace: seq<Event>): nat {
    if trace == [] then 0 else
    var before := trace[..|trace| - 1];
    match trace[|trace| - 1]
    case Probe(_) => Failures(before)
    case Success(_) => 0
    case Failure(_) => Failures(before) + 1
  }

  function LastFailure(trace: seq<Event>): int {
    if trace == [] then 0
    else if trace[|trace| - 1].Failure? then trace[|trace| - 1].now
    else LastFailure(trace[..|trace| - 1])
  }

  /** Has any probe been granted since the last failure or success? */
  function GrantedSince(threshold: int, cooldown: int, trace: seq<Event>): bool
    decreases |trace|, 1
  {
    if trace == [] then false else
    var before := trace[..|trace| - 1];
    match trace[|trace| - 1]
    case Probe(now) => GrantedSince(threshold, cooldown, before) || Grants(threshold, cooldown, before, now)
    case _ => false
  }

  /**
   The rule a caller can rely on, told by the history alone: a probe is granted
   while fewer than `threshold` failures have come in since the last success,
   and otherwise when the last failure is old enough and nothing has been
   granted since it.
   */
  function Grants(threshold: int, cooldown: int, trace: seq<Event>, now: int): bool
    decreases |trace|, 2
  {
    || Failures(trace) < threshold
    || (now - LastFailure(trace) >= cooldown && !GrantedSince(threshold, cooldown, trace))
  }

  lemma {:induction false} PlayRemembers(threshold: int, timeout: int, trace: seq<Event>)
    requires threshold >= 1
    ensures var b := Play(New(threshold, timeout), trace);
            && Sound(b) && b.threshold == threshold && b.timeout == timeout
            && b.failures == Failures(trace)
            && (Failures(trace) >= threshold ==>
                  b.openedAt == LastFailure(trace) && b.sent == GrantedSince(threshold, Cooldown(b), trace))
  {
    if trace != [] {
      PlayRemembers(threshold, timeout, trace[..|trace| - 1]);
    }
  }

  /** The breaker's four fields are enough: over every trace it grants exactly what its history says it should. */
  lemma RefinesHistory(threshold: int, timeout: int, trace: seq<Event>, now: int)
    requires threshold >= 1
    ensures Allow(Play(New(threshold, timeout), trace), now).1 <==> Grants(threshold, timeout * SECOND, trace, now)
  {
    PlayRemembers(threshold, timeout, trace);
  }

  /** For the balancer's backends: three failures, and then five seconds in nanoseconds. */
  lemma BackendsRefineHistory(trace: seq<Event>, now: int)
    ensures Allow(Play(New(3, 5), trace), now).1 <==>
              || Failures(trace) < 3
              || (now - LastFailure(trace) >= 5_000_000_000 && !GrantedSince(3, 5_000_000_000, trace))
  {
    RefinesHistory(3, 5, trace, now);
  }

  /** The clock does not go back. */
  predicate Ordered(trace: seq<Event>) {
    forall i, j | 0 <= i < j < |trace| :: trace[i].now <= trace[j].now
  }

  /** The `i`-th event is a trial: a probe granted although the breaker has tripped. */
  predicate Trial(threshold: int, cooldown: int, trace: seq<Event>, i: nat)
    requires i < |trace|
  {
    && trace[i].Probe?
    && Failures(trace[..i]) >= threshold
    && Grants(threshold, cooldown, trace[..i], trace[i].now)
  }

  /** A grant is remembered until something is recorded. */
  lemma {:induction false} GrantIsRemembered(threshold: int, cooldown: int, trace: seq<Event>, i: nat)
    requires i < |trace| && trace[i].Probe? && Grants(threshold, cooldown, trace[..i], trace[i].now)
    requires forall k | i < k < |trace| :: trace[k].Probe?
    ensures GrantedSince(threshold, cooldown, trace)
  {
    var n := |trace| - 1;
    if i < n {
      assert trace[..n][..i] == trace[..i];
      GrantIsRemembered(threshold, cooldown, trace[..n], i);
    }
  }

  lemma {:induction false} LastFailureIsLate(trace: seq<Event>, k: nat)
    requires Ordered(trace) && k < |trace| && trace[k].Failure?
    ensures trace[k].now <= LastFailure(trace)
  {
    var n := |trace| - 1;
    if !trace[n].Failure? {
      LastFailureIsLate(trace[..n], k);
    }
  }

  /** Two trials with no success between them are at least the cooldown apart, whatever else arrives in between. */
  lemma TrialsAreSpaced(threshold: int, cooldown: int, trace: seq<Event>, i: nat, j: nat)
    requires Ordered(trace) && i < j < |trace|
    requires Trial(threshold, cooldown, trace, i) && Trial(threshold, cooldown, trace, j)
    requires forall k | i < k < j :: !trace[k].Success?
    ensures trace[j].now - trace[i].now >= cooldown
  {
    var past := trace[..j];
    assert past[..i] == trace[..i];
    if forall k | i < k < j :: past[k].Probe? {
      GrantIsRemembered(threshold, cooldown, past, i);
      assert false;
    }
    var k :| i < k < j && !past[k].Probe?;
    LastFailureIsLate(past, k);
  }

  function Trials(threshold: int, cooldown: int, trace: seq<Event>, lo: nat, hi: nat): nat
    requires lo <= hi <= |trace|
    decreases hi
  {
    if lo == hi then 0
    else Trials(threshold, cooldown, trace, lo, hi - 1) + if Trial(threshold, cooldown, trace, hi - 1) then 1 else 0
  }

  lemma OneMoreTimes(n: int, cooldown: int)
    ensures n * cooldown == (n - 1) * cooldown + cooldown
  {}

  lemma {:induction false} TrialsSpread(threshold: int, cooldown: int, trace: seq<Event>, lo: nat, hi: nat)
      returns (first: nat, last: nat)
    requires Ordered(trace) && lo <= hi <= |trace|
    requires forall k | lo <= k < hi :: !trace[k].Success?
    requires Trials(threshold, cooldown, trace, lo, hi) > 0
    ensures lo <= first <= last < hi && Trial(threshold, cooldown, trace, last)
    ensures trace[last].now - trace[first].now >= (Trials(threshold, cooldown, trace, lo, hi) - 1) * cooldown
    decreases hi
  {
    hide Trial, Ordered;
    var m := hi - 1;
    var n := Trials(threshold, cooldown, trace, lo, m);
    if n == 0 {
      first, last := m, m;
    } else {
      first, last := TrialsSpread(threshold, cooldown, trace, lo, m);
      if Trial(threshold, cooldown, trace, m) {
        TrialsAreSpaced(threshold, cooldown, trace, last, m);
        OneMoreTimes(n, cooldown);
        last := m;
      }
    }
  }

  lemma WindowFits(n: nat, cooldown: int, window: nat)
    requires cooldown > 0
    ensures n == 0 || (n - 1) * cooldown <= window ==> n <= window / cooldown + 1
  {
    if n > 0 && (n - 1) * cooldown <= window {
      assert cooldown * (n - 1) <= window;
      Quotient(window, cooldown, n - 1);
    }
  }

  /** While no success comes in, any stretch of `window` nanoseconds holds at most `window / cooldown + 1` trials. */
  lemma TrialsAreFew(threshold: int, cooldown: int, trace: seq<Event>, lo: nat, hi: nat, window: nat)
    requires cooldown > 0 && Ordered(trace) && lo <= hi <= |trace|
    requires forall k | lo <= k < hi :: !trace[k].Success?
    requires lo < hi ==> trace[hi - 1].now - trace[lo].now <= window
    ensures Trials(threshold, cooldown, trace, lo, hi) <= window / cooldown + 1
  {
    var n := Trials(threshold, cooldown, trace, lo, hi);
    WindowFits(n, cooldown, window);
    if n > 0 {
      var first, last := TrialsSpread(threshold, cooldown, trace, lo, hi);
    }
  }
}
