/** The retrying transport as written: a loop of select, send, record around the balancer. */
module Transport {
  import opened Collections
  import opened CircuitBreakers
  import opened Retry
  import opened Balancer
  import F = Fleets
  import R = Registry

  lemma RecordIsSound(b: Breaker, a: Attempt)
    requires Sound(b)
    ensures Sound(Record(b, a.outcome, a.recordAt))
  {}

  /** A response below 500 is a success, anything else a failure. */
  method RecordOn(breaker: CircuitBreaker, a: Attempt)
    modifies breaker
    ensures breaker.Value() == Record(old(breaker.Value()), a.outcome, a.recordAt)
  {
    if Succeeded(a.outcome) {
      breaker.RecordSuccess();
    } else {
      breaker.RecordFailure(a.recordAt);
    }
  }

  class RetryBalancerTransport {
    const balancer: RoundRobin
    const maxAttempts: nat

    constructor (balancer: RoundRobin, maxAttempts: nat)
      ensures this.balancer == balancer && this.maxAttempts == maxAttempts
    {
      this.balancer, this.maxAttempts := balancer, maxAttempts;
    }

    /** Records what came of a send on the breaker of the server it went to. */
    method RecordOutcome(server: BackendServer, a: Attempt)
      requires balancer.Valid() && server in balancer.servers
      modifies server.circuitBreaker
      ensures balancer.Valid()
      ensures server in old(balancer.View()).breakers && balancer.View() == Recorded(old(balancer.View()), server, a)
    {
      hide R.Agrees, Sound, Record;
      RecordIsSound(server.circuitBreaker.Value(), a);
      RecordOn(server.circuitBreaker, a);
    }

    /** `world` is what the clock and the network do at each attempt; `sends` is where the request went. */
    method RoundTrip(m: Method, world: nat -> Attempt) returns (answer: Answer, ghost sends: seq<Send<BackendServer>>)
      requires balancer.Valid()
      modifies balancer`current, set s | s in balancer.servers :: s.circuitBreaker
      ensures balancer.Valid()
      ensures (balancer.View(), sends, answer) == Attempts(old(balancer.View()), m, world, 0, maxAttempts, Nothing)
    {
      hide F.Select, F.Known, F.Begin, F.Distance, Attempts, ShouldRetry, Recorded, RoundRobin.Valid, RoundRobin.Healths, RoundRobin.BreakerValues;
      ghost var begun := balancer.View();
      balancer.ValidIsKnown();
      var outcome := Nothing;
      sends := [];
      PrefixedByNone(Attempts(begun, m, world, 0, maxAttempts, outcome));
      var attempt := 0;
      while attempt < maxAttempts
        invariant 0 <= attempt <= maxAttempts && balancer.Valid() && F.Known(balancer.View())
        invariant Attempts(begun, m, world, 0, maxAttempts, Nothing)
               == Prefixed(sends, Attempts(balancer.View(), m, world, attempt, maxAttempts, outcome))
      {
        ghost var f := balancer.View();
        AttemptsUnfold(f, m, world, attempt, maxAttempts, outcome);
        ghost var position := F.Select(f, world(attempt).clock).1;
        var nextServer := balancer.SelectServer(world(attempt).clock);
        if nextServer == null {
          answer := NoHealthyBackends;
          assert sends + [] == sends;
          return;
        }
        outcome := world(attempt).outcome;
        RecordOutcome(nextServer, world(attempt));
        ghost var send := SendTo(f, position.value, world(attempt));
        PrefixedTwice(sends, send, Attempts(balancer.View(), m, world, attempt + 1, maxAttempts, outcome));
        sends := sends + [send];
        if !ShouldRetry(m, outcome) {
          answer := Returned(outcome);
          return;
        }
        attempt := attempt + 1;
      }
      AttemptsUnfold(balancer.View(), m, world, attempt, maxAttempts, outcome);
      answer := Returned(outcome);
      assert sends + [] == sends;
    }
  }

  /** What a whole run comes to, when some sends have been made already and the rest comes to `r`. */
  ghost function Prefixed<Ref>(sends: seq<Send<Ref>>, r: (F.Fleet<Ref>, seq<Send<Ref>>, Answer)): (F.Fleet<Ref>, seq<Send<Ref>>, Answer) {
    (r.0, sends + r.1, r.2)
  }

  lemma PrefixedByNone<Ref>(r: (F.Fleet<Ref>, seq<Send<Ref>>, Answer))
    ensures Prefixed([], r) == r
  {
    assert [] + r.1 == r.1;
  }

  lemma PrefixedTwice<Ref>(sends: seq<Send<Ref>>, send: Send<Ref>, r: (F.Fleet<Ref>, seq<Send<Ref>>, Answer))
    ensures Prefixed(sends, Prefixed([send], r)) == Prefixed(sends + [send], r)
  {
    assert sends + ([send] + r.1) == (sends + [send]) + r.1;
  }

  lemma AttemptsUnfold<Ref>(f: F.Fleet<Ref>, m: Method, world: nat -> Attempt, n: nat, max: nat, last: Outcome)
    requires F.Known(f)
    ensures n >= max ==> Attempts(f, m, world, n, max, last) == (f, [], Returned(last))
    ensures n < max ==>
              var a := world(n);
              var (f1, pick) := F.Select(f, a.clock);
              if pick.None? then Attempts(f, m, world, n, max, last) == (f1, [], NoHealthyBackends)
              else
                && pick.value < |f.servers| && f.servers[pick.value] in f1.breakers
                && var server := f.servers[pick.value];
                   var f2 := Recorded(f1, server, a);
                   var send := SendTo(f, pick.value, a);
                   && F.Known(f2)
                   && Attempts(f, m, world, n, max, last)
                      == if !ShouldRetry(m, a.outcome) then (f2, [send], Returned(a.outcome))
                         else Prefixed([send], Attempts(f2, m, world, n + 1, max, a.outcome))
  {
    hide F.Select, F.Known, F.Begin, F.Distance, Record, ShouldRetry, Recorded;
    if n < max {
      var a := world(n);
      OneAttempt(f, a);
      var (f1, pick) := F.Select(f, a.clock);
    }
  }
}
