/**
 Trials of half-open breakers: who carries them, and exactly when nobody does.
 A breaker left half open with no request to settle it never grants again.
 */
module Trials {
  import opened Collections
  import opened CircuitBreakers
  import opened Retry
  import opened InFlight
  import F = Fleets

  /** A request is waiting for this server. */
  predicate Awaited(s: State, r: nat) {
    exists c :: c in s.calls && s.calls[c].1.Waiting? && s.calls[c].1.server == r
  }

  /** The trial is out, but nobody is carrying it. */
  predicate Wedged(s: State, r: nat) {
    r in s.fleet.breakers && s.fleet.breakers[r].state == HalfOpen && !Awaited(s, r)
  }

  /** Is `e` a probe of server `r` that will send no request there: a status poll's, or a scan's last of its start? */
  predicate IdleProbe(s: State, e: Event, r: nat)
    requires Inv(s)
  {
    match e
    case Poll(server, _) => s.lock.Polling? && server in s.lock.todo && server == r
    case Probe(_) =>
      && s.lock.Scanning? && s.lock.attempts == |s.fleet.servers|
      && s.fleet.servers[s.lock.at] == r && s.fleet.health[r]
    case _ => false
  }

  /** The cooldown of the server's open breaker is over, and no request is waiting for the server. */
  predicate TrialDue(s: State, r: nat, now: int) {
    && r in s.fleet.breakers && s.fleet.breakers[r].state == Open
    && now - s.fleet.breakers[r].openedAt >= Cooldown(s.fleet.breakers[r])
    && !Awaited(s, r)
  }

  /** What wedges a server: an idle probe when its trial is due. */
  predicate Wedges(s: State, e: Event, r: nat)
    requires Inv(s)
  {
    IdleProbe(s, e, r) && TrialDue(s, r, e.now)
  }

  lemma StillAwaited(s: State, s': State, r: nat, c: nat)
    requires Awaited(s, r)
    requires forall d | d in s.calls && d != c :: d in s'.calls && s'.calls[d] == s.calls[d]
    requires c in s.calls && s.calls[c].1.Waiting? && s.calls[c].1.server == r ==>
               c in s'.calls && s'.calls[c].1.Waiting? && s'.calls[c].1.server == r
    ensures Awaited(s', r)
  {
    var d :| d in s.calls && s.calls[d].1.Waiting? && s.calls[d].1.server == r;
    assert d in s'.calls && s'.calls[d].1.Waiting? && s'.calls[d].1.server == r;
  }

  /** One request's change leaves alone who waits for the servers it has nothing to do with. */
  lemma MovedIsAwaited(s: State, f: F.Fleet<nat>, lock: Lock, c: nat, to: Call, r: nat)
    requires c in s.calls
    requires s.calls[c].1.Waiting? ==> s.calls[c].1.server != r
    ensures var s' := Move(s.(fleet := f, lock := lock), c, to);
            Awaited(s', r) <==> Awaited(s, r) || (to.Waiting? && to.server == r)
  {
    var s' := Move(s.(fleet := f, lock := lock), c, to);
    if Awaited(s, r) { StillAwaited(s, s', r, c); }
    if to.Waiting? && to.server == r { assert c in s'.calls && s'.calls[c].1 == to; }
    if Awaited(s', r) && !(to.Waiting? && to.server == r) { StillAwaited(s', s, r, c); }
  }

  /** A grant to an open or closed breaker: the one case in which it becomes half open. */
  lemma GrantTurns(b: Breaker, now: int)
    requires Sound(b)
    ensures Allow(b, now).0.state == HalfOpen <==>
              b.state == HalfOpen || (b.state == Open && now - b.openedAt >= Cooldown(b))
    ensures Allow(b, now).1 ==> b.state != HalfOpen
    ensures b.state == Open && now - b.openedAt >= Cooldown(b) ==> Allow(b, now).1
    ensures !Allow(b, now).1 ==> Allow(b, now).0 == b
  {}

  lemma ProbeWedges(s: State, now: int, r: nat)
    requires Inv(s)
    ensures Wedged(Step(s, Probe(now)), r) <==> Wedged(s, r) || Wedges(s, Probe(now), r)
  {
    hide Allow, Sound, Awaited;
    if s.lock.Scanning? {
      var f := s.fleet;
      var c, at, n := s.lock.c, s.lock.at, |s.fleet.servers|;
      var p := f.servers[at];
      GrantTurns(f.breakers[p], now);
      var s' := Step(s, Probe(now));
      MovedIsAwaited(s, s'.fleet, s'.lock, c, s'.calls[c].1, r);
      assert s' == Move(s.(fleet := s'.fleet, lock := s'.lock), c, s'.calls[c].1);
    }
  }

  lemma SettleNeverWedges(s: State, c: nat, outcome: Outcome, now: int, r: nat)
    requires Inv(s)
    ensures Wedged(Step(s, Settle(c, outcome, now)), r) <==> Wedged(s, r)
  {
    hide Succeed, Fail, ShouldRetry, Sound;
    var s' := Step(s, Settle(c, outcome, now));
    if c in s.calls && s.calls[c].1.Waiting? {
      var p := s.calls[c].1.server;
      RecordSettles(s.fleet.breakers[p], now);
      assert Awaited(s, p);
      if r != p { MovedIsAwaited(s, s'.fleet, s'.lock, c, s'.calls[c].1, r); }
      assert s' == Move(s.(fleet := s'.fleet, lock := s'.lock), c, s'.calls[c].1);
    }
  }

  lemma PollWedges(s: State, p: nat, now: int, r: nat)
    requires Inv(s)
    ensures Wedged(Step(s, Poll(p, now)), r) <==> Wedged(s, r) || Wedges(s, Poll(p, now), r)
  {
    hide Allow;
    var s' := Step(s, Poll(p, now));
    assert Awaited(s', r) <==> Awaited(s, r);
    if p in s.fleet.breakers { GrantTurns(s.fleet.breakers[p], now); }
  }

  /**
   Exactly what wedges a server, step by step: a probe that sends no request,
   made when the server's cooldown is over and no request is waiting for it. No
   other probe, no record, retry, change of health or of membership does.
   */
  lemma WedgesExactly(s: State, e: Event, r: nat)
    requires Inv(s)
    ensures Wedged(Step(s, e), r) <==> Wedged(s, r) || Wedges(s, e, r)
  {
    hide Scan;
    match e
    case Probe(now) => ProbeWedges(s, now, r);
    case Settle(c, outcome, now) => SettleNeverWedges(s, c, outcome, now, r);
    case Poll(p, now) => PollWedges(s, p, now, r);
    case Arrive(c, m) =>
      var s' := Step(s, e);
      if Awaited(s, r) { StillAwaited(s, s', r, c); }
      if Awaited(s', r) { StillAwaited(s', s, r, c); }
    case Choose(c) =>
      if Chooses(s, c) { MovedIsAwaited(s, s.fleet, s.lock, c, Over, r); }
      assert Awaited(s.(lock := Scanning(c, 0, 0)), r) <==> Awaited(s, r);
    case Join(p) => assert Awaited(Step(s, e), r) <==> Awaited(s, r); AwaitedIsKnown(s, r);
    case _ => assert Awaited(Step(s, e), r) <==> Awaited(s, r);
  }

  lemma AwaitedIsKnown(s: State, r: nat)
    requires Inv(s)
    ensures Awaited(s, r) ==> r in s.fleet.breakers
  {}

  /** Exactly which runs end with the server wedged: those with a wedging step in them. Once wedged is wedged for ever. */
  lemma {:induction false} RunWedgesExactly(s: State, es: seq<Event>, r: nat)
    requires Inv(s)
    ensures Wedged(Exec(s, es), r) <==>
              Wedged(s, r) || exists k :: 0 <= k < |es| && Wedges(Exec(s, es[..k]), es[k], r)
  {
    hide Inv, Step, Wedged, Wedges;
    if es != [] {
      var n := |es| - 1;
      RunWedgesExactly(s, es[..n], r);
      WedgesExactly(Exec(s, es[..n]), es[n], r);
      forall k | 0 <= k < n ensures es[..n][..k] == es[..k] && es[..n][k] == es[k] {}
    }
  }

  /** Once wedged, a server is never sent a request again, whatever else happens. */
  lemma WedgedForever(s: State, es: seq<Event>, r: nat)
    requires Inv(s) && Wedged(s, r)
    ensures Wedged(Exec(s, es), r) && !Awaited(Exec(s, es), r)
  {
    hide Inv, Exec;
    RunWedgesExactly(s, es, r);
  }

  /** The record of any request waiting for a server settles its half-open breaker. */
  lemma RecordEndsTrial(s: State, c: nat, outcome: Outcome, now: int)
    requires Inv(s) && c in s.calls && s.calls[c].1.Waiting?
    requires s.fleet.breakers[s.calls[c].1.server].state == HalfOpen
    ensures var r := s.calls[c].1.server; var b := Step(s, Settle(c, outcome, now)).fleet.breakers[r];
            b.state == (if Succeeded(outcome) then Closed else Open) && !b.sent
  {}

  // ------------------------------------------------ one reading a selection

  /** Runs in which a selection is one act with one reading of the clock. */
  datatype Act = Do(e: Event) | Selection(c: nat, now: int)

  function Perform(s: State, acts: seq<Act>): (s': State)
    requires Inv(s)
    ensures Inv(s')
  {
    hide Inv, Step;
    if acts == [] then s else
    var before := Perform(s, acts[..|acts| - 1]);
    match acts[|acts| - 1]
    case Do(e) => StepKeeps(before, e); Step(before, e)
    case Selection(c, now) => Undisturbed(before, c, now)
  }

  /** Request `c` gets the lock, if it is free, and probes until its scan is over. */
  function Undisturbed(s: State, c: nat, now: int): (s': State)
    requires Inv(s)
    ensures Inv(s')
  {
    StepKeeps(s, Choose(c));
    Exec(Step(s, Choose(c)), Probes(_ => now, |s.fleet.servers| + 1))
  }

  lemma SelectedNeverWedges(s: State, c: nat, now: int, r: nat)
    requires Inv(s) && Chooses(s, c)
    ensures Wedged(Selected(s, c, _ => now), r) <==> Wedged(s, r)
  {
    hide F.Select, Allow, Sound, Awaited;
    var clock := _ => now;
    F.SelectTouchesOneBreaker(s.fleet, clock);
    var (f, pick) := F.Select(s.fleet, clock);
    var s' := Selected(s, c, clock);
    MovedIsAwaited(s, f, s.lock, c, s'.calls[c].1, r);
    if pick.Some? {
      F.SelectsTheNearest(s.fleet, clock);
      var p := s.fleet.servers[pick.value];
      GrantTurns(s.fleet.breakers[p], now);
    } else {
      F.OneReadingLosesNothing(s.fleet, now);
    }
  }

  lemma UndisturbedNeverWedges(s: State, c: nat, now: int, r: nat)
    requires Inv(s) && s.lock.Free?
    ensures var s' := Undisturbed(s, c, now);
            s'.lock.Free? && (Wedged(s', r) <==> Wedged(s, r))
  {
    hide F.Select, Inv, Awaited, Selected;
    if Chooses(s, c) && s.calls[c].1.n < MAX_ATTEMPTS {
      ScanIsSelect(s, c, _ => now);
      SelectedNeverWedges(s, c, now, r);
    } else {
      StepKeeps(s, Choose(c));
      if Chooses(s, c) { MovedIsAwaited(s, s.fleet, s.lock, c, Over, r); }
      ProbesOfNothing(Step(s, Choose(c)), _ => now, |s.fleet.servers| + 1);
    }
  }

  /** What may come between whole selections when there are no status polls. */
  predicate Aside(e: Event) {
    e.Arrive? || e.Settle? || e.SetHealth? || e.Join? || e.Leave?
  }

  /**
   Without status polls, and with one reading of the clock and one look at the
   fleet for each selection: whenever a breaker is half open, a request is
   waiting for its server.
   */
  lemma {:induction false} NoWedgedTrial(s: State, acts: seq<Act>, r: nat)
    requires Inv(s) && s.lock.Free? && !Wedged(s, r)
    requires forall a | a in acts :: a.Do? ==> Aside(a.e)
    ensures Perform(s, acts).lock.Free? && !Wedged(Perform(s, acts), r)
  {
    hide Inv, Step, Wedged, Undisturbed;
    if acts != [] {
      var front := acts[..|acts| - 1];
      assert forall a | a in front :: a in acts;
      NoWedgedTrial(s, front, r);
      var before := Perform(s, front);
      var last := acts[|acts| - 1];
      assert last in acts;
      match last
      case Do(e) =>
        WedgesExactly(before, e, r);
        AsideKeepsLock(before, e);
      case Selection(c, now) => UndisturbedNeverWedges(before, c, now, r);
    }
  }

  lemma AsideKeepsLock(s: State, e: Event)
    requires Inv(s) && Aside(e)
    ensures Step(s, e).lock == s.lock
    ensures forall r :: !Wedges(s, e, r)
  {}

  // ------------------------------------------------ two runs that wedge

  /** One backend and a GET that has timed out there `k` times, at time 0, and is about to try again. */
  function Failing(k: nat): State {
    State(Alone(k), map[0 := (Get, Choosing(k))], Free)
  }

  function FailedSends(k: nat): seq<Event> {
    if k == 0 then [Join(0), Arrive(0, Get)]
    else FailedSends(k - 1) + [Choose(0)] + [Probe(0)] + [Settle(0, SendError(true, false), 0)]
  }

  lemma FailsOnce(k: nat)
    requires k < 3 && Inv(Failing(k))
    ensures var s1 := Step(Failing(k), Choose(0));
            && Inv(s1)
            && var s2 := Step(s1, Probe(0));
               Inv(s2) && Step(s2, Settle(0, SendError(true, false), 0)) == Failing(k + 1)
  {
    var s1 := Failing(k).(lock := Scanning(0, 0, 0));
    StepKeeps(Failing(k), Choose(0));
    assert Step(Failing(k), Choose(0)) == s1;
    var s2 := Failing(k).(calls := map[0 := (Get, Waiting(0, k))]);
    StepKeeps(s1, Probe(0));
    assert F.Probed(Alone(k), 0, 0).breakers == Alone(k).breakers;
    assert Step(s1, Probe(0)) == s2;
    assert Recorded(Alone(k), 0, TimesOut(k)) == Alone(k + 1) by { AloneFails(k); }
  }

  lemma {:induction false} FailsInARow(k: nat)
    requires k <= 3
    ensures Exec(Empty(), FailedSends(k)) == Failing(k)
  {
    if k == 0 {
      ExecOneMore(Empty(), [], Join(0));
      ExecOneMore(Empty(), [Join(0)], Arrive(0, Get));
      assert [] + [Join(0)] == [Join(0)] && [Join(0)] + [Arrive(0, Get)] == [Join(0), Arrive(0, Get)];
    } else {
      FailsInARow(k - 1);
      var es := FailedSends(k - 1);
      ExecOneMore(Empty(), es, Choose(0));
      ExecOneMore(Empty(), es + [Choose(0)], Probe(0));
      ExecOneMore(Empty(), es + [Choose(0)] + [Probe(0)], Settle(0, SendError(true, false), 0));
      FailsOnce(k - 1);
    }
  }

  lemma PollOfFailing()
    ensures Inv(Failing(3)) && Inv(Failing(3).(lock := Polling({0})))
    ensures Step(Failing(3), StartPoll) == Failing(3).(lock := Polling({0}))
    ensures Wedged(Step(Failing(3).(lock := Polling({0})), Poll(0, 5 * SECOND)), 0)
  {
    assert Step(Failing(3), StartPoll).lock.todo == {0};
  }

  /**
   A status poll that wedges the only backend: it has failed three requests,
   the poll comes as its cooldown ends, and from then on every request is
   answered without it, though it may be well again.
   */
  lemma PollsCanWedge()
    ensures var es := FailedSends(3) + [StartPoll] + [Poll(0, 5 * SECOND)];
            Wedged(Exec(Empty(), es), 0)
  {
    hide Inv, Step, Exec, FailedSends, Failing, Wedged;
    FailsInARow(3);
    PollOfFailing();
    ExecOneMore(Empty(), FailedSends(3), StartPoll);
    ExecOneMore(Empty(), FailedSends(3) + [StartPoll], Poll(0, 5 * SECOND));
  }

  /** A second request arrives and has the lock. */
  function Late(at: Lock): State {
    Failing(3).(calls := map[0 := (Get, Choosing(3)), 1 := (Get, Choosing(0))], lock := at)
  }

  lemma ScanOfFailing()
    ensures Inv(Failing(3)) && Inv(Late(Free)) && Inv(Late(Scanning(1, 0, 0))) && Inv(Late(Scanning(1, 0, 1)))
    ensures Step(Failing(3), Arrive(1, Get)) == Late(Free)
    ensures Step(Late(Free), Choose(1)) == Late(Scanning(1, 0, 0))
    ensures Step(Late(Scanning(1, 0, 0)), Probe(5 * SECOND - 1)) == Late(Scanning(1, 0, 1))
  {}

  lemma LastProbeOfFailing()
    ensures var s := Late(Scanning(1, 0, 1));
            && Inv(s)
            && var s' := Step(s, Probe(5 * SECOND));
               Wedged(s', 0) && 1 in s'.calls && s'.calls[1] == (Get, Over)
  {}

  /**
   A selection that wedges it, with no poll at all: the cooldown ends between
   the scan's first probe of the backend and its last, and the request that
   spent the trial is told that there is no backend.
   */
  lemma SelectionsCanWedge()
    ensures var es := FailedSends(3) + [Arrive(1, Get)] + [Choose(1)] + [Probe(5 * SECOND - 1)] + [Probe(5 * SECOND)];
            var s := Exec(Empty(), es);
            Wedged(s, 0) && 1 in s.calls && s.calls[1] == (Get, Over)
  {
    hide Inv, Step, Exec, FailedSends, Failing, Late, Wedged;
    FailsInARow(3);
    ScanOfFailing();
    LastProbeOfFailing();
    var es := FailedSends(3);
    ExecOneMore(Empty(), es, Arrive(1, Get));
    ExecOneMore(Empty(), es + [Arrive(1, Get)], Choose(1));
    ExecOneMore(Empty(), es + [Arrive(1, Get)] + [Choose(1)], Probe(5 * SECOND - 1));
    ExecOneMore(Empty(), es + [Arrive(1, Get)] + [Choose(1)] + [Probe(5 * SECOND - 1)], Probe(5 * SECOND));
  }
}
