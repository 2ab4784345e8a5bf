/**
 Any number of requests in flight at once through one balancer. A selection is
 not one step but its probes, each with its own look at the server's health and
 at the clock, while the balancer's lock keeps other selections, status polls
 and changes of membership out. Records and health checks need no lock and may
 fall between any two probes. The clock may read anything.
 */
module InFlight {
  import opened Collections
  import opened CircuitBreakers
  import opened Retry
  import F = Fleets

  const MAX_ATTEMPTS := 3

  /** Where one request is: about to select for its n-th attempt, waiting for a server's answer, or answered. */
  datatype Call = Choosing(n: nat) | Waiting(server: nat, n: nat) | Over

  /** Who holds the balancer's lock: a scan for request `c` about to probe position `at`, or a poll with servers to ask. */
  datatype Lock = Free | Scanning(c: nat, at: nat, attempts: nat) | Polling(todo: set<nat>)

  /** Servers are numbered as they are created; a removed one keeps its number and its breaker. */
  datatype State = State(fleet: F.Fleet<nat>, calls: map<nat, (Method, Call)>, lock: Lock)

  datatype Event =
    | Arrive(c: nat, m: Method)
    | Choose(c: nat)
    | Probe(now: int)
    | Settle(c: nat, outcome: Outcome, now: int)
    | SetHealth(server: nat, healthy: bool)
    | Join(server: nat)
    | Leave(i: nat)
    | StartPoll
    | Poll(server: nat, now: int)

  predicate Chooses(s: State, c: nat) {
    c in s.calls && s.calls[c].1.Choosing?
  }

  ghost predicate LockFits(s: State) {
    match s.lock
    case Free => true
    case Scanning(c, at, attempts) =>
      Chooses(s, c) && s.calls[c].1.n < MAX_ATTEMPTS && at < |s.fleet.servers| && attempts <= |s.fleet.servers|
    case Polling(todo) => forall r | r in todo :: r in s.fleet.breakers
  }

  ghost predicate Inv(s: State) {
    && F.Known(s.fleet)
    && (forall r | r in s.fleet.breakers :: Sound(s.fleet.breakers[r]))
    && (forall c | c in s.calls && s.calls[c].1.Waiting? :: s.calls[c].1.server in s.fleet.breakers)
    && LockFits(s)
  }

  function Move(s: State, c: nat, to: Call): State
    requires c in s.calls
  {
    s.(calls := s.calls[c := (s.calls[c].0, to)])
  }

  /** The loop test at position `at`, and what follows from it. */
  function Scan(s: State, c: nat, at: nat, attempts: nat, now: int): State
    requires F.Known(s.fleet) && c in s.calls && s.calls[c].1.Choosing? && at < |s.fleet.servers|
  {
    var n := |s.fleet.servers|;
    if F.Eligible(s.fleet, at, now) then
      var probed := F.Probed(s.fleet, s.fleet.servers[at], now);
      if attempts == n then Move(s.(fleet := probed, lock := Free), c, Over)
      else Move(s.(fleet := probed.(current := F.After(n, at)), lock := Free), c,
                Waiting(s.fleet.servers[at], s.calls[c].1.n))
    else if attempts < n then s.(lock := Scanning(c, F.After(n, at), attempts + 1))
    else Move(s.(lock := Free), c, Over)
  }

  /** An event that cannot happen now changes nothing. */
  function Step(s: State, e: Event): State
    requires Inv(s)
  {
    match e
    case Arrive(c, m) => if c in s.calls then s else s.(calls := s.calls[c := (m, Choosing(0))])
    case Choose(c) =>
      if !Chooses(s, c) then s
      else if s.calls[c].1.n >= MAX_ATTEMPTS then Move(s, c, Over)
      else if !s.lock.Free? then s
      else if s.fleet.servers == [] then Move(s, c, Over)
      else s.(lock := Scanning(c, F.Begin(s.fleet), 0))
    case Probe(now) =>
      if s.lock.Scanning? then Scan(s, s.lock.c, s.lock.at, s.lock.attempts, now) else s
    case Settle(c, outcome, now) =>
      if c !in s.calls || !s.calls[c].1.Waiting? then s
      else
        var (m, call) := s.calls[c];
        var b := Record(s.fleet.breakers[call.server], outcome, now);
        var s' := s.(fleet := s.fleet.(breakers := s.fleet.breakers[call.server := b]));
        Move(s', c, if ShouldRetry(m, outcome) then Choosing(call.n + 1) else Over)
    case SetHealth(r, healthy) =>
      if r in s.fleet.health then s.(fleet := s.fleet.(health := s.fleet.health[r := healthy])) else s
    case Join(r) =>
      if !s.lock.Free? || r in s.fleet.breakers || r in s.fleet.health then s
      else s.(fleet := s.fleet.(servers := s.fleet.servers + [r],
                                health := s.fleet.health[r := true],
                                breakers := s.fleet.breakers[r := New(3, 5)]))
    case Leave(i) =>
      if s.lock.Free? && i < |s.fleet.servers|
      then s.(fleet := s.fleet.(servers := s.fleet.servers[..i] + s.fleet.servers[i + 1..])) else s
    case StartPoll =>
      if s.lock.Free? && s.fleet.servers != [] then s.(lock := Polling(set r | r in s.fleet.servers)) else s
    case Poll(r, now) =>
      if s.lock.Polling? && r in s.lock.todo then
        s.(fleet := F.Probed(s.fleet, r, now),
           lock := if s.lock.todo == {r} then Free else Polling(s.lock.todo - {r}))
      else s
  }

  lemma ScanKeeps(s: State, now: int)
    requires Inv(s) && s.lock.Scanning?
    ensures Inv(Step(s, Probe(now)))
  {
    hide Allow, Sound;
    StaysSound(s.fleet.breakers[s.fleet.servers[s.lock.at]], now);
  }

  lemma StepKeeps(s: State, e: Event)
    requires Inv(s)
    ensures Inv(Step(s, e))
  {
    hide Allow, Succeed, Fail, Sound, ShouldRetry, F.Eligible, Scan;
    match e
    case Probe(now) => if s.lock.Scanning? { ScanKeeps(s, now); }
    case Settle(c, outcome, now) =>
      if c in s.calls && s.calls[c].1.Waiting? {
        StaysSound(s.fleet.breakers[s.calls[c].1.server], now);
      }
    case Join(r) => NewIsSound();
    case Poll(r, now) =>
      if r in s.fleet.breakers { StaysSound(s.fleet.breakers[r], now); }
    case _ =>
  }

  lemma NewIsSound()
    ensures Sound(New(3, 5))
  {}

  function Exec(s: State, es: seq<Event>): (s': State)
    requires Inv(s)
    ensures Inv(s')
  {
    hide Inv, Step;
    if es == [] then s else
    StepKeeps(Exec(s, es[..|es| - 1]), es[|es| - 1]);
    Step(Exec(s, es[..|es| - 1]), es[|es| - 1])
  }

  // ------------------------------------------------ an uninterrupted scan

  /** The probes of one scan with nothing in between; those after its end do nothing. */
  function Probes(clock: nat -> int, k: nat): seq<Event> {
    if k == 0 then [] else Probes(clock, k - 1) + [Probe(clock(k - 1))]
  }

  /** Where a selection for request `c` leaves the system. */
  function Selected(s: State, c: nat, clock: nat -> int): (s': State)
    requires Inv(s) && c in s.calls && s.calls[c].1.Choosing?
    ensures s'.lock == s.lock
  {
    var (f, pick) := F.Select(s.fleet, clock);
    Move(s.(fleet := f), c,
         if pick.None? then Over else Waiting(s.fleet.servers[pick.value], s.calls[c].1.n))
  }

  lemma ExecOneMore(s: State, es: seq<Event>, e: Event)
    requires Inv(s)
    ensures Exec(s, es + [e]) == Step(Exec(s, es), e)
  {
    hide Inv, Step;
    assert (es + [e])[..|es|] == es;
  }

  /** Request `c` may begin a scan now. */
  predicate MayScan(s: State, c: nat) {
    s.lock.Free? && Chooses(s, c) && s.calls[c].1.n < MAX_ATTEMPTS && s.fleet.servers != []
  }

  /** What `k` probes come to: the scan is over, at its selection, or nobody has been ready yet. */
  function Scanned(s: State, c: nat, clock: nat -> int, k: nat): State
    requires Inv(s) && MayScan(s, c) && k <= |s.fleet.servers| + 1
  {
    var n, start := |s.fleet.servers|, F.Begin(s.fleet);
    if k <= F.Nearest(s.fleet, clock, 0)
    then s.(lock := Scanning(c, if k == n then start else F.Ahead(n, start, k), k))
    else Selected(s, c, clock)
  }

  lemma {:induction false} AfterProbes(s: State, c: nat, clock: nat -> int, k: nat)
    requires Inv(s) && MayScan(s, c) && k <= |s.fleet.servers| + 1
    ensures Exec(Step(s, Choose(c)), Probes(clock, k)) == Scanned(s, c, clock, k)
  {
    hide Inv, MayScan, Step, Scanned;
    ScanBegins(s, c, clock);
    if k > 0 {
      AfterProbes(s, c, clock, k - 1);
      ExecOneMore(Step(s, Choose(c)), Probes(clock, k - 1), Probe(clock(k - 1)));
      OneProbe(s, c, clock, k - 1);
    }
  }

  lemma NobodyScans(s: State, now: int)
    requires Inv(s) && !s.lock.Scanning?
    ensures Step(s, Probe(now)) == s
  {}

  lemma ScanBegins(s: State, c: nat, clock: nat -> int)
    requires Inv(s) && MayScan(s, c)
    ensures Inv(Step(s, Choose(c)))
    ensures Step(s, Choose(c)) == Scanned(s, c, clock, 0)
  {
    hide F.Ready, F.Begin, F.Nearest;
    StepKeeps(s, Choose(c));
  }

  lemma OneProbe(s: State, c: nat, clock: nat -> int, k: nat)
    requires Inv(s) && MayScan(s, c) && k <= |s.fleet.servers|
    requires Inv(Scanned(s, c, clock, k))
    ensures Step(Scanned(s, c, clock, k), Probe(clock(k))) == Scanned(s, c, clock, k + 1)
  {
    hide F.Ready, F.Begin, F.Eligible;
    var n := |s.fleet.servers|;
    var start := F.Begin(s.fleet);
    if k < n {
      F.AheadIsReady(s.fleet, k, clock);
      AroundTheRing(n, start, k);
    }
  }

  lemma AroundTheRing(n: nat, start: nat, k: nat)
    requires start < n && k < n
    ensures F.After(n, F.Ahead(n, start, k)) == if k + 1 == n then start else F.Ahead(n, start, k + 1)
  {}

  /** Left alone, the scan comes to the selection that the balancer specifies. */
  lemma ScanIsSelect(s: State, c: nat, clock: nat -> int)
    requires Inv(s) && s.lock.Free? && Chooses(s, c) && s.calls[c].1.n < MAX_ATTEMPTS
    ensures Exec(Step(s, Choose(c)), Probes(clock, |s.fleet.servers| + 1)) == Selected(s, c, clock)
  {
    if s.fleet.servers == [] {
      ExecOneMore(Step(s, Choose(c)), [], Probe(clock(0)));
      assert Probes(clock, 1) == [] + [Probe(clock(0))];
    } else {
      AfterProbes(s, c, clock, |s.fleet.servers| + 1);
    }
  }

  // ------------------------------------------------ attempts

  /** A request never tries more than three times, and one that may not be retried tries once. */
  ghost predicate Bounded(s: State) {
    forall c | c in s.calls ::
      && (s.calls[c].1.Waiting? ==> s.calls[c].1.n < 3 && (s.calls[c].0.Other? ==> s.calls[c].1.n == 0))
      && (s.calls[c].1.Choosing? ==> s.calls[c].1.n <= 3 && (s.calls[c].0.Other? ==> s.calls[c].1.n == 0))
  }

  lemma StepIsBounded(s: State, e: Event)
    requires Inv(s) && Bounded(s)
    ensures Bounded(Step(s, e))
  {
    hide F.Known, F.Eligible, Record, Sound;
  }

  lemma {:induction false} AttemptsAreBounded(s: State, es: seq<Event>)
    requires Inv(s) && Bounded(s)
    ensures Bounded(Exec(s, es))
  {
    hide Inv, Step, Bounded;
    if es != [] {
      AttemptsAreBounded(s, es[..|es| - 1]);
      StepIsBounded(Exec(s, es[..|es| - 1]), es[|es| - 1]);
    }
  }

  /** With the lock free a request gives up exactly after three attempts, or when nobody is listed; else it begins to scan. */
  lemma GivesUpExactly(s: State, c: nat)
    requires Inv(s) && s.lock.Free? && Chooses(s, c)
    ensures var s' := Step(s, Choose(c));
            && s'.fleet == s.fleet && c in s'.calls
            && if s.calls[c].1.n >= 3 || s.fleet.servers == [] then s'.calls[c].1 == Over && s'.lock.Free?
               else s'.calls == s.calls && s'.lock == Scanning(c, F.Begin(s.fleet), 0)
  {}

  /** What an answer does: to the request, to the breaker of the server that gave it, and to nothing else. */
  lemma SettlesExactly(s: State, c: nat, outcome: Outcome, now: int)
    requires Inv(s) && c in s.calls && s.calls[c].1.Waiting?
    ensures var s' := Step(s, Settle(c, outcome, now));
            var (m, r) := (s.calls[c].0, s.calls[c].1.server);
            var b := s.fleet.breakers[r];
            && r in s'.fleet.breakers && c in s'.calls && s'.lock == s.lock
            && s'.calls[c].1 == (if !m.Other? && outcome.SendError? && (outcome.timeout || outcome.network)
                                 then Choosing(s.calls[c].1.n + 1) else Over)
            && (forall d | d in s.calls && d != c :: d in s'.calls && s'.calls[d] == s.calls[d])
            && s'.fleet == s.fleet.(breakers := s.fleet.breakers[r := s'.fleet.breakers[r]])
            && s'.fleet.breakers[r]
               == if outcome.Response? && outcome.status < 500
                  then b.(state := Closed, failures := 0, sent := false, openedAt := 0)
                  else if b.failures + 1 >= b.threshold
                  then b.(failures := b.failures + 1, state := Open, sent := false, openedAt := now)
                  else b.(failures := b.failures + 1)
  {}

  /** Requests arrive and health changes at any time; servers leave and polls begin whenever the lock is free. */
  lemma OthersTakeEffect(s: State, c: nat, m: Method, r: nat, healthy: bool, i: nat)
    requires Inv(s)
    ensures c !in s.calls ==> Step(s, Arrive(c, m)) == s.(calls := s.calls[c := (m, Choosing(0))])
    ensures r in s.fleet.health ==>
              Step(s, SetHealth(r, healthy)) == s.(fleet := s.fleet.(health := s.fleet.health[r := healthy]))
    ensures s.lock.Free? && i < |s.fleet.servers| ==>
              Step(s, Leave(i)).fleet.servers == s.fleet.servers[..i] + s.fleet.servers[i + 1..]
    ensures s.lock.Free? && s.fleet.servers != [] ==>
              && Step(s, StartPoll).lock.Polling?
              && forall x :: x in Step(s, StartPoll).lock.todo <==> x in s.fleet.servers
  {}

  // ------------------------------------------------ one request alone

  lemma {:induction false} ExecAppend(s: State, a: seq<Event>, b: seq<Event>)
    requires Inv(s)
    ensures Exec(s, a + b) == Exec(Exec(s, a), b)
  {
    hide Inv, Step;
    if b == [] {
      assert a + b == a;
    } else {
      var n := |b| - 1;
      ExecAppend(s, a, b[..n]);
      assert (a + b)[..|a + b| - 1] == a + b[..n];
    }
  }

  /** One attempt of request `c`, with nothing in between. */
  function Round(c: nat, a: Attempt, n: nat): seq<Event> {
    [Choose(c)] + Probes(a.clock, n + 1) + [Settle(c, a.outcome, a.recordAt)]
  }

  lemma RoundIs(s: State, c: nat, a: Attempt, n: nat)
    requires Inv(s)
    ensures Inv(Step(s, Choose(c)))
    ensures Exec(s, Round(c, a, n))
         == Step(Exec(Step(s, Choose(c)), Probes(a.clock, n + 1)), Settle(c, a.outcome, a.recordAt))
  {
    hide Inv, Step;
    StepKeeps(s, Choose(c));
    ExecOneMore(s, [], Choose(c));
    assert [] + [Choose(c)] == [Choose(c)];
    ExecAppend(s, [Choose(c)], Probes(a.clock, n + 1));
    ExecOneMore(s, [Choose(c)] + Probes(a.clock, n + 1), Settle(c, a.outcome, a.recordAt));
  }

  /** What a whole attempt comes to. */
  function Attempted(s: State, c: nat, a: Attempt): State
    requires Inv(s) && Chooses(s, c)
  {
    F.SelectTouchesOneBreaker(s.fleet, a.clock);
    var (f1, pick) := F.Select(s.fleet, a.clock);
    if pick.None? then Move(s.(fleet := f1), c, Over)
    else
      KnownServer(s.fleet, pick.value);
      Move(s.(fleet := Recorded(f1, s.fleet.servers[pick.value], a)), c,
           if ShouldRetry(s.calls[c].0, a.outcome) then Choosing(s.calls[c].1.n + 1) else Over)
  }

  lemma SettlesSelected(s: State, c: nat, a: Attempt)
    requires Inv(s) && Chooses(s, c) && Inv(Selected(s, c, a.clock))
    ensures Step(Selected(s, c, a.clock), Settle(c, a.outcome, a.recordAt)) == Attempted(s, c, a)
  {
    hide F.Select, F.Known, Record, ShouldRetry, LockFits, Sound;
    var s1 := Selected(s, c, a.clock);
    if F.Select(s.fleet, a.clock).1.Some? {
      assert s1.calls[c].1.Waiting?;
      assert Step(s1, Settle(c, a.outcome, a.recordAt)).calls == Attempted(s, c, a).calls;
    }
  }

  lemma OneRound(s: State, c: nat, a: Attempt)
    requires Inv(s) && s.lock.Free? && Chooses(s, c) && s.calls[c].1.n < 3
    ensures Exec(s, Round(c, a, |s.fleet.servers|)) == Attempted(s, c, a)
  {
    hide Inv, Step, Exec, Selected, Attempted;
    RoundIs(s, c, a, |s.fleet.servers|);
    ScanIsSelect(s, c, a.clock);
    SettlesSelected(s, c, a);
  }

  /** All the attempts request `c` may still have from the `n`-th on. */
  function Rounds(c: nat, world: nat -> Attempt, n: nat, servers: nat): seq<Event>
    decreases 3 - n
  {
    if n >= 3 then [Choose(c)] else Round(c, world(n), servers) + Rounds(c, world, n + 1, servers)
  }

  lemma OverIsOver(s: State, c: nat, a: Attempt)
    requires Inv(s) && c in s.calls && s.calls[c].1.Over?
    ensures Step(s, Choose(c)) == s && Step(s, Settle(c, a.outcome, a.recordAt)) == s
  {}

  lemma {:induction false} NothingMoreToDo(s: State, c: nat, world: nat -> Attempt, n: nat, servers: nat)
    requires Inv(s) && s.lock.Free? && c in s.calls && s.calls[c].1.Over?
    ensures Exec(s, Rounds(c, world, n, servers)) == s
    decreases 3 - n
  {
    hide Inv, Step, Exec, Round;
    OverIsOver(s, c, world(n));
    if n >= 3 {
      OnlyChoose(s, c);
    } else {
      RoundIs(s, c, world(n), servers);
      ProbesOfNothing(s, world(n).clock, servers + 1);
      ExecAppend(s, Round(c, world(n), servers), Rounds(c, world, n + 1, servers));
      NothingMoreToDo(s, c, world, n + 1, servers);
    }
  }

  lemma OnlyChoose(s: State, c: nat)
    requires Inv(s)
    ensures Exec(s, [Choose(c)]) == Step(s, Choose(c))
  {
    hide Inv, Step;
    ExecOneMore(s, [], Choose(c));
    assert [] + [Choose(c)] == [Choose(c)];
  }

  lemma {:induction false} ProbesOfNothing(s: State, clock: nat -> int, k: nat)
    requires Inv(s) && !s.lock.Scanning?
    ensures Exec(s, Probes(clock, k)) == s
  {
    hide Inv, Step;
    if k > 0 {
      ProbesOfNothing(s, clock, k - 1);
      NobodyScans(s, clock(k - 1));
      ExecOneMore(s, Probes(clock, k - 1), Probe(clock(k - 1)));
    }
  }

  lemma OneAttemptOfAll(s: State, c: nat, world: nat -> Attempt, n: nat, last: Outcome)
    requires Inv(s) && s.lock.Free? && Chooses(s, c) && s.calls[c].1.n == n < 3
    ensures var s1 := Attempted(s, c, world(n)); var m := s.calls[c].0;
            && s1.lock.Free? && c in s1.calls && s1.calls[c].0 == m
            && |s1.fleet.servers| == |s.fleet.servers| && F.Known(s1.fleet)
            && (s1.calls[c].1.Over? || s1.calls[c].1 == Choosing(n + 1))
            && Attempts(s.fleet, m, world, n, 3, last).0
               == if s1.calls[c].1.Over? then s1.fleet else Attempts(s1.fleet, m, world, n + 1, 3, world(n).outcome).0
  {
    hide F.Select, Record, ShouldRetry, F.Known, Sound;
    OneAttempt(s.fleet, world(n));
    F.SelectTouchesOneBreaker(s.fleet, world(n).clock);
  }

  /** A request that nothing else comes between makes exactly the attempts that the transport specifies. */
  lemma {:induction false} AloneIsAttempts(s: State, c: nat, world: nat -> Attempt, n: nat, last: Outcome)
    requires Inv(s) && s.lock.Free? && c in s.calls && s.calls[c].1 == Choosing(n) && n <= 3
    ensures var s' := Exec(s, Rounds(c, world, n, |s.fleet.servers|));
            && s'.fleet == Attempts(s.fleet, s.calls[c].0, world, n, 3, last).0
            && c in s'.calls && s'.calls[c].1 == Over && s'.lock.Free?
    decreases 3 - n
  {
    if n >= 3 {
      OnlyChoose(s, c);
    } else {
      hide Step, Exec, Round, Attempted, Attempts, LockFits, Sound;
      var servers := |s.fleet.servers|;
      OneRound(s, c, world(n));
      OneAttemptOfAll(s, c, world, n, last);
      ExecAppend(s, Round(c, world(n), servers), Rounds(c, world, n + 1, servers));
      var s1 := Exec(s, Round(c, world(n), servers));
      if s1.calls[c].1.Over? {
        NothingMoreToDo(s1, c, world, n + 1, servers);
      } else {
        AloneIsAttempts(s1, c, world, n + 1, world(n).outcome);
      }
    }
  }

  // ------------------------------------------------ any fleet

  function Empty(): (s: State)
    ensures Inv(s)
  {
    State(F.Fleet([], 0, map[], map[]), map[], Free)
  }

  function Joins(rs: seq<nat>): seq<Event> {
    if rs == [] then [] else Joins(rs[..|rs| - 1]) + [Join(rs[|rs| - 1])]
  }

  lemma JoinAdds(s: State, r: nat)
    requires Inv(s) && s.lock.Free? && r !in s.fleet.breakers && r !in s.fleet.health
    ensures Step(s, Join(r)).lock == s.lock && Step(s, Join(r)).calls == s.calls
    ensures var f, f' := s.fleet, Step(s, Join(r)).fleet;
            && f'.servers == f.servers + [r] && f'.current == f.current
            && f'.health == f.health[r := true]
            && f'.breakers == f.breakers[r := Breaker(3, 5, 0, Closed, false, 0)]
  {}

  /** Exactly the servers `rs`, in that order: all healthy, with closed breakers of three failures and five seconds. */
  ghost predicate Together(s: State, rs: seq<nat>) {
    && s.fleet.servers == rs && s.lock.Free? && s.calls == map[]
    && (forall r :: r in s.fleet.breakers <==> r in rs)
    && (forall r :: r in s.fleet.health <==> r in rs)
    && forall r | r in rs :: s.fleet.health[r] && s.fleet.breakers[r] == Breaker(3, 5, 0, Closed, false, 0)
  }

  lemma OneMoreTogether(s: State, rs: seq<nat>, r: nat)
    requires Inv(s) && Together(s, rs) && r !in rs
    ensures Together(Step(s, Join(r)), rs + [r])
  {
    JoinAdds(s, r);
    hide Inv, Step;
  }

  lemma NobodyTogether()
    ensures Together(Exec(Empty(), []), [])
  {
    hide Inv, Step;
  }

  /** Any servers can be brought together, in any order. */
  lemma {:induction false} AnyFleetComesTogether(rs: seq<nat>)
    requires forall i, j | 0 <= i < j < |rs| :: rs[i] != rs[j]
    ensures Together(Exec(Empty(), Joins(rs)), rs)
  {
    hide Inv, Exec, Step, Together, Empty;
    if rs == [] {
      NobodyTogether();
    } else {
      var front, r := rs[..|rs| - 1], rs[|rs| - 1];
      AnyFleetComesTogether(front);
      ExecOneMore(Empty(), Joins(front), Join(r));
      OneMoreTogether(Exec(Empty(), Joins(front)), front, r);
      assert rs == front + [r];
    }
  }
}
