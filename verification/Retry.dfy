/** One request's way through the balancer: select, send, record, and perhaps again. */
module Retry {
  import opened Collections
  import opened CircuitBreakers
  import F = Fleets

  datatype Method = Get | Head | Options | Trace | Other(name: string)

  /** What the transport made of one send: a response, an error of some kind, or neither. */
  datatype Outcome = Response(status: int) | SendError(timeout: bool, network: bool) | Nothing

  predicate Succeeded(o: Outcome) { o.Response? && o.status < 500 }

  predicate IsRetryableError(o: Outcome) { o.SendError? && (o.timeout || o.network) }

  predicate ShouldRetry(m: Method, o: Outcome) { !m.Other? && IsRetryableError(o) }

  /** What the world does during one attempt: the clock at each probe, the send's outcome, the clock at the record. */
  datatype Attempt = Attempt(clock: nat -> int, outcome: Outcome, recordAt: int)

  function Record(b: Breaker, o: Outcome, now: int): Breaker {
    if Succeeded(o) then Succeed(b) else Fail(b, now)
  }

  /** Does the record of this outcome count one more failure? */
  predicate CountsAsFailure(b: Breaker, o: Outcome, now: int) {
    Record(b, o, now).failures == b.failures + 1
  }

  /**
   Breakers react to more than retryable failures. What a breaker counts and
   what is tried again are the same exactly for responses below 500, and for
   timeouts and network errors of a method that may be sent twice.
   */
  lemma CountsRetryableExactly(b: Breaker, m: Method, o: Outcome, now: int)
    requires Sound(b)
    ensures CountsAsFailure(b, o, now) <==> !(o.Response? && o.status < 500)
    ensures (CountsAsFailure(b, o, now) <==> ShouldRetry(m, o)) <==>
              match o
              case Response(status) => status < 500
              case SendError(timeout, network) => !m.Other? && (timeout || network)
              case Nothing => false
  {}

  /** A POST answered 503 is one: counted, and not tried again. */
  lemma UnavailableIsCounted(now: int)
    ensures CountsAsFailure(New(3, 5), Response(503), now) && !ShouldRetry(Other("POST"), Response(503))
  {}

  /** One send: the position and the server it went to, when its probe was granted, what came of it and when. */
  datatype Send<Ref> = Send(position: nat, server: Ref, grantedAt: int, outcome: Outcome, recordedAt: int)

  /** The send that a selection of position `i` leads to. */
  function SendTo<Ref>(f: F.Fleet<Ref>, i: nat, a: Attempt): Send<Ref>
    requires i < |f.servers|
  {
    Send(i, f.servers[i], a.clock(F.Distance(|f.servers|, F.Begin(f), i)), a.outcome, a.recordAt)
  }

  datatype Answer = Returned(outcome: Outcome) | NoHealthyBackends

  function Recorded<Ref>(f: F.Fleet<Ref>, r: Ref, a: Attempt): F.Fleet<Ref>
    requires r in f.breakers
  {
    f.(breakers := f.breakers[r := Record(f.breakers[r], a.outcome, a.recordAt)])
  }

  lemma RecordedStaysKnown<Ref>(f: F.Fleet<Ref>, r: Ref, a: Attempt)
    requires F.Known(f) && r in f.servers
    ensures F.Known(Recorded(f, r, a))
  {
    StaysSound(f.breakers[r], a.recordAt);
  }

  /** The attempts from the `n`-th on, of at most `max`; `last` is what the attempt before came to. */
  function Attempts<Ref>(f: F.Fleet<Ref>, m: Method, world: nat -> Attempt, n: nat, max: nat, last: Outcome)
      : (r: (F.Fleet<Ref>, seq<Send<Ref>>, Answer))
    requires F.Known(f)
    decreases max - n
  {
    if n >= max then (f, [], Returned(last)) else
    var a := world(n);
    F.SelectTouchesOneBreaker(f, a.clock);
    var (f1, pick) := F.Select(f, a.clock);
    if pick.None? then (f1, [], NoHealthyBackends) else
    var server := f.servers[pick.value];
    RecordedStaysKnown(f1, server, a);
    var f2 := Recorded(f1, server, a);
    var send := SendTo(f, pick.value, a);
    if !ShouldRetry(m, a.outcome) then (f2, [send], Returned(a.outcome)) else
    var (f3, sends, answer) := Attempts(f2, m, world, n + 1, max, a.outcome);
    (f3, [send] + sends, answer)
  }

  /** What the sends alone do to the breakers: each is granted once and recorded once, where it went. */
  function Effects<Ref>(breakers: map<Ref, Breaker>, sends: seq<Send<Ref>>): map<Ref, Breaker> {
    if sends == [] then breakers
    else if sends[0].server !in breakers then breakers
    else
      var s := sends[0];
      var granted := Allow(breakers[s.server], s.grantedAt).0;
      Effects(breakers[s.server := Record(granted, s.outcome, s.recordedAt)], sends[1..])
  }

  /** The fleet after one attempt that found a server. */
  lemma OneAttempt<Ref>(f: F.Fleet<Ref>, a: Attempt)
    requires F.Known(f)
    ensures var (f1, pick) := F.Select(f, a.clock);
            && (pick.Some? ==>
                  && pick.value < |f.servers| && f.servers[pick.value] in f.breakers && f.servers[pick.value] in f1.breakers
                  && var r := f.servers[pick.value];
                     var f2 := Recorded(f1, r, a);
                     && F.Known(f2) && f2.servers == f.servers && f2.health == f.health
                     && f2.current == F.After(|f.servers|, pick.value)
                     && f2.breakers == f.breakers[r := Record(Allow(f.breakers[r], SendTo(f, pick.value, a).grantedAt).0,
                                                              a.outcome, a.recordAt)])
  {
    hide F.Select, F.Known, Record, Allow, F.Begin, F.Distance;
    F.SelectTouchesOneBreaker(f, a.clock);
    var (f1, pick) := F.Select(f, a.clock);
    if pick.Some? {
      KnownServer(f, pick.value);
      KnownServer(f1, pick.value);
      RecordedStaysKnown(f1, f.servers[pick.value], a);
    }
  }

  /** One of the first `n` readings of the clock. */
  ghost predicate Reads(clock: nat -> int, n: nat, now: int) {
    exists k: nat :: k < n && clock(k) == now
  }

  lemma SendReads<Ref>(f: F.Fleet<Ref>, i: nat, a: Attempt)
    requires i < |f.servers|
    ensures Reads(a.clock, |f.servers|, SendTo(f, i, a).grantedAt)
  {}

  /** For any method, any outcomes and any clock: how many sends, where to, when again, and what is answered. */
  lemma {:induction false} RoundTripRules<Ref>(f: F.Fleet<Ref>, m: Method, world: nat -> Attempt, n: nat, max: nat, last: Outcome)
    requires F.Known(f)
    ensures var (f', sends, answer) := Attempts(f, m, world, n, max, last);
            && (n <= max ==> |sends| <= max - n)
            && (m.Other? ==> |sends| <= 1)
            && (forall i | 0 <= i < |sends| - 1 :: ShouldRetry(m, sends[i].outcome))
            && (forall i | 0 <= i < |sends| ::
                  sends[i].position < |f.servers| && sends[i].server == f.servers[sends[i].position]
                  && sends[i].outcome == world(n + i).outcome && sends[i].recordedAt == world(n + i).recordAt
                  && Reads(world(n + i).clock, |f.servers|, sends[i].grantedAt))
            && (answer.Returned? && n < max ==> sends != [])
            && (answer.Returned? && sends != [] ==> answer.outcome == sends[|sends| - 1].outcome)
            && (answer.Returned? && sends != [] && ShouldRetry(m, answer.outcome) ==> n + |sends| == max)
    decreases max - n
  {
    hide F.Select, F.Known, F.Begin, F.Distance, Record, IsRetryableError, Recorded, Allow, Reads;
    if n < max {
      var a := world(n);
      OneAttempt(f, a);
      var (f1, pick) := F.Select(f, a.clock);
      if pick.Some? {
        SendReads(f, pick.value, a);
        RoundTripRules(Recorded(f1, f.servers[pick.value], a), m, world, n + 1, max, a.outcome);
      }
    }
  }

  /** The fleet once `sends` have been made: their effects, and the cursor just past the last of them. */
  function Afterwards<Ref>(f: F.Fleet<Ref>, sends: seq<Send<Ref>>): F.Fleet<Ref> {
    var last := |sends| - 1;
    f.(breakers := Effects(f.breakers, sends),
       current := if sends == [] then f.current else F.After(|f.servers|, sends[last].position))
  }

  lemma AfterOneAndRest<Ref>(f: F.Fleet<Ref>, a: Attempt, rest: seq<Send<Ref>>)
    requires F.Known(f)
    requires F.Select(f, a.clock).1.Some?
    ensures var (f1, pick) := F.Select(f, a.clock);
            && pick.value < |f.servers| && f.servers[pick.value] in f1.breakers
            && Afterwards(Recorded(f1, f.servers[pick.value], a), rest) == Afterwards(f, [SendTo(f, pick.value, a)] + rest)
  {
    hide F.Select, F.Known, F.After, F.Begin, F.Distance, Record, Recorded, Allow;
    OneAttempt(f, a);
    var (f1, pick) := F.Select(f, a.clock);
    var send := SendTo(f, pick.value, a);
    var sends := [send] + rest;
    assert sends[0] == send && sends[1..] == rest;
    F.SelectTouchesOneBreaker(f, a.clock);
    var f2 := Recorded(f1, f.servers[pick.value], a);
    assert f2.servers == f.servers && f2.health == f.health;
    assert Effects(f2.breakers, rest) == Effects(f.breakers, sends);
    assert rest != [] ==> sends[|sends| - 1] == rest[|rest| - 1];
    assert Afterwards(f2, rest).current == Afterwards(f, sends).current;
  }

  /**
   Each send leaves exactly one grant and one record, on the breaker of the
   server it went to, and nothing else. Only a last selection that finds nobody
   may add to that, what `F.NoneWhenNoneEligible` says.
   */
  lemma {:induction false} OneRecordPerSend<Ref>(f: F.Fleet<Ref>, m: Method, world: nat -> Attempt, n: nat, max: nat, last: Outcome)
    requires F.Known(f)
    ensures var (f', sends, answer) := Attempts(f, m, world, n, max, last);
            var g := Afterwards(f, sends);
            && F.Known(g)
            && (answer.Returned? ==> f' == g)
            && (answer.NoHealthyBackends? ==> F.Select(g, world(n + |sends|).clock) == (f', None))
    decreases max - n
  {
    hide F.Select, F.Known, Record, ShouldRetry, Recorded, Allow, SendTo, Afterwards;
    AfterNone(f);
    if n < max {
      var a := world(n);
      OneAttempt(f, a);
      var (f1, pick) := F.Select(f, a.clock);
      if pick.Some? {
        var f2 := Recorded(f1, f.servers[pick.value], a);
        AfterNone(f2);
        AfterOneAndRest(f, a, []);
        assert [SendTo(f, pick.value, a)] + [] == [SendTo(f, pick.value, a)];
        if ShouldRetry(m, a.outcome) {
          OneRecordPerSend(f2, m, world, n + 1, max, a.outcome);
          AfterOneAndRest(f, a, Attempts(f2, m, world, n + 1, max, a.outcome).1);
        }
      }
    }
  }

  lemma AfterNone<Ref>(f: F.Fleet<Ref>)
    ensures Afterwards(f, []) == f
  {}

  /** The `i`-th send, made at the `n + i`-th attempt, is where a selection picks at that moment. */
  ghost predicate IsSelected<Ref>(f: F.Fleet<Ref>, sends: seq<Send<Ref>>, world: nat -> Attempt, n: nat, i: nat)
    requires i < |sends|
  {
    var g := Afterwards(f, sends[..i]);
    var a := world(n + i);
    && F.Known(g)
    && sends[i].position < |g.servers|
    && F.Select(g, a.clock).1 == Some(sends[i].position)
    && sends[i] == SendTo(g, sends[i].position, a)
  }

  ghost predicate AllSelected<Ref>(f: F.Fleet<Ref>, sends: seq<Send<Ref>>, world: nat -> Attempt, n: nat) {
    forall i | 0 <= i < |sends| :: IsSelected(f, sends, world, n, i)
  }

  lemma FirstIsSelected<Ref>(f: F.Fleet<Ref>, rest: seq<Send<Ref>>, world: nat -> Attempt, n: nat)
    requires F.Known(f) && F.Select(f, world(n).clock).1.Some?
    ensures IsSelected(f, [SendTo(f, F.Select(f, world(n).clock).1.value, world(n))] + rest, world, n, 0)
  {
    hide F.Select, F.Known, F.Begin, F.Distance;
    var sends := [SendTo(f, F.Select(f, world(n).clock).1.value, world(n))] + rest;
    assert sends[..0] == [];
    AfterNone(f);
  }

  lemma RestIsSelected<Ref>(f: F.Fleet<Ref>, rest: seq<Send<Ref>>, world: nat -> Attempt, n: nat, i: nat)
    requires F.Known(f) && F.Select(f, world(n).clock).1.Some? && i < |rest|
    requires var (f1, pick) := F.Select(f, world(n).clock);
             && f.servers[pick.value] in f1.breakers
             && IsSelected(Recorded(f1, f.servers[pick.value], world(n)), rest, world, n + 1, i)
    ensures IsSelected(f, [SendTo(f, F.Select(f, world(n).clock).1.value, world(n))] + rest, world, n, i + 1)
  {
    hide F.Select, F.Known, F.Begin, F.Distance, Recorded, Afterwards, SendTo;
    var send := SendTo(f, F.Select(f, world(n).clock).1.value, world(n));
    AfterOneAndRest(f, world(n), rest[..i]);
    assert ([send] + rest)[..i + 1] == [send] + rest[..i];
  }

  /** Every send goes where a selection picks at that moment, in the fleet that the sends before it have left. */
  lemma {:induction false} EachSendIsSelected<Ref>(f: F.Fleet<Ref>, m: Method, world: nat -> Attempt, n: nat, max: nat, last: Outcome)
    requires F.Known(f)
    ensures AllSelected(f, Attempts(f, m, world, n, max, last).1, world, n)
    decreases max - n
  {
    hide F.Select, F.Known, ShouldRetry, Recorded, SendTo, IsSelected;
    if n < max && F.Select(f, world(n).clock).1.Some? {
      var a := world(n);
      OneAttempt(f, a);
      var (f1, pick) := F.Select(f, a.clock);
      var f2 := Recorded(f1, f.servers[pick.value], a);
      var rest := if ShouldRetry(m, a.outcome) then Attempts(f2, m, world, n + 1, max, a.outcome).1 else [];
      assert Attempts(f, m, world, n, max, last).1 == [SendTo(f, pick.value, a)] + rest;
      if ShouldRetry(m, a.outcome) {
        EachSendIsSelected(f2, m, world, n + 1, max, a.outcome);
      }
      AllOfRest(f, rest, world, n);
    }
  }

  lemma AllOfRest<Ref>(f: F.Fleet<Ref>, rest: seq<Send<Ref>>, world: nat -> Attempt, n: nat)
    requires F.Known(f) && F.Select(f, world(n).clock).1.Some?
    requires var (f1, pick) := F.Select(f, world(n).clock);
             && f.servers[pick.value] in f1.breakers
             && AllSelected(Recorded(f1, f.servers[pick.value], world(n)), rest, world, n + 1)
    ensures AllSelected(f, [SendTo(f, F.Select(f, world(n).clock).1.value, world(n))] + rest, world, n)
  {
    hide F.Select, F.Known, Recorded, SendTo, IsSelected;
    var (f1, pick) := F.Select(f, world(n).clock);
    var sends := [SendTo(f, pick.value, world(n))] + rest;
    var f2, next := Recorded(f1, f.servers[pick.value], world(n)), n + 1;
    assert AllSelected(f2, rest, world, next);
    FirstIsSelected(f, rest, world, n);
    forall i | 0 <= i < |sends| ensures IsSelected(f, sends, world, n, i) {
      if i > 0 {
        assert IsSelected(f2, rest, world, next, i - 1);
        RestIsSelected(f, rest, world, n, i - 1);
      }
    }
  }

  /**
   When a retry goes to the backend that has just failed: exactly when no other
   is ready at that moment.
   */
  lemma RepeatsExactly<Ref>(f: F.Fleet<Ref>, m: Method, world: nat -> Attempt, max: nat, i: nat)
    requires F.Known(f)
    requires i + 1 < |Attempts(f, m, world, 0, max, Nothing).1|
    ensures var sends := Attempts(f, m, world, 0, max, Nothing).1;
            var g := Afterwards(f, sends[..i + 1]);
            var clock := world(i + 1).clock;
            && F.Known(g)
            && (sends[i + 1].position == sends[i].position <==>
                  forall j | 0 <= j < |g.servers| && j != sends[i].position :: !F.Ready(g, j, clock))
            && (NoRepeats(f.servers) ==>
                  (sends[i + 1].server == sends[i].server <==> sends[i + 1].position == sends[i].position))
  {
    hide F.Select, F.Known, F.Ready, F.Begin, F.Distance, Record, ShouldRetry, Attempts, Effects;
    var sends := Attempts(f, m, world, 0, max, Nothing).1;
    EachSendIsSelected(f, m, world, 0, max, Nothing);
    assert IsSelected(f, sends, world, 0, i) && IsSelected(f, sends, world, 0, i + 1);
    var g := Afterwards(f, sends[..i + 1]);
    CursorIsPast(f, sends[..i + 1]);
    F.LastResort(g, world(i + 1).clock, sends[i].position);
    F.NoneWhenNoneEligible(g, world(i + 1).clock);
  }

  /** One healthy backend that has failed `k` requests in a row, at time 0. */
  function Alone(k: nat): (f: F.Fleet<int>)
    ensures F.Known(f) && f.servers == [0]
  {
    F.Fleet([0], 0, map[0 := true], map[0 := Breaker(3, 5, k, if k < 3 then Closed else Open, false, 0)])
  }

  function TimesOut(i: nat): Attempt { Attempt(_ => 0, SendError(true, false), 0) }

  lemma AloneFails(k: nat)
    requires k < 3
    ensures F.Select(Alone(k), TimesOut(k).clock) == (Alone(k), Some(0))
    ensures Recorded(Alone(k), 0, TimesOut(k)) == Alone(k + 1)
  {
    var f := Alone(k);
    var clock := TimesOut(k).clock;
    assert F.Ready(f, 0, clock);
    F.SelectTouchesOneBreaker(f, clock);
    F.NoneWhenNoneEligible(f, clock);
    assert F.Select(f, clock).1 == Some(0);
    assert F.Probed(f, 0, 0).breakers == f.breakers;
  }

  /** A retry does not always find another backend: one that is alone times out three times for the same GET. */
  lemma AloneIsAskedAgain()
    ensures var (f', sends, answer) := Attempts(Alone(0), Get, TimesOut, 0, 3, Nothing);
            && |sends| == 3 && sends[0].server == sends[1].server == sends[2].server == 0
            && answer == Returned(SendError(true, false)) && f' == Alone(3)
  {
    AloneFails(0);
    AloneFails(1);
    AloneFails(2);
    hide Alone, F.Select, Recorded;
    assert Attempts(Alone(3), Get, TimesOut, 3, 3, SendError(true, false)).1 == [];
    assert |Attempts(Alone(2), Get, TimesOut, 2, 3, SendError(true, false)).1| == 1;
    assert |Attempts(Alone(1), Get, TimesOut, 1, 3, SendError(true, false)).1| == 2;
  }

  lemma CursorIsPast<Ref>(f: F.Fleet<Ref>, sends: seq<Send<Ref>>)
    requires sends != [] && sends[|sends| - 1].position < |f.servers|
    ensures F.Begin(Afterwards(f, sends)) == F.After(|f.servers|, sends[|sends| - 1].position)
  {
    F.WithinRing(F.After(|f.servers|, sends[|sends| - 1].position), |f.servers|);
  }

  lemma KnownServer<Ref>(f: F.Fleet<Ref>, i: nat)
    requires F.Known(f) && i < |f.servers|
    ensures f.servers[i] in f.breakers && Sound(f.breakers[f.servers[i]])
  {}

  // ------------------------------------------------ distinct servers

  /** The request arrived at `now`: no probe for it reads an earlier time. */
  ghost predicate NoEarlier(world: nat -> Attempt, now: int) {
    forall i: nat, k: nat :: now <= world(i).clock(k)
  }

  /** Waiting does not make a server ineligible. */
  lemma EligibleStays<Ref>(f: F.Fleet<Ref>, f': F.Fleet<Ref>, i: nat, now: int, later: int)
    requires F.Known(f) && F.Known(f') && i < |f.servers| && now <= later
    requires f'.servers == f.servers && f'.health == f.health
    requires f'.breakers[f.servers[i]] == f.breakers[f.servers[i]] && F.Eligible(f, i, now)
    ensures F.Eligible(f', i, later)
  {}

  lemma ReadyStays<Ref>(f: F.Fleet<Ref>, f': F.Fleet<Ref>, i: nat, now: int, clock: nat -> int)
    requires F.Known(f) && F.Known(f') && i < |f.servers| && forall k: nat :: now <= clock(k)
    requires f'.servers == f.servers && f'.health == f.health
    requires f'.breakers[f.servers[i]] == f.breakers[f.servers[i]] && F.Eligible(f, i, now)
    ensures F.Ready(f', i, clock)
  {
    hide F.Begin, F.Distance;
    EligibleStays(f, f', i, now, clock(F.Distance(|f.servers|, F.Begin(f'), i)));
  }

  ghost predicate NoRepeats<Ref>(s: seq<Ref>) {
    forall i, j | 0 <= i < j < |s| :: s[i] != s[j]
  }

  /**
   The run so far: it began in `f0` at `now`; `picked` are the positions
   already tried, all of them, in ring order from the start, behind `c`, and
   every position that was eligible at the start and lies behind `c` is among them.
   */
  ghost predicate Swept<Ref>(f0: F.Fleet<Ref>, now: int, f: F.Fleet<Ref>, picked: set<nat>, c: nat) {
    var n := |f0.servers|;
    && F.Known(f0) && F.Known(f) && n > 0 && NoRepeats(f0.servers)
    && f.servers == f0.servers && f.health == f0.health
    && c <= n && F.Begin(f) == (if c == n then F.Begin(f0) else F.Ahead(n, F.Begin(f0), c))
    && (forall i | 0 <= i < n && i !in picked :: f.breakers[f0.servers[i]] == f0.breakers[f0.servers[i]])
    && (forall i | i in picked :: i < n && F.Distance(n, F.Begin(f0), i) < c)
    && (forall i | 0 <= i < n && F.Eligible(f0, i, now) && F.Distance(n, F.Begin(f0), i) < c :: i in picked)
  }

  lemma RingFurther(n: nat, start: nat, c: nat, x: nat)
    requires start < n && c < n && x < n
    ensures var from := F.Ahead(n, start, c);
            F.Distance(n, start, x) == if F.Distance(n, from, x) + c < n then F.Distance(n, from, x) + c
                                       else F.Distance(n, from, x) + c - n
    ensures F.Distance(n, start, x) >= c <==> F.Distance(n, F.Ahead(n, start, c), x) + c < n
    ensures F.Distance(n, start, x) + 1 < n ==> F.After(n, x) == F.Ahead(n, start, F.Distance(n, start, x) + 1)
    ensures F.Distance(n, start, x) + 1 == n ==> F.After(n, x) == start
  {}

  /** While an initially eligible position is untried, the next selection is of an untried one, beyond all tried. */
  lemma SweepsOn<Ref>(f0: F.Fleet<Ref>, now: int, f: F.Fleet<Ref>, picked: set<nat>, c: nat, clock: nat -> int, e: nat)
    requires Swept(f0, now, f, picked, c) && forall k: nat :: now <= clock(k)
    requires e < |f0.servers| && F.Eligible(f0, e, now) && e !in picked
    ensures var (f1, pick) := F.Select(f, clock);
            && pick.Some? && pick.value < |f0.servers|
            && F.Distance(|f0.servers|, F.Begin(f0), pick.value) >= c
            && pick.value !in picked
            && (forall i | 0 <= i < |f0.servers| && F.Eligible(f0, i, now)
                           && F.Distance(|f0.servers|, F.Begin(f0), i) < F.Distance(|f0.servers|, F.Begin(f0), pick.value)
                  :: i in picked)
  {
    hide F.Select, F.Eligible, F.Ready, F.Begin, F.Distance, F.Ahead;
    var n := |f0.servers|;
    var start := F.Begin(f0);
    ReadyStays(f0, f, e, now, clock);
    F.NoneWhenNoneEligible(f, clock);
    F.SelectsTheNearest(f, clock);
    var x := F.Select(f, clock).1.value;
    RingFurther(n, start, c, e);
    RingFurther(n, start, c, x);
    forall i | 0 <= i < n && F.Eligible(f0, i, now) && F.Distance(n, start, i) < F.Distance(n, start, x)
      ensures i in picked
    {
      if i !in picked {
        ReadyStays(f0, f, i, now, clock);
        RingFurther(n, start, c, i);
        assert false;
      }
    }
  }

  lemma SweptOneMore<Ref>(f0: F.Fleet<Ref>, now: int, f: F.Fleet<Ref>, picked: set<nat>, c: nat, a: Attempt, e: nat)
    requires Swept(f0, now, f, picked, c) && forall k: nat :: now <= a.clock(k)
    requires e < |f0.servers| && F.Eligible(f0, e, now) && e !in picked
    ensures var (f1, pick) := F.Select(f, a.clock);
            && pick.Some? && pick.value < |f0.servers| && f0.servers[pick.value] in f1.breakers
            && F.Distance(|f0.servers|, F.Begin(f0), pick.value) >= c && pick.value !in picked
            && Swept(f0, now, Recorded(f1, f0.servers[pick.value], a), picked + {pick.value},
                     F.Distance(|f0.servers|, F.Begin(f0), pick.value) + 1)
  {
    hide F.Select, F.Eligible, F.Distance, F.Ahead, Record;
    SweepsOn(f0, now, f, picked, c, a.clock, e);
    F.SelectTouchesOneBreaker(f, a.clock);
    var (f1, pick) := F.Select(f, a.clock);
    var x := pick.value;
    KnownServer(f1, x);
    RecordedStaysKnown(f1, f0.servers[x], a);
    RingFurther(|f0.servers|, F.Begin(f0), 0, x);
    SameRingPlace(f0, x, e);
  }

  lemma SameRingPlace<Ref>(f0: F.Fleet<Ref>, x: nat, e: nat)
    requires x < |f0.servers| && e < |f0.servers|
    ensures F.Distance(|f0.servers|, F.Begin(f0), x) == F.Distance(|f0.servers|, F.Begin(f0), e) ==> x == e
  {}

  /** The positions eligible at `now`. */
  ghost function EligibleAt<Ref>(f: F.Fleet<Ref>, now: int): set<nat>
    requires F.Known(f)
  {
    set i: nat | i < |f.servers| && F.Eligible(f, i, now)
  }

  lemma SomeoneUntried<Ref>(f0: F.Fleet<Ref>, now: int, picked: set<nat>) returns (e: nat)
    requires F.Known(f0) && |picked| < |EligibleAt(f0, now)|
    ensures e in EligibleAt(f0, now) && e !in picked
  {
    if EligibleAt(f0, now) <= picked {
      SmallerSubset(EligibleAt(f0, now), picked);
      assert false;
    }
    e :| e in EligibleAt(f0, now) && e !in picked;
  }

  lemma {:induction false} SmallerSubset<T>(a: set<T>, b: set<T>)
    requires a <= b
    ensures |a| <= |b|
  {
    assert b == a + (b - a);
  }

  /** While untried eligible servers are left, each send goes further round the ring than the one before. */
  lemma {:induction false} SendsGoOn<Ref>(f0: F.Fleet<Ref>, now: int, f: F.Fleet<Ref>, picked: set<nat>, c: nat,
                                          m: Method, world: nat -> Attempt, n: nat, max: nat, last: Outcome)
    requires Swept(f0, now, f, picked, c) && NoEarlier(world, now)
    requires |picked| <= |EligibleAt(f0, now)|
    ensures var (f', sends, answer) := Attempts(f, m, world, n, max, last);
            var left := |EligibleAt(f0, now)| - |picked|;
            && (forall i | 0 <= i < |sends| && i < left ::
                  sends[i].position < |f0.servers| && F.Distance(|f0.servers|, F.Begin(f0), sends[i].position) >= c)
            && (forall i, j | 0 <= i < j < |sends| && j < left ::
                  && sends[i].position < |f0.servers| && sends[j].position < |f0.servers|
                  && F.Distance(|f0.servers|, F.Begin(f0), sends[i].position)
                     < F.Distance(|f0.servers|, F.Begin(f0), sends[j].position))
            && (answer == NoHealthyBackends ==> |sends| >= left)
    decreases max - n
  {
    hide F.Select, F.Known, F.Eligible, F.Distance, F.Begin, Record, ShouldRetry, Recorded, Allow, Swept, EligibleAt;
    SweptMeans(f0, now, f, picked, c);
    if n < max && |picked| < |EligibleAt(f0, now)| {
      var a := world(n);
      var e := SomeoneUntried(f0, now, picked);
      EligibleAtMeans(f0, now, e);
      SweptOneMore(f0, now, f, picked, c, a, e);
      OneAttempt(f, a);
      var (f1, pick) := F.Select(f, a.clock);
      var x := pick.value;
      if ShouldRetry(m, a.outcome) {
        SendsGoOn(f0, now, Recorded(f1, f0.servers[x], a), picked + {x}, F.Distance(|f0.servers|, F.Begin(f0), x) + 1,
                  m, world, n + 1, max, a.outcome);
      }
    }
  }

  lemma EligibleAtMeans<Ref>(f: F.Fleet<Ref>, now: int, e: nat)
    requires F.Known(f) && e in EligibleAt(f, now)
    ensures e < |f.servers| && F.Eligible(f, e, now)
  {}

  lemma SweptMeans<Ref>(f0: F.Fleet<Ref>, now: int, f: F.Fleet<Ref>, picked: set<nat>, c: nat)
    requires Swept(f0, now, f, picked, c)
    ensures F.Known(f0) && F.Known(f) && f.servers == f0.servers && f0.servers != []
  {}

  /**
   Retries spread out. In a run that nothing else disturbs, with the clock not
   going back, let k servers be eligible when the request arrives: the first k
   sends go to different servers, and the balancer does not run out before.
   */
  lemma FirstSendsAreDistinct<Ref>(f: F.Fleet<Ref>, m: Method, world: nat -> Attempt, max: nat, now: int)
    requires F.Known(f) && NoRepeats(f.servers) && NoEarlier(world, now)
    ensures var (f', sends, answer) := Attempts(f, m, world, 0, max, Nothing);
            var k := |EligibleAt(f, now)|;
            && (forall i, j | 0 <= i < j < |sends| && j < k :: sends[i].server != sends[j].server)
            && (answer == NoHealthyBackends ==> |sends| >= k)
  {
    hide F.Select, F.Eligible, Record, ShouldRetry, Attempts, EligibleAt, F.Distance;
    NoneEligibleInNone(f, now);
    if f.servers != [] {
      StartsSwept(f, now);
      SendsGoOn(f, now, f, {}, 0, m, world, 0, max, Nothing);
    }
    RoundTripRules(f, m, world, 0, max, Nothing);
  }

  lemma NoneEligibleInNone<Ref>(f: F.Fleet<Ref>, now: int)
    requires F.Known(f)
    ensures f.servers == [] ==> |EligibleAt(f, now)| == 0
  {
    if f.servers == [] {
      assert EligibleAt(f, now) == {};
    }
  }

  lemma StartsSwept<Ref>(f: F.Fleet<Ref>, now: int)
    requires F.Known(f) && f.servers != [] && NoRepeats(f.servers)
    ensures Swept(f, now, f, {}, 0)
  {}
}
