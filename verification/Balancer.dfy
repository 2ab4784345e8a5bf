/** The load balancer as written: backends, the round-robin scan and the register, changed in place. */
module Balancer {
  import opened Collections
  import opened CircuitBreakers
  import F = Fleets
  import R = Registry

  class BackendServer {
    const addr: string
    var health: bool
    const circuitBreaker: CircuitBreaker

    constructor (addr: string)
      ensures this.addr == addr && health
      ensures fresh(circuitBreaker) && circuitBreaker.Value() == New(3, 5)
    {
      this.addr := addr;
      this.health := true;
      this.circuitBreaker := new CircuitBreaker(3, 5);
    }

    method IsAvailable(now: int) returns (available: bool)
      modifies circuitBreaker
      ensures (circuitBreaker.Value(), available) == Allow(old(circuitBreaker.Value()), now)
    {
      available := circuitBreaker.AllowRequest(now);
    }
  }

  /** The address comes out of URL parsing, which may fail. */
  method CreateBackendServer(addr: Option<string>) returns (server: BackendServer?)
    ensures server == null <==> addr.None?
    ensures server != null ==>
              && fresh(server) && fresh(server.circuitBreaker)
              && server.addr == addr.value && server.health && server.circuitBreaker.Value() == New(3, 5)
  {
    match addr
    case None => server := null;
    case Some(a) => server := new BackendServer(a);
  }

  /** Each backend has a breaker of its own, in a sound state. */
  ghost predicate OwnBreakers(ss: seq<BackendServer>)
    reads set s | s in ss :: s.circuitBreaker
  {
    && (forall s, t | s in ss && t in ss && s != t :: s.circuitBreaker != t.circuitBreaker)
    && (forall s | s in ss :: Sound(s.circuitBreaker.Value()))
  }

  lemma FewerBreakers(ss: seq<BackendServer>, ts: seq<BackendServer>)
    requires OwnBreakers(ss) && forall t | t in ts :: t in ss
    ensures OwnBreakers(ts)
  {}

  /** The servers that the statuses are of, in the order they were asked. */
  function Asked(m: map<int, BackendServer>, listed: seq<BackendStatus>): (ss: seq<BackendServer>)
    requires forall status | status in listed :: status.id in m
    ensures |ss| == |listed|
    ensures forall i | 0 <= i < |ss| :: ss[i] == m[listed[i].id]
  {
    seq(|listed|, i requires 0 <= i < |listed| => assert listed[i] in listed; m[listed[i].id])
  }

  /** What the `k`-th status must say, when the ones before it have asked the servers in `asked`. */
  ghost predicate Describes(status: BackendStatus, server: BackendServer, before: F.Fleet<BackendServer>,
                            asked: seq<BackendServer>, clock: nat -> int)
  {
    && server in before.breakers && server in before.health
    && (forall s | s in asked :: s in before.breakers)
    && status.url == server.addr
    && status.healthy == before.health[server]
    && status.available == Allow(F.Polled(before, asked, clock).breakers[server], clock(|asked|)).1
  }

  /** Statuses of different registered ids, none of them among `ids`, each of them right for its turn. */
  ghost predicate Statuses(listed: seq<BackendStatus>, ids: set<int>, m: map<int, BackendServer>,
                           before: F.Fleet<BackendServer>, clock: nat -> int)
  {
    && (forall status | status in listed :: status.id in m && status.id !in ids)
    && (forall i, j | 0 <= i < j < |listed| :: listed[i].id != listed[j].id)
    && (forall i | 0 <= i < |listed| ::
          Describes(listed[i], m[listed[i].id], before, Asked(m, listed)[..i], clock))
  }

  lemma OneMoreStatus(listed: seq<BackendStatus>, status: BackendStatus, ids: set<int>, m: map<int, BackendServer>,
                      before: F.Fleet<BackendServer>, clock: nat -> int)
    requires Statuses(listed, ids, m, before, clock) && status.id in ids && status.id in m
    requires Describes(status, m[status.id], before, Asked(m, listed), clock)
    ensures Statuses(listed + [status], ids - {status.id}, m, before, clock)
    ensures Asked(m, listed + [status]) == Asked(m, listed) + [m[status.id]]
  {
    hide Describes;
    var more := listed + [status];
    assert Asked(m, more) == Asked(m, listed) + [m[status.id]];
    forall i | 0 <= i < |more| ensures Describes(more[i], m[more[i].id], before, Asked(m, more)[..i], clock) {
      assert Asked(m, more)[..i] == Asked(m, listed)[..i];
      assert i == |listed| ==> Asked(m, listed)[..i] == Asked(m, listed);
    }
  }

  /** No server registered under two ids: each status says exactly what a probe of its server would have answered. */
  lemma StatusesAreExact(listed: seq<BackendStatus>, m: map<int, BackendServer>, before: F.Fleet<BackendServer>,
                         clock: nat -> int, i: nat)
    requires Statuses(listed, {}, m, before, clock) && i < |listed|
    requires forall id, id' | id in m && id' in m && m[id] == m[id'] :: id == id'
    ensures listed[i].id in m && m[listed[i].id] in before.breakers
    ensures listed[i].available <==> Allow(before.breakers[m[listed[i].id]], clock(i)).1
  {
    assert forall status | status in listed :: status.id in m;
    DescribedInTurn(listed, m, before, clock, i);
    var asked := Asked(m, listed);
    DifferentAsked(listed, m);
    hide Statuses, Describes, Allow, F.Polled;
    NotYetPolled(before, asked, i, clock);
  }

  lemma DifferentAsked(listed: seq<BackendStatus>, m: map<int, BackendServer>)
    requires forall status | status in listed :: status.id in m
    requires forall i, j | 0 <= i < j < |listed| :: listed[i].id != listed[j].id
    requires forall id, id' | id in m && id' in m && m[id] == m[id'] :: id == id'
    ensures forall i, j | 0 <= i < j < |listed| :: Asked(m, listed)[i] != Asked(m, listed)[j]
  {}

  lemma DescribedInTurn(listed: seq<BackendStatus>, m: map<int, BackendServer>, before: F.Fleet<BackendServer>,
                        clock: nat -> int, i: nat)
    requires Statuses(listed, {}, m, before, clock) && i < |listed|
    requires forall status | status in listed :: status.id in m
    ensures var asked := Asked(m, listed);
            && asked[i] == m[listed[i].id] && asked[i] in before.breakers
            && (forall s | s in asked[..i] :: s in before.breakers)
            && listed[i].available == Allow(F.Polled(before, asked[..i], clock).breakers[asked[i]], clock(i)).1
  {
    hide Allow, F.Polled;
    assert Describes(listed[i], m[listed[i].id], before, Asked(m, listed)[..i], clock);
  }

  lemma NotYetPolled<Ref>(f: F.Fleet<Ref>, rs: seq<Ref>, i: nat, clock: nat -> int)
    requires i < |rs| && rs[i] in f.breakers && forall r | r in rs[..i] :: r in f.breakers
    requires forall j, k | 0 <= j < k < |rs| :: rs[j] != rs[k]
    ensures F.Polled(f, rs[..i], clock).breakers[rs[i]] == f.breakers[rs[i]]
  {
    hide F.Polled, Allow;
    F.PolledOnce(f, rs[..i], clock);
  }

  /** A poll that began in `before` has come to `now`, with these statuses listed and `ids` yet to be asked. */
  ghost predicate Polling(before: F.Fleet<BackendServer>, now: F.Fleet<BackendServer>, listed: seq<BackendStatus>,
                          ids: set<int>, m: map<int, BackendServer>, clock: nat -> int)
  {
    && Statuses(listed, ids, m, before, clock)
    && (forall id | id in m :: m[id] in before.breakers && m[id] in before.health)
    && (forall status | status in listed :: status.id in m)
    && (forall s | s in Asked(m, listed) :: s in before.breakers)
    && now == F.Polled(before, Asked(m, listed), clock)
  }

  lemma PollBegins(before: F.Fleet<BackendServer>, m: map<int, BackendServer>, clock: nat -> int)
    requires forall id | id in m :: m[id] in before.breakers && m[id] in before.health
    ensures Polling(before, before, [], m.Keys, m, clock)
  {}

  lemma PollGoesOn(before: F.Fleet<BackendServer>, now: F.Fleet<BackendServer>, listed: seq<BackendStatus>,
                   status: BackendStatus, ids: set<int>, m: map<int, BackendServer>, clock: nat -> int)
    requires Polling(before, now, listed, ids, m, clock) && status.id in ids && status.id in m
    requires m[status.id] in now.breakers && m[status.id] in now.health
    requires status == BackendStatus(m[status.id].addr, now.health[m[status.id]],
                                     Allow(now.breakers[m[status.id]], clock(|listed|)).1, status.id)
    ensures Polling(before, F.Probed(now, m[status.id], clock(|listed|)), listed + [status], ids - {status.id}, m, clock)
  {
    hide Statuses, Allow;
    var rs := Asked(m, listed);
    assert Describes(status, m[status.id], before, rs, clock);
    OneMoreStatus(listed, status, ids, m, before, clock);
    assert (rs + [m[status.id]])[..|rs|] == rs;
    assert forall s | s in listed + [status] :: s in listed || s == status;
  }

  /**
   The first server in cyclic order from the cursor that is healthy and lets its
   probe through, with the cursor just past it; null if there is none.
   */
  ghost predicate FirstAvailable(f: F.Fleet<BackendServer>, clock: nat -> int, server: BackendServer?, current: nat) {
    && F.Known(f)
    && if server == null
       then f.servers == [] || forall k | 0 <= k < |f.servers| :: !F.Grants(f, k, clock)
       else && f.servers != []
            && exists k :: && 0 <= k < |f.servers| && F.FirstToGrant(f, k, clock)
                           && server == f.servers[(f.current + k) % |f.servers|]
                           && current == (f.current + k + 1) % |f.servers|
  }

  lemma SelectionIsFirst(f: F.Fleet<BackendServer>, clock: nat -> int)
    requires F.Known(f)
    ensures var (f', pick) := F.Select(f, clock);
            FirstAvailable(f, clock, if pick.Some? then f.servers[pick.value] else null, f'.current)
  {
    F.SelectsTheFirstToGrant(f, clock);
    hide F.Select, F.Grants, F.FirstToGrant;
  }

  /** The first occurrence of `server`, at position `i`, is gone, and nothing else. */
  predicate TakenOff(before: seq<BackendServer>, after: seq<BackendServer>, i: nat, server: BackendServer) {
    && i < |before| && before[i] == server
    && (forall j | 0 <= j < i :: before[j] != server)
    && after == before[..i] + before[i + 1..]
  }

  datatype BackendStatus = BackendStatus(url: string, healthy: bool, available: bool, id: int)

  class RoundRobin {
    var servers: seq<BackendServer>
    var current: nat
    var serversMap: map<int, BackendServer>
    var serversCancelMap: map<int, nat>
    var checkers: seq<R.Checker<BackendServer>>

    constructor ()
      ensures Valid() && Registered() == R.Empty<BackendServer>().g && current == 0
    {
      servers, current, serversMap, serversCancelMap, checkers := [], 0, map[], map[], [];
    }

    ghost predicate Valid()
      reads this`servers, this`serversMap, this`serversCancelMap, this`checkers
      reads set s | s in servers :: s.circuitBreaker
    {
      OwnBreakers(servers) && R.Agrees(Registered())
    }

    ghost function Registered(): R.Registry<BackendServer>
      reads this`servers, this`serversMap, this`serversCancelMap, this`checkers
    {
      R.Registry(servers, serversMap, serversCancelMap, checkers)
    }

    ghost function Healths(): map<BackendServer, bool>
      reads this`servers, servers
    {
      map s | s in servers :: s.health
    }

    ghost function BreakerValues(): map<BackendServer, Breaker>
      reads this`servers, set s | s in servers :: s.circuitBreaker
    {
      map s | s in servers :: s.circuitBreaker.Value()
    }

    ghost function View(): F.Fleet<BackendServer>
      reads this`servers, this`current, servers, set s | s in servers :: s.circuitBreaker
    {
      F.Fleet(servers, current, Healths(), BreakerValues())
    }

    lemma ValidIsKnown()
      requires Valid()
      ensures F.Known(View())
    {}

    /** Asks one backend's breaker; the rest of the fleet stays as it was. */
    method Probe(server: BackendServer, now: int) returns (available: bool)
      requires Valid() && server in servers
      modifies server.circuitBreaker
      ensures Valid()
      ensures available == Allow(old(View()).breakers[server], now).1
      ensures View() == F.Probed(old(View()), server, now)
    {
      hide R.Agrees, Allow, Sound;
      StaysSound(server.circuitBreaker.Value(), now);
      available := server.IsAvailable(now);
    }

    /** The scan's loop test: the breaker is asked only if the server is healthy, and a denial leaves it as it was. */
    method Answers(server: BackendServer, now: int) returns (ok: bool)
      requires Valid() && server in servers
      modifies server.circuitBreaker
      ensures Valid()
      ensures ok == (old(View()).health[server] && Allow(old(View()).breakers[server], now).1)
      ensures View() == if ok then F.Probed(old(View()), server, now) else old(View())
    {
      hide R.Agrees, Allow, Sound;
      ok := false;
      ValidIsKnown();
      if !Allow(BreakerValues()[server], now).1 {
        DenialLeavesNoTrace(BreakerValues()[server], now);
      }
      if server.health {
        ok := Probe(server, now);
      }
    }

    method MoveOn(next: nat)
      requires Valid()
      modifies this`current
      ensures Valid() && View() == old(View()).(current := next)
    {
      hide R.Agrees, OwnBreakers;
      current := next;
    }

    /**
     Round robin over the servers that are healthy and whose breakers let the
     request through. `clock(k)` is what the `k`-th probe reads.
     */
    method SelectServer(clock: nat -> int) returns (server: BackendServer?)
      requires Valid()
      modifies this`current, set s | s in servers :: s.circuitBreaker
      ensures Valid()
      ensures View() == F.Select(old(View()), clock).0
      ensures var pick := F.Select(old(View()), clock).1;
              server == if pick.Some? then servers[pick.value] else null
      ensures FirstAvailable(old(View()), clock, server, current)
    {
      hide F.Select, F.Nearest, F.Ready, F.Eligible, F.Probed, R.Agrees, Allow, OwnBreakers, Healths, BreakerValues;
      ghost var before := View();
      ValidIsKnown();
      SelectionIsFirst(before, clock);
      hide FirstAvailable;
      if |servers| == 0 {
        NothingToSelect(before, clock);
        return null;
      }
      ghost var n := |servers|;
      ghost var start := F.Begin(before);
      var currentServer := current % |servers|;
      var maxAttempts := |servers|;
      var attempts := 0;
      var ok := Answers(servers[currentServer], clock(attempts));
      AnswerIsEligible(before, currentServer, clock(attempts));
      FirstInRing(n, start);
      while !ok && attempts < maxAttempts
        invariant 0 <= attempts <= n == maxAttempts && Valid()
        invariant currentServer == if attempts == n then start else F.Ahead(n, start, attempts)
        invariant ok == F.Eligible(before, currentServer, clock(attempts))
        invariant View() == if ok then F.Probed(before, servers[currentServer], clock(attempts)) else before
        invariant forall j | 0 <= j < attempts :: !F.Ready(before, F.Ahead(n, start, j), clock)
      {
        F.AheadIsReady(before, attempts, clock);
        NextInRing(currentServer, n);
        currentServer := (currentServer + 1) % |servers|;
        attempts := attempts + 1;
        ok := Answers(servers[currentServer], clock(attempts));
        AnswerIsEligible(before, currentServer, clock(attempts));
      }
      if attempts < n { F.AheadIsReady(before, attempts, clock); }
      ScanFound(before, clock, attempts);
      if attempts == maxAttempts {
        return null;
      }
      NextInRing(currentServer, n);
      MoveOn((currentServer + 1) % |servers|);
      server := servers[currentServer];
    }

    /** One backend's status; asking for it probes its breaker. */
    method StatusOf(id: int, now: int) returns (status: BackendStatus)
      requires Valid() && id in serversMap && serversMap[id] in servers
      modifies serversMap[id].circuitBreaker
      ensures Valid()
      ensures View() == F.Probed(old(View()), serversMap[id], now)
      ensures status == BackendStatus(serversMap[id].addr, old(View()).health[serversMap[id]],
                                      Allow(old(View()).breakers[serversMap[id]], now).1, id)
    {
      hide Allow, F.Probed;
      var server := serversMap[id];
      var available := Probe(server, now);
      status := BackendStatus(server.addr, server.health, available, id);
    }

    method Put(backends: array<BackendStatus>, index: nat, status: BackendStatus)
      requires Valid() && index < backends.Length
      modifies backends
      ensures Valid() && View() == old(View())
      ensures backends[..index + 1] == old(backends[..index]) + [status]
    {
      hide R.Agrees, OwnBreakers;
      backends[index] := status;
    }

    /**
     The status of every registered backend, in some order, the `k`-th asked at
     `clock(k)`. Asking probes the breaker, so the caller's next look at a
     server's availability may be different, and trials may be spent.
     */
    method GetServers(clock: nat -> int) returns (backends: array<BackendStatus>)
      requires Valid()
      modifies set s | s in servers :: s.circuitBreaker
      ensures Valid() && fresh(backends)
      ensures backends.Length == |servers| == |serversMap|
      ensures Polling(old(View()), View(), backends[..], {}, serversMap, clock)
    {
      hide OwnBreakers, R.Agrees, Allow, Healths, BreakerValues, F.Probed, F.Polled, Describes, Statuses, Polling, Valid, View,
           Registered;
      ValidMeans();
      ghost var before := View();
      backends := new BackendStatus[|servers|](_ => BackendStatus("", false, false, 0));
      var index := 0;
      var ids := serversMap.Keys;
      ghost var listed: seq<BackendStatus> := [];
      PollBegins(before, serversMap, clock);
      while ids != {}
        invariant Valid() && ids <= serversMap.Keys && index + |ids| == backends.Length
        invariant |listed| == index && backends[..index] == listed
        invariant Polling(before, View(), listed, ids, serversMap, clock)
        decreases ids
      {
        ghost var some := Element(ids);
        var id :| id in ids;
        ValidMeans();
        ghost var now := View();
        var status := StatusOf(id, clock(index));
        PollGoesOn(before, now, listed, status, ids, serversMap, clock);
        Put(backends, index, status);
        index := index + 1;
        ids := ids - {id};
        listed := listed + [status];
      }
      assert backends[..] == listed;
    }

    lemma ValidMeans()
      requires Valid()
      ensures |servers| == |serversMap|
      ensures forall r :: r in servers <==> exists id :: id in serversMap && serversMap[id] == r
      ensures forall r | r in servers :: r in View().breakers && r in View().health && Sound(View().breakers[r])
    {
      R.AgreementMeans(Registered());
    }

    /** Adds the backend unless its id is taken. Its breaker is its own: `CreateBackendServer` made it. */
    method AddServer(server: BackendServer, id: int) returns (added: bool)
      requires Valid()
      requires Sound(server.circuitBreaker.Value())
      requires forall s | s in servers && s != server :: s.circuitBreaker != server.circuitBreaker
      modifies this`servers, this`serversMap
      ensures Valid()
      ensures (Registered(), added) == R.Add(old(Registered()), id, server)
      ensures added <==> id !in old(serversMap)
      ensures added ==> serversMap == old(serversMap)[id := server] && servers == old(servers) + [server]
      ensures !added ==> serversMap == old(serversMap) && servers == old(servers)
    {
      if id in serversMap {
        return false;
      }
      R.AddKeepsAgreement(Registered(), id, server);
      serversMap := serversMap[id := server];
      servers := servers + [server];
      added := true;
    }

    /** Starts a checker for the backend if its id is registered, and stores how to cancel it. */
    method StartHealthChecks(id: int, server: BackendServer) returns (started: bool)
      requires Valid()
      modifies this`serversCancelMap, this`checkers
      ensures Valid()
      ensures (Registered(), started) == R.Start(old(Registered()), id, server)
      ensures started <==> id in serversMap
      ensures started ==> checkers == old(checkers) + [R.Checker(id, server, true)]
      ensures started ==> serversCancelMap == old(serversCancelMap)[id := |old(checkers)|]
      ensures !started ==> checkers == old(checkers) && serversCancelMap == old(serversCancelMap)
    {
      if id !in serversMap {
        return false;
      }
      serversCancelMap := serversCancelMap[id := |checkers|];
      checkers := checkers + [R.Checker(id, server, true)];
      started := true;
    }

    /** Forgets the id, cancels its checker and takes its server off the list. */
    method RemoveServer(id: int) returns (removed: bool)
      requires Valid()
      modifies this`servers, this`serversMap, this`serversCancelMap, this`checkers
      ensures Valid()
      ensures (Registered(), removed) == R.Remove(old(Registered()), id)
      ensures removed <==> id in old(serversMap)
      ensures !removed ==> Registered() == old(Registered())
      ensures removed ==>
                && serversMap == old(serversMap) - {id} && serversCancelMap == old(serversCancelMap) - {id}
                && (exists i :: 0 <= i < |old(servers)| && TakenOff(old(servers), servers, i, old(serversMap)[id]))
                && |checkers| == |old(checkers)|
                && forall c | 0 <= c < |checkers| ::
                     checkers[c] == if id in old(serversCancelMap) && c == old(serversCancelMap)[id]
                                    then old(checkers)[c].(live := false) else old(checkers)[c]
    {
      if id !in serversMap {
        return false;
      }
      hide R.Agrees, R.RemoveFirst, OwnBreakers, TakenOff;
      R.RemoveKeepsAgreement(Registered(), id);
      R.RegisteredIsListed(Registered(), id);
      var server := serversMap[id];
      serversMap := serversMap - {id};
      if id in serversCancelMap {
        checkers := R.Cancel(checkers, serversCancelMap[id]);
        serversCancelMap := serversCancelMap - {id};
      } else {
        assert serversCancelMap - {id} == serversCancelMap;
      }
      RemoveFrom(server);
      removed := true;
    }

    /** The scan of the list for the server to take off. */
    method RemoveFrom(server: BackendServer)
      requires OwnBreakers(servers) && server in servers
      modifies this`servers
      ensures servers == R.RemoveFirst(old(servers), server)
      ensures exists i :: 0 <= i < |old(servers)| && TakenOff(old(servers), servers, i, server)
      ensures OwnBreakers(servers)
    {
      var i := 0;
      while servers[i] != server
        invariant 0 <= i < |servers| && server in servers[i..]
        invariant forall j | 0 <= j < i :: servers[j] != server
        decreases |servers| - i
      {
        i := i + 1;
      }
      RemoveFirstAt(servers, server, i);
      FewerBreakers(servers, servers[..i] + servers[i + 1..]);
      servers := servers[..i] + servers[i + 1..];
      assert TakenOff(old(servers), servers, i, server);
    }
  }

  lemma {:induction false} RemoveFirstAt<Ref>(s: seq<Ref>, r: Ref, i: nat)
    requires i < |s| && s[i] == r && forall j | 0 <= j < i :: s[j] != r
    ensures R.RemoveFirst(s, r) == s[..i] + s[i + 1..]
  {
    if i > 0 {
      RemoveFirstAt(s[1..], r, i - 1);
    }
  }

  lemma NextInRing(i: nat, n: nat)
    requires i < n
    ensures (i + 1) % n == F.After(n, i)
  {}

  lemma FirstInRing(n: nat, start: nat)
    requires start < n
    ensures F.Ahead(n, start, 0) == start
  {}

  lemma AnswerIsEligible(f: F.Fleet<BackendServer>, i: nat, now: int)
    requires F.Known(f) && i < |f.servers|
    ensures F.Eligible(f, i, now) == (f.health[f.servers[i]] && Allow(f.breakers[f.servers[i]], now).1)
  {}

  /** A scan that found nobody ready in `d` places, and stopped there, has found the nearest. */
  lemma {:induction false} NearestFrom<Ref>(f: F.Fleet<Ref>, clock: nat -> int, k: nat, d: nat)
    requires F.Known(f) && f.servers != [] && k <= d <= |f.servers|
    requires forall j | k <= j < d :: !F.Ready(f, F.Ahead(|f.servers|, F.Begin(f), j), clock)
    requires d < |f.servers| ==> F.Ready(f, F.Ahead(|f.servers|, F.Begin(f), d), clock)
    ensures F.Nearest(f, clock, k) == d
    decreases d - k
  {
    hide F.Ready, F.Ahead, F.Begin;
    if k < d {
      NearestFrom(f, clock, k + 1, d);
    }
  }

  lemma NothingToSelect<Ref>(f: F.Fleet<Ref>, clock: nat -> int)
    requires F.Known(f) && f.servers == []
    ensures F.Select(f, clock) == (f, None)
  {}

  /** So what the scan stopped at is what is to be selected. */
  lemma ScanFound<Ref>(f: F.Fleet<Ref>, clock: nat -> int, d: nat)
    requires F.Known(f) && f.servers != [] && d <= |f.servers|
    requires forall j | 0 <= j < d :: !F.Ready(f, F.Ahead(|f.servers|, F.Begin(f), j), clock)
    requires d < |f.servers| ==> F.Ready(f, F.Ahead(|f.servers|, F.Begin(f), d), clock)
    ensures d == |f.servers| ==>
              F.Select(f, clock)
              == (if F.Eligible(f, F.Begin(f), clock(d)) then F.Probed(f, f.servers[F.Begin(f)], clock(d)) else f, None)
    ensures d < |f.servers| ==>
              var i := F.Ahead(|f.servers|, F.Begin(f), d);
              F.Select(f, clock) == (F.Probed(f, f.servers[i], clock(d)).(current := F.After(|f.servers|, i)), Some(i))
  {
    NearestFrom(f, clock, 0, d);
  }
}
