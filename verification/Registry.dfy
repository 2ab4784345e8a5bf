/**
 The balancer's register of backends: who is listed, under which id, and which
 health checkers run. Registering a backend takes two lock sections, one to
 add it and one to start its checker, and a removal may land between them.
 */
module Registry {
  import opened Collections

  /** One checker goroutine: the id and server it was started for, and whether it is still uncancelled. */
  datatype Checker<Ref> = Checker(id: int, server: Ref, live: bool)

  /** `cancels` leads from an id to the checker its stored cancel function stops; `checkers` are all ever started. */
  datatype Registry<Ref(==)> = Registry(servers: seq<Ref>,
                                        byId: map<int, Ref>,
                                        cancels: map<int, nat>,
                                        checkers: seq<Checker<Ref>>)

  function Add<Ref>(g: Registry<Ref>, id: int, server: Ref): (Registry<Ref>, bool) {
    if id in g.byId then (g, false)
    else (g.(byId := g.byId[id := server], servers := g.servers + [server]), true)
  }

  /** A cancel function already stored under the id is overwritten, not called. */
  function Start<Ref>(g: Registry<Ref>, id: int, server: Ref): (Registry<Ref>, bool) {
    if id !in g.byId then (g, false)
    else (g.(cancels := g.cancels[id := |g.checkers|], checkers := g.checkers + [Checker(id, server, true)]), true)
  }

  function RemoveFirst<Ref(==)>(s: seq<Ref>, r: Ref): seq<Ref> {
    if s == [] then []
    else if s[0] == r then s[1..]
    else [s[0]] + RemoveFirst(s[1..], r)
  }

  function Cancel<Ref>(checkers: seq<Checker<Ref>>, c: nat): seq<Checker<Ref>> {
    if c < |checkers| then checkers[c := checkers[c].(live := false)] else checkers
  }

  function Remove<Ref>(g: Registry<Ref>, id: int): (Registry<Ref>, bool) {
    if id !in g.byId then (g, false)
    else (g.(byId := g.byId - {id},
             servers := RemoveFirst(g.servers, g.byId[id]),
             checkers := if id in g.cancels then Cancel(g.checkers, g.cancels[id]) else g.checkers,
             cancels := g.cancels - {id}),
          true)
  }

  /** The list holds exactly the registered servers, each as often as it is registered. */
  ghost predicate Agrees<Ref>(g: Registry<Ref>) {
    multiset(g.servers) == Values(g.byId)
  }

  lemma {:induction false} RemoveFirstTakesOne<Ref>(s: seq<Ref>, r: Ref)
    requires r in s
    ensures multiset(RemoveFirst(s, r)) == multiset(s) - multiset{r}
  {
    assert s == [s[0]] + s[1..];
    if s[0] != r {
      RemoveFirstTakesOne(s[1..], r);
    }
  }

  lemma RegisteredIsListed<Ref>(g: Registry<Ref>, id: int)
    requires Agrees(g) && id in g.byId
    ensures g.byId[id] in g.servers
  {
    ValuesRemove(g.byId, id);
    assert g.byId[id] in multiset(g.servers);
  }

  lemma {:induction false} ValueHasKey<Ref>(m: map<int, Ref>, r: Ref)
    requires r in Values(m)
    ensures exists id :: id in m && m[id] == r
    decreases m.Keys
  {
    if m.Keys != {} {
      var id := Element(m.Keys);
      ValuesRemove(m, id);
      if m[id] != r {
        assert (m - {id}).Keys < m.Keys;
        ValueHasKey(m - {id}, r);
      }
    }
  }

  lemma ListedIsRegistered<Ref>(g: Registry<Ref>, r: Ref)
    requires Agrees(g) && r in g.servers
    ensures exists id :: id in g.byId && g.byId[id] == r
  {
    assert r in multiset(g.servers);
    ValueHasKey(g.byId, r);
  }

  lemma AddKeepsAgreement<Ref>(g: Registry<Ref>, id: int, server: Ref)
    requires Agrees(g)
    ensures Agrees(Add(g, id, server).0)
  {
    if id !in g.byId {
      ValuesInsert(g.byId, id, server);
    }
  }

  lemma RemoveKeepsAgreement<Ref>(g: Registry<Ref>, id: int)
    requires Agrees(g)
    ensures Agrees(Remove(g, id).0)
  {
    if id in g.byId {
      RegisteredIsListed(g, id);
      RemoveFirstTakesOne(g.servers, g.byId[id]);
      ValuesRemove(g.byId, id);
    }
  }

  // ------------------------------------------------ handlers, one lock section a step

  /** A registration that has added its server and not yet started the checker. */
  datatype Pending<Ref> = Pending(id: int, server: Ref)

  datatype State<Ref(==)> = State(g: Registry<Ref>, pending: map<int, Pending<Ref>>)

  datatype Event<Ref> =
    | AddBackend(handler: int, id: int, server: Ref)
    | StartChecks(handler: int)
    | DeleteBackend(id: int)

  function Step<Ref>(s: State<Ref>, e: Event<Ref>): State<Ref> {
    match e
    case AddBackend(h, id, server) =>
      if h in s.pending then s else
      var (g, added) := Add(s.g, id, server);
      // On a conflict the handler answers 409 and is done.
      if added then State(g, s.pending[h := Pending(id, server)]) else s
    case StartChecks(h) =>
      if h !in s.pending then s
      else State(Start(s.g, s.pending[h].id, s.pending[h].server).0, s.pending - {h})
    case DeleteBackend(id) => s.(g := Remove(s.g, id).0)
  }

  function Exec<Ref>(s: State<Ref>, es: seq<Event<Ref>>): State<Ref> {
    if es == [] then s else Step(Exec(s, es[..|es| - 1]), es[|es| - 1])
  }

  function Empty<Ref>(): State<Ref> { State(Registry([], map[], map[], []), map[]) }

  /** Agreement of list and map needs nothing of the handlers. */
  lemma {:induction false} ListAgreesWithMap<Ref>(es: seq<Event<Ref>>)
    ensures Agrees(Exec(Empty<Ref>(), es).g)
    ensures var g := Exec(Empty<Ref>(), es).g;
            && |g.servers| == |g.byId|
            && forall r :: r in g.servers <==> exists id :: id in g.byId && g.byId[id] == r
  {
    if es != [] {
      var s := Exec(Empty<Ref>(), es[..|es| - 1]);
      ListAgreesWithMap(es[..|es| - 1]);
      match es[|es| - 1]
      case AddBackend(h, id, server) => AddKeepsAgreement(s.g, id, server);
      case StartChecks(h) =>
      case DeleteBackend(id) => RemoveKeepsAgreement(s.g, id);
    }
    AgreementMeans(Exec(Empty<Ref>(), es).g);
  }

  lemma AgreementMeans<Ref>(g: Registry<Ref>)
    requires Agrees(g)
    ensures |g.servers| == |g.byId|
    ensures forall r :: r in g.servers <==> exists id :: id in g.byId && g.byId[id] == r
  {
    ValuesSize(g.byId);
    assert |multiset(g.servers)| == |g.servers|;
    forall r | r in g.servers ensures exists id :: id in g.byId && g.byId[id] == r {
      ListedIsRegistered(g, r);
    }
    forall id | id in g.byId ensures g.byId[id] in g.servers {
      RegisteredIsListed(g, id);
    }
  }

  /** No handler adds an id that another is still registering. */
  predicate OneAtATime<Ref>(s: State<Ref>, e: Event<Ref>) {
    e.AddBackend? ==> forall h | h in s.pending :: s.pending[h].id != e.id
  }

  ghost predicate Orderly<Ref>(es: seq<Event<Ref>>) {
    es == [] || (Orderly(es[..|es| - 1]) && OneAtATime(Exec(Empty<Ref>(), es[..|es| - 1]), es[|es| - 1]))
  }

  /** The checker watches the server now registered under its id, and removing the id will stop it. */
  predicate Tended<Ref>(g: Registry<Ref>, c: nat)
    requires c < |g.checkers|
  {
    && g.checkers[c].id in g.byId && g.byId[g.checkers[c].id] == g.checkers[c].server
    && g.checkers[c].id in g.cancels && g.cancels[g.checkers[c].id] == c
  }

  ghost predicate AllTended<Ref>(g: Registry<Ref>) {
    forall c | 0 <= c < |g.checkers| && g.checkers[c].live :: Tended(g, c)
  }

  ghost predicate Inv<Ref>(s: State<Ref>) {
    && AllTended(s.g)
    && s.g.cancels.Keys <= s.g.byId.Keys
    && (forall id | id in s.g.cancels :: s.g.cancels[id] < |s.g.checkers| && s.g.checkers[s.g.cancels[id]].id == id)
    && (forall h | h in s.pending ::
          && s.pending[h].id !in s.g.cancels
          && (s.pending[h].id in s.g.byId ==> s.g.byId[s.pending[h].id] == s.pending[h].server))
    && (forall h, h' | h in s.pending && h' in s.pending && s.pending[h].id == s.pending[h'].id :: h == h')
  }

  lemma StepKeeps<Ref>(s: State<Ref>, e: Event<Ref>)
    requires Inv(s) && OneAtATime(s, e)
    ensures Inv(Step(s, e))
  {
    var s' := Step(s, e);
    match e
    case AddBackend(h, id, server) =>
      forall c | 0 <= c < |s'.g.checkers| && s'.g.checkers[c].live ensures Tended(s'.g, c) {
        assert Tended(s.g, c);
      }
    case StartChecks(h) =>
      forall c | 0 <= c < |s'.g.checkers| && s'.g.checkers[c].live ensures Tended(s'.g, c) {
        assert c < |s.g.checkers| ==> Tended(s.g, c);
      }
    case DeleteBackend(id) =>
      forall c | 0 <= c < |s'.g.checkers| && s'.g.checkers[c].live ensures Tended(s'.g, c) {
        assert s.g.checkers[c].live && Tended(s.g, c);
      }
  }

  /**
   If no two registrations of one id are ever in progress at once, every
   checker still running belongs to a registered id and to the server now
   registered under it, even when a removal lands between add and start.
   */
  lemma {:induction false} NoCheckerLeaks<Ref>(es: seq<Event<Ref>>)
    requires Orderly(es)
    ensures Inv(Exec(Empty<Ref>(), es)) && AllTended(Exec(Empty<Ref>(), es).g)
  {
    if es != [] {
      NoCheckerLeaks(es[..|es| - 1]);
      StepKeeps(Exec(Empty<Ref>(), es[..|es| - 1]), es[|es| - 1]);
    }
  }

  /** Every stored cancel function stops a checker of its own id that is still running. */
  ghost predicate CancelsLive<Ref>(g: Registry<Ref>) {
    && g.cancels.Keys <= g.byId.Keys
    && forall id | id in g.cancels ::
         && g.cancels[id] < |g.checkers|
         && g.checkers[g.cancels[id]].id == id && g.checkers[g.cancels[id]].live
  }

  lemma {:induction false} CancelsStayLive<Ref>(es: seq<Event<Ref>>)
    ensures CancelsLive(Exec(Empty<Ref>(), es).g)
  {
    if es != [] {
      CancelsStayLive(es[..|es| - 1]);
    }
  }

  /** Some handler has yet to start the checker of this id. */
  predicate BeingRegistered<Ref>(s: State<Ref>, id: int) {
    exists h :: h in s.pending && s.pending[h].id == id
  }

  ghost predicate Covered<Ref>(s: State<Ref>) {
    forall id | id in s.g.byId :: id in s.g.cancels || BeingRegistered(s, id)
  }

  lemma StepCovers<Ref>(s: State<Ref>, e: Event<Ref>)
    requires Covered(s)
    ensures Covered(Step(s, e))
  {
    var s' := Step(s, e);
    forall id | id in s'.g.byId ensures id in s'.g.cancels || BeingRegistered(s', id) {
      if e.AddBackend? && id !in s.g.byId {
        assert e.handler in s'.pending && s'.pending[e.handler].id == id;
      } else if id !in s.g.cancels && id !in s'.g.cancels {
        var h :| h in s.pending && s.pending[h].id == id;
        assert h in s'.pending && s'.pending[h].id == id;
      }
    }
  }

  lemma {:induction false} CheckedOrPending<Ref>(es: seq<Event<Ref>>)
    ensures Covered(Exec(Empty<Ref>(), es))
  {
    hide Covered, Step;
    if es != [] {
      CheckedOrPending(es[..|es| - 1]);
      StepCovers(Exec(Empty<Ref>(), es[..|es| - 1]), es[|es| - 1]);
    } else {
      NothingToCover<Ref>();
    }
  }

  lemma NothingToCover<Ref>()
    ensures Covered(Empty<Ref>())
  {}

  /**
   The converse: in such a run every registered id that nobody is still
   registering has exactly one checker running, of the server registered now.
   */
  lemma EveryBackendIsChecked<Ref>(es: seq<Event<Ref>>, id: int)
    requires Orderly(es)
    requires var s := Exec(Empty<Ref>(), es); id in s.g.byId && !BeingRegistered(s, id)
    ensures var g := Exec(Empty<Ref>(), es).g;
            exists c :: && 0 <= c < |g.checkers| && g.checkers[c] == Checker(id, g.byId[id], true)
                        && forall k | 0 <= k < |g.checkers| && g.checkers[k].live && g.checkers[k].id == id :: k == c
  {
    hide Exec, Orderly;
    CheckedOrPending(es);
    CancelsStayLive(es);
    NoCheckerLeaks(es);
    var g := Exec(Empty<Ref>(), es).g;
    var c := g.cancels[id];
    assert g.checkers[c].live && Tended(g, c);
    assert g.checkers[c] == Checker(id, g.byId[id], true);
    forall k | 0 <= k < |g.checkers| && g.checkers[k].live && g.checkers[k].id == id ensures k == c {
      assert Tended(g, k);
    }
  }

  /**
   A registration nobody interferes with: a fresh id and a handler of its own
   bring the backend to the end of the list and give it a checker.
   */
  lemma RegistrationCompletes<Ref>(s: State<Ref>, h: int, id: int, server: Ref)
    requires id !in s.g.byId && h !in s.pending
    ensures var g, g' := s.g, Step(Step(s, AddBackend(h, id, server)), StartChecks(h)).g;
            && g'.byId == g.byId[id := server]
            && g'.servers == g.servers + [server]
            && g'.checkers == g.checkers + [Checker(id, server, true)]
            && g'.cancels == g.cancels[id := |g.checkers|]
  {}

  /** Registered and removed again: nothing is left of it but a checker that has stopped. */
  lemma RemovalUndoesRegistration<Ref>(s: State<Ref>, h: int, id: int, server: Ref)
    requires id !in s.g.byId && h !in s.pending && id !in s.g.cancels && server !in s.g.servers
    ensures var g, g' := s.g, Step(Step(Step(s, AddBackend(h, id, server)), StartChecks(h)), DeleteBackend(id)).g;
            && g'.byId == g.byId && g'.servers == g.servers && g'.cancels == g.cancels
            && g'.checkers == g.checkers + [Checker(id, server, false)]
  {
    var g1 := Step(Step(s, AddBackend(h, id, server)), StartChecks(h)).g;
    RegistrationCompletes(s, h, id, server);
    RemoveLast(s.g.servers, server);
    assert g1.byId - {id} == s.g.byId;
    assert g1.cancels - {id} == s.g.cancels;
  }

  lemma {:induction false} RemoveLast<Ref>(s: seq<Ref>, r: Ref)
    requires r !in s
    ensures RemoveFirst(s + [r], r) == s
  {
    if s != [] {
      assert (s + [r])[1..] == s[1..] + [r];
      RemoveLast(s[1..], r);
    }
  }

  /** What `e` starts a checker for is the server registered now, and the id has none yet. */
  predicate StartsCleanly<Ref>(s: State<Ref>, e: Event<Ref>) {
    e.StartChecks? && e.handler in s.pending && s.pending[e.handler].id in s.g.byId ==>
      && s.g.byId[s.pending[e.handler].id] == s.pending[e.handler].server
      && s.pending[e.handler].id !in s.g.cancels
  }

  /** Of all steps in all orders, the ones that leave a checker untended are exactly the starts that are not clean. */
  lemma LeaksExactlyWhenNotClean<Ref>(es: seq<Event<Ref>>, e: Event<Ref>)
    requires AllTended(Exec(Empty<Ref>(), es).g)
    ensures AllTended(Step(Exec(Empty<Ref>(), es), e).g) <==> StartsCleanly(Exec(Empty<Ref>(), es), e)
  {
    hide Exec;
    CancelsStayLive(es);
    var s := Exec(Empty<Ref>(), es);
    var g, g' := s.g, Step(s, e).g;
    if StartsCleanly(s, e) {
      forall c | 0 <= c < |g'.checkers| && g'.checkers[c].live ensures Tended(g', c) {
        assert c < |g.checkers| ==> g.checkers[c].live && Tended(g, c);
      }
    } else {
      var id := s.pending[e.handler].id;
      assert !Tended(g', if id in g.cancels then g.cancels[id] else |g.checkers|);
    }
  }

  lemma ExecOneMore<Ref>(s: State<Ref>, es: seq<Event<Ref>>, e: Event<Ref>)
    ensures Exec(s, es + [e]) == Step(Exec(s, es), e)
  {
    assert (es + [e])[..|es|] == es;
  }

  /** Added and removed: nothing is registered, but the handler has yet to start the checker. */
  lemma LeakBegins(first: int)
    ensures Exec(Empty<int>(), [AddBackend(1, 7, first), DeleteBackend(7)])
         == State(Registry([], map[], map[], []), map[1 := Pending(7, first)])
  {
    var a := AddBackend(1, 7, first);
    ExecOneMore(Empty<int>(), [], a);
    ExecOneMore(Empty<int>(), [a], DeleteBackend(7));
    assert [] + [a] == [a] && [a] + [DeleteBackend(7)] == [a, DeleteBackend(7)];
    assert Step(Empty<int>(), a) == State(Registry([first], map[7 := first], map[], []), map[1 := Pending(7, first)]);
  }

  lemma LeakGoesOn(s: State<int>, first: int, second: int)
    requires s == State(Registry([], map[], map[], []), map[1 := Pending(7, first)])
    ensures Step(Step(s, AddBackend(2, 7, second)), StartChecks(1))
         == State(Registry([second], map[7 := second], map[7 := 0], [Checker(7, first, true)]), map[2 := Pending(7, second)])
  {
    assert Step(s, AddBackend(2, 7, second))
        == State(Registry([second], map[7 := second], map[], []), map[1 := Pending(7, first), 2 := Pending(7, second)]);
  }

  function LeakyRun(first: int, second: int): seq<Event<int>> {
    [AddBackend(1, 7, first), DeleteBackend(7)] + [AddBackend(2, 7, second)] + [StartChecks(1)] + [StartChecks(2)]
  }

  /**
   Unclean starts do happen. Let a backend be removed and registered again
   under its id while its first registration has yet to start its checker:
   both registrations then start one, the second overwrites the first's cancel
   function, and the first checker goes on watching a server that is no longer
   registered; not even removing the id stops it.
   */
  lemma CheckersCanLeak(first: int, second: int)
    requires first != second
    ensures var s := Exec(Empty<int>(), LeakyRun(first, second));
            && !AllTended(s.g)
            && s.g.byId == map[7 := second]
            && s.g.checkers == [Checker(7, first, true), Checker(7, second, true)]
            && Step(s, DeleteBackend(7)).g.checkers == [Checker(7, first, true), Checker(7, second, false)]
  {
    var s0 := Empty<int>();
    var es := [AddBackend(1, 7, first), DeleteBackend(7)];
    ExecOneMore(s0, es, AddBackend(2, 7, second));
    ExecOneMore(s0, es + [AddBackend(2, 7, second)], StartChecks(1));
    ExecOneMore(s0, es + [AddBackend(2, 7, second)] + [StartChecks(1)], StartChecks(2));
    hide Exec, RemoveFirst;
    LeakBegins(first);
    LeakGoesOn(Exec(s0, es), first, second);
    assert !Tended(Exec(s0, LeakyRun(first, second)).g, 0);
  }
}
