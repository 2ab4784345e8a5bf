/**
 Round robin among interleaved probes: a server that is in order all the time is
 not passed over for long, although every other server's health and breaker may
 change between any two probes of a scan.
 */
module Starvation {
  import opened Collections
  import opened CircuitBreakers
  import opened InFlight
  import F = Fleets

  /** The server at position `i` is healthy, and its breaker closed. */
  predicate InOrder(s: State, i: nat) {
    && i < |s.fleet.servers|
    && var r := s.fleet.servers[i];
       && r in s.fleet.health && s.fleet.health[r]
       && r in s.fleet.breakers && s.fleet.breakers[r].state == Closed
  }

  /** A probe that ends its scan, with a server selected or none. */
  predicate EndsScan(s: State, e: Event)
    requires Inv(s)
  {
    e.Probe? && s.lock.Scanning? && Step(s, e).lock.Free?
  }

  /** It selects position `i`. */
  predicate Selects(s: State, e: Event, i: nat)
    requires Inv(s)
  {
    && EndsScan(s, e) && s.lock.at == i && s.lock.attempts < |s.fleet.servers|
    && F.Eligible(s.fleet, i, e.now)
  }

  /** The scans that come to their end in a run. */
  function Scans(s: State, es: seq<Event>): nat
    requires Inv(s)
  {
    if es == [] then 0 else
    var front := es[..|es| - 1];
    Scans(s, front) + if EndsScan(Exec(s, front), es[|es| - 1]) then 1 else 0
  }

  /** The scan under way has come as far as it says. */
  predicate OnTrack(s: State) {
    s.lock.Scanning? ==>
      && s.fleet.servers != [] && s.lock.attempts <= |s.fleet.servers|
      && s.lock.at == (if s.lock.attempts == |s.fleet.servers| then F.Begin(s.fleet)
                       else F.Ahead(|s.fleet.servers|, F.Begin(s.fleet), s.lock.attempts))
  }

  /** How far position `i` lies from the cursor. */
  function Away(s: State, i: nat): nat
    requires i < |s.fleet.servers|
  {
    F.Distance(|s.fleet.servers|, F.Begin(s.fleet), i)
  }

  /** The scan under way has not passed position `i`. */
  predicate NotPassed(s: State, i: nat)
    requires i < |s.fleet.servers|
  {
    OnTrack(s) && (s.lock.Scanning? ==> s.lock.attempts <= Away(s, i))
  }

  lemma InOrderIsEligible(s: State, i: nat, now: int)
    requires Inv(s) && InOrder(s, i)
    ensures F.Eligible(s.fleet, i, now)
  {}

  /** One probe: it goes on, or ends the scan at `i`, or ends it before `i`, which is then nearer. */
  lemma ProbeComesNearer(s: State, now: int, i: nat)
    requires Inv(s) && InOrder(s, i) && NotPassed(s, i) && s.lock.Scanning?
    ensures var e, s' := Probe(now), Step(s, Probe(now));
            && s'.fleet.servers == s.fleet.servers
            && (Selects(s, e, i) ||
                (NotPassed(s', i) && Away(s', i) + (if EndsScan(s, e) then 1 else 0) <= Away(s, i)))
  {
    hide F.Begin, F.Eligible;
    var n, start, k := |s.fleet.servers|, F.Begin(s.fleet), s.lock.attempts;
    var d := Away(s, i);
    InOrderIsEligible(s, i, now);
    assert k < n;
    F.AheadIsAway(n, start, k);
    AroundTheRing(n, start, k);
    if F.Eligible(s.fleet, s.lock.at, now) && s.lock.at != i {
      F.RingArithmetic(n, start, s.lock.at, i);
      F.WithinRing(F.After(n, s.lock.at), n);
      BeginAt(Step(s, Probe(now)).fleet, F.After(n, s.lock.at));
    }
  }

  lemma BeginAt(f: F.Fleet<nat>, c: nat)
    requires f.servers != [] && f.current == c < |f.servers|
    ensures F.Begin(f) == c
  {
    F.WithinRing(c, |f.servers|);
  }

  /** Everything but a probe leaves the cursor and the scan alone, or begins a scan at the cursor. */
  lemma OthersLeaveTheScan(s: State, e: Event, i: nat)
    requires Inv(s) && i < |s.fleet.servers| && NotPassed(s, i) && !(e.Probe? && s.lock.Scanning?) && !e.Join? && !e.Leave?
    ensures Step(s, e).fleet.servers == s.fleet.servers
    ensures NotPassed(Step(s, e), i) && Away(Step(s, e), i) == Away(s, i)
  {
  }

  /** Throughout the run the membership stands, and so does the server at position `i`. */
  ghost predicate Steady(s: State, es: seq<Event>, i: nat)
    requires Inv(s)
  {
    && (forall e | e in es :: !e.Join? && !e.Leave?)
    && forall k | 0 <= k < |es| :: InOrder(Exec(s, es[..k]), i)
  }

  ghost predicate SelectedIn(s: State, es: seq<Event>, i: nat)
    requires Inv(s)
  {
    exists k :: 0 <= k < |es| && Selects(Exec(s, es[..k]), es[k], i)
  }

  lemma OneMoreEvent(s: State, es: seq<Event>, i: nat)
    requires Inv(s) && es != []
    ensures var front := es[..|es| - 1];
            && (Steady(s, es, i) ==> Steady(s, front, i) && InOrder(Exec(s, front), i) && es[|es| - 1] in es)
            && (SelectedIn(s, front, i) || Selects(Exec(s, front), es[|es| - 1], i) ==> SelectedIn(s, es, i))
  {
    hide Inv, Exec, Selects, InOrder;
    var front := es[..|es| - 1];
    assert forall e | e in front :: e in es;
    assert forall k | 0 <= k < |front| :: front[..k] == es[..k] && front[k] == es[k];
    if SelectedIn(s, front, i) {
      var k :| 0 <= k < |front| && Selects(Exec(s, front[..k]), front[k], i);
      assert Selects(Exec(s, es[..k]), es[k], i);
    }
  }

  /** Until `i` is selected, each scan that ends brings it nearer. */
  lemma {:induction false} ComesNearer(s: State, es: seq<Event>, i: nat)
    requires Inv(s) && i < |s.fleet.servers| && NotPassed(s, i) && Steady(s, es, i)
    ensures SelectedIn(s, es, i) ||
            (var end := Exec(s, es);
             && end.fleet.servers == s.fleet.servers
             && NotPassed(end, i) && Away(end, i) + Scans(s, es) <= Away(s, i))
  {
    hide Inv, Step, Selects, EndsScan, NotPassed, Away, InOrder, Steady, SelectedIn;
    if es != [] {
      var front, e := es[..|es| - 1], es[|es| - 1];
      OneMoreEvent(s, es, i);
      ComesNearer(s, front, i);
      if !SelectedIn(s, front, i) {
        var mid := Exec(s, front);
        NoMembership(s, es, i);
        if e.Probe? && mid.lock.Scanning? {
          ProbeComesNearer(mid, e.now, i);
        } else {
          OthersLeaveTheScan(mid, e, i);
          OthersEndNoScan(mid, e);
        }
      }
    }
  }

  lemma NoMembership(s: State, es: seq<Event>, i: nat)
    requires Inv(s) && Steady(s, es, i)
    ensures forall e | e in es :: !e.Join? && !e.Leave?
  {}

  lemma OthersEndNoScan(s: State, e: Event)
    requires Inv(s) && !(e.Probe? && s.lock.Scanning?)
    ensures !EndsScan(s, e)
  {}

  /**
   Nobody starves. Among n servers, let one stay healthy with its breaker closed
   while records, health changes and polls fall as they like, between scans and
   in the midst of them: of any n scans that begin and end, one selects it.
   */
  lemma NobodyStarves(s: State, es: seq<Event>, i: nat)
    requires Inv(s) && !s.lock.Scanning? && i < |s.fleet.servers| && Steady(s, es, i)
    requires Scans(s, es) >= |s.fleet.servers|
    ensures SelectedIn(s, es, i)
  {
    hide Inv, SelectedIn, Steady, Scans, Exec;
    ComesNearer(s, es, i);
  }

  /** A probe that selects position `i` sends the request there. */
  lemma SelectedIsSent(s: State, now: int, i: nat)
    requires Inv(s) && Selects(s, Probe(now), i)
    ensures var s' := Step(s, Probe(now)); var c := s.lock.c;
            c in s'.calls && s'.calls[c].1 == Waiting(s.fleet.servers[i], s.calls[c].1.n)
  {}
}
