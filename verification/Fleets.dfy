/** What round-robin selection does to the balancer's servers, as a function of what it finds. */
module Fleets {
  import opened Arithmetic
  import opened Collections
  import opened CircuitBreakers

  /** The server list with the cursor, and what each server is like. A server may be listed more than once. */
  datatype Fleet<Ref(==)> = Fleet(servers: seq<Ref>, current: nat, health: map<Ref, bool>, breakers: map<Ref, Breaker>)

  ghost predicate Known<Ref>(f: Fleet<Ref>) {
    forall r | r in f.servers :: r in f.health && r in f.breakers && Sound(f.breakers[r])
  }

  /** Would a probe of the server at position `i` send a request there? */
  predicate Eligible<Ref>(f: Fleet<Ref>, i: nat, now: int)
    requires Known(f) && i < |f.servers|
  {
    f.health[f.servers[i]] && Allow(f.breakers[f.servers[i]], now).1
  }

  /** `k` places on from `start` in a ring of `n`. */
  function Ahead(n: nat, start: nat, k: nat): (i: nat)
    requires start < n && k < n
    ensures i < n
  {
    if start + k < n then start + k else start + k - n
  }

  /** How far on from `start` position `i` lies. */
  function Distance(n: nat, start: nat, i: nat): (k: nat)
    requires start < n && i < n
    ensures k < n && Ahead(n, start, k) == i
  {
    if start <= i then i - start else i + n - start
  }

  function After(n: nat, i: nat): (j: nat)
    ensures i < n ==> j < n
  {
    if i + 1 == n then 0 else i + 1
  }

  function Begin<Ref>(f: Fleet<Ref>): (start: nat)
    requires f.servers != []
    ensures start < |f.servers|
  {
    f.current % |f.servers|
  }

  /** Would the scan send a request to position `i` on getting there? Its `k`-th probe reads `clock(k)`, from 0 on. */
  predicate Ready<Ref>(f: Fleet<Ref>, i: nat, clock: nat -> int)
    requires Known(f) && i < |f.servers|
  {
    Eligible(f, i, clock(Distance(|f.servers|, Begin(f), i)))
  }

  /** The distance of the nearest ready server that is at least `k` places on, or the ring's size. */
  function Nearest<Ref>(f: Fleet<Ref>, clock: nat -> int, k: nat): (d: nat)
    requires Known(f) && f.servers != [] && k <= |f.servers|
    ensures k <= d <= |f.servers|
    ensures d < |f.servers| ==> Ready(f, Ahead(|f.servers|, Begin(f), d), clock)
    ensures forall j | k <= j < d :: !Ready(f, Ahead(|f.servers|, Begin(f), j), clock)
    decreases |f.servers| - k
  {
    if k == |f.servers| || Ready(f, Ahead(|f.servers|, Begin(f), k), clock) then k else Nearest(f, clock, k + 1)
  }

  /** One probe, granted or not. */
  function Probed<Ref>(f: Fleet<Ref>, r: Ref, now: int): Fleet<Ref>
    requires r in f.breakers
  {
    f.(breakers := f.breakers[r := Allow(f.breakers[r], now).0])
  }

  /**
   The position selected, if any; the cursor moves past it and its breaker has
   answered one probe. A scan that finds nobody probes its start once more,
   and what that grants goes to nobody.
   */
  function Select<Ref>(f: Fleet<Ref>, clock: nat -> int): (r: (Fleet<Ref>, Option<nat>))
    requires Known(f)
    ensures r.1.Some? ==> r.1.value < |f.servers|
  {
    if f.servers == [] then (f, None) else
    var n := |f.servers|;
    var d := Nearest(f, clock, 0);
    if d == n then
      (if Eligible(f, Begin(f), clock(n)) then Probed(f, f.servers[Begin(f)], clock(n)) else f, None)
    else
      var i := Ahead(n, Begin(f), d);
      (Probed(f, f.servers[i], clock(d)).(current := After(n, i)), Some(i))
  }

  lemma AheadIsAway(n: nat, start: nat, k: nat)
    requires start < n && k < n
    ensures Distance(n, start, Ahead(n, start, k)) == k
  {}

  lemma AheadIsReady<Ref>(f: Fleet<Ref>, k: nat, clock: nat -> int)
    requires Known(f) && k < |f.servers|
    ensures var i := Ahead(|f.servers|, Begin(f), k); Ready(f, i, clock) == Eligible(f, i, clock(k))
  {
    AheadIsAway(|f.servers|, Begin(f), k);
  }

  lemma NearestIsLeast<Ref>(f: Fleet<Ref>, clock: nat -> int, j: nat)
    requires Known(f) && j < |f.servers| && Ready(f, j, clock)
    ensures Nearest(f, clock, 0) <= Distance(|f.servers|, Begin(f), j)
  {
    hide Begin, Ready;
    assert Ahead(|f.servers|, Begin(f), Distance(|f.servers|, Begin(f), j)) == j;
  }

  /**
   Nobody is ready, and the start is healthy behind a breaker whose cooldown
   ends between the first probe of it and the last.
   */
  predicate LosesTrial<Ref>(f: Fleet<Ref>, clock: nat -> int)
    requires Known(f)
  {
    && f.servers != []
    && var start := f.servers[Begin(f)];
       var b := f.breakers[start];
       && f.health[start] && b.state == Open
       && clock(0) - b.openedAt < Cooldown(b) <= clock(|f.servers|) - b.openedAt
       && forall i | 0 <= i < |f.servers| && i != Begin(f) :: !Ready(f, i, clock)
  }

  /**
   Nothing is selected exactly when no server is ready. That leaves the fleet
   as it was, except that it spends the start's trial on nothing exactly when
   the start alone becomes ready, and too late.
   */
  lemma NoneWhenNoneEligible<Ref>(f: Fleet<Ref>, clock: nat -> int)
    requires Known(f)
    ensures Select(f, clock).1.None? <==> forall i | 0 <= i < |f.servers| :: !Ready(f, i, clock)
    ensures Select(f, clock).1.None? && Select(f, clock).0 != f <==> LosesTrial(f, clock)
    ensures LosesTrial(f, clock) ==>
              var start := f.servers[Begin(f)];
              Select(f, clock).0.breakers == f.breakers[start := f.breakers[start].(state := HalfOpen, sent := true)]
  {
    hide Ready, Begin;
    forall j | 0 <= j < |f.servers| && Ready(f, j, clock) ensures Nearest(f, clock, 0) < |f.servers| {
      NearestIsLeast(f, clock, j);
    }
    if f.servers != [] {
      StartIsLate(f, clock);
      assert Nearest(f, clock, 0) == |f.servers| <==> forall i | 0 <= i < |f.servers| :: !Ready(f, i, clock);
    }
  }

  /** Refused at first and granted later: a healthy server whose cooldown ended in between. */
  lemma StartIsLate<Ref>(f: Fleet<Ref>, clock: nat -> int)
    requires Known(f) && f.servers != []
    ensures var start := f.servers[Begin(f)];
            var b := f.breakers[start];
            var late := f.health[start] && b.state == Open
                        && clock(0) - b.openedAt < Cooldown(b) <= clock(|f.servers|) - b.openedAt;
            && (!Ready(f, Begin(f), clock) && Eligible(f, Begin(f), clock(|f.servers|)) <==> late)
            && (late ==> Allow(b, clock(|f.servers|)).0 == b.(state := HalfOpen, sent := true))
  {
    hide Begin;
    assert Distance(|f.servers|, Begin(f), Begin(f)) == 0;
  }

  /** With one reading for the whole scan, selecting nothing changes nothing. */
  lemma OneReadingLosesNothing<Ref>(f: Fleet<Ref>, now: int)
    requires Known(f) && Select(f, _ => now).1.None?
    ensures Select(f, _ => now).0 == f
  {
    hide Select;
    NoneWhenNoneEligible(f, _ => now);
  }

  /** What is selected is ready, and no ready server lies nearer. */
  lemma SelectsTheNearest<Ref>(f: Fleet<Ref>, clock: nat -> int)
    requires Known(f) && Select(f, clock).1.Some?
    ensures var i := Select(f, clock).1.value; var n := |f.servers|;
            && i < n && Ready(f, i, clock)
            && (forall j | 0 <= j < n && Ready(f, j, clock) :: Distance(n, Begin(f), i) <= Distance(n, Begin(f), j))
  {
    hide Ready, Begin;
    AheadIsAway(|f.servers|, Begin(f), Nearest(f, clock, 0));
    forall j | 0 <= j < |f.servers| && Ready(f, j, clock)
      ensures Nearest(f, clock, 0) <= Distance(|f.servers|, Begin(f), j)
    {
      NearestIsLeast(f, clock, j);
    }
  }

  /** A scan that begins just past `x` comes back to `x` only when nobody else is ready. */
  lemma LastResort<Ref>(f: Fleet<Ref>, clock: nat -> int, x: nat)
    requires Known(f) && x < |f.servers| && Begin(f) == After(|f.servers|, x)
    ensures Select(f, clock).1 == Some(x) <==>
              && Ready(f, x, clock)
              && forall j | 0 <= j < |f.servers| && j != x :: !Ready(f, j, clock)
  {
    hide Select, Ready, Begin;
    NoneWhenNoneEligible(f, clock);
    if Select(f, clock).1.Some? {
      SelectsTheNearest(f, clock);
    }
  }

  /** The cursor moves just past the selected server; no breaker but the probed one's is any different. */
  lemma SelectTouchesOneBreaker<Ref>(f: Fleet<Ref>, clock: nat -> int)
    requires Known(f)
    ensures var (f', pick) := Select(f, clock);
            && Known(f') && f'.servers == f.servers && f'.health == f.health && f'.breakers.Keys == f.breakers.Keys
            && (pick.None? ==> f'.current == f.current)
            && (pick.None? && f.servers != [] ==>
                  forall r | r in f.breakers && r != f.servers[Begin(f)] :: f'.breakers[r] == f.breakers[r])
            && (pick.Some? ==>
                  && pick.value < |f.servers|
                  && f'.current == Begin(f') == After(|f.servers|, pick.value)
                  && f' == Probed(f, f.servers[pick.value], clock(Distance(|f.servers|, Begin(f), pick.value)))
                           .(current := f'.current))
  {
    hide Ready, Eligible, Nearest;
    if f.servers != [] {
      var n := |f.servers|;
      var d := Nearest(f, clock, 0);
      if d < n {
        var i := Ahead(n, Begin(f), d);
        AheadIsAway(n, Begin(f), d);
        StaysSound(f.breakers[f.servers[i]], clock(d));
        WithinRing(After(n, i), n);
      } else {
        StaysSound(f.breakers[f.servers[Begin(f)]], clock(n));
      }
    }
  }

  lemma WithinRing(c: nat, n: nat)
    requires c < n
    ensures c % n == c
  {}

  /** In a ring, going on from `x` brings whatever is not before it `Distance` nearer. */
  lemma RingArithmetic(n: nat, start: nat, x: nat, i: nat)
    requires start < n && x < n && i < n && Distance(n, start, x) <= Distance(n, start, i)
    ensures Distance(n, After(n, x), i) ==
              if x == i then n - 1 else Distance(n, start, i) - Distance(n, start, x) - 1
  {}

  /** What probes of `rs` leave, one after another, the `k`-th at `clock(k)`. */
  function Polled<Ref>(f: Fleet<Ref>, rs: seq<Ref>, clock: nat -> int): (f': Fleet<Ref>)
    requires forall r | r in rs :: r in f.breakers
    ensures f'.servers == f.servers && f'.current == f.current && f'.health == f.health
    ensures f'.breakers.Keys == f.breakers.Keys
  {
    if rs == [] then f
    else
      var last := |rs| - 1;
      Probed(Polled(f, rs[..last], clock), rs[last], clock(last))
  }

  /** A poll in which nobody's turn comes twice asks each breaker once, at its turn, and leaves the others alone. */
  lemma {:induction false} PolledOnce<Ref>(f: Fleet<Ref>, rs: seq<Ref>, clock: nat -> int)
    requires forall r | r in rs :: r in f.breakers
    requires forall i, j | 0 <= i < j < |rs| :: rs[i] != rs[j]
    ensures forall k | 0 <= k < |rs| :: Polled(f, rs, clock).breakers[rs[k]] == Allow(f.breakers[rs[k]], clock(k)).0
    ensures forall r | r in f.breakers && r !in rs :: Polled(f, rs, clock).breakers[r] == f.breakers[r]
  {
    hide Allow;
    if rs != [] {
      var last := |rs| - 1;
      PolledOnce(f, rs[..last], clock);
      assert forall k | 0 <= k < last :: rs[..last][k] == rs[k];
      assert rs[last] !in rs[..last];
    }
  }

  // ------------------------------------------------ selection outright

  /** Is the server `k` places on from the cursor healthy, and does its breaker let the `k`-th probe through? */
  predicate Grants<Ref>(f: Fleet<Ref>, k: nat, clock: nat -> int)
    requires Known(f) && f.servers != []
  {
    var server := f.servers[(f.current + k) % |f.servers|];
    f.health[server] && Allow(f.breakers[server], clock(k)).1
  }

  predicate FirstToGrant<Ref>(f: Fleet<Ref>, k: nat, clock: nat -> int)
    requires Known(f) && f.servers != []
  {
    Grants(f, k, clock) && forall j: nat | j < k :: !Grants(f, j, clock)
  }

  lemma {:induction false} AheadIsModulo(c: nat, n: nat, k: nat)
    requires n > 0 && k < n
    ensures (c + k) % n == Ahead(n, c % n, k)
  {
    if k > 0 {
      AheadIsModulo(c, n, k - 1);
      NextRemainder(c + k - 1, n);
    }
  }

  lemma GrantsIsReady<Ref>(f: Fleet<Ref>, k: nat, clock: nat -> int)
    requires Known(f) && k < |f.servers|
    ensures Grants(f, k, clock) == Ready(f, Ahead(|f.servers|, Begin(f), k), clock)
  {
    AheadIsModulo(f.current, |f.servers|, k);
    AheadIsReady(f, k, clock);
  }

  /** Selection in one line: the first server after the cursor that grants the probe, and the cursor just past it. */
  lemma SelectsTheFirstToGrant<Ref>(f: Fleet<Ref>, clock: nat -> int)
    requires Known(f)
    ensures f.servers == [] ==> Select(f, clock) == (f, None)
    ensures f.servers != [] ==>
              var (f', pick) := Select(f, clock);
              && (pick.None? <==> forall k | 0 <= k < |f.servers| :: !Grants(f, k, clock))
              && (pick.Some? ==>
                    exists k :: && 0 <= k < |f.servers| && FirstToGrant(f, k, clock)
                                && pick.value == (f.current + k) % |f.servers|
                                && f'.current == (f.current + k + 1) % |f.servers|)
  {
    if f.servers != [] {
      var n, d := |f.servers|, Nearest(f, clock, 0);
      forall k | 0 <= k < n ensures Grants(f, k, clock) == Ready(f, Ahead(n, Begin(f), k), clock) {
        GrantsIsReady(f, k, clock);
      }
      hide Grants, Ready, Ahead, Allow;
      if d < n {
        AheadIsModulo(f.current, n, d);
        NextRemainder(f.current + d, n);
        assert FirstToGrant(f, d, clock);
      }
    }
  }
}
