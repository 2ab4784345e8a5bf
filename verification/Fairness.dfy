/** Round robin is fair: nobody ready starves, and servers that are ready share the requests evenly. */
module Fairness {
  import opened Collections
  import opened CircuitBreakers
  import opened Fleets

  /**
   A stretch of consecutive selections with the membership fixed. Between one
   and the next only the cursor is carried over: health and breakers may change in any way.
   */
  ghost predicate Stretch<Ref>(fs: seq<Fleet<Ref>>, clocks: seq<nat -> int>) {
    && |fs| == |clocks|
    && (forall k | 0 <= k < |fs| :: Known(fs[k]))
    && (forall k | 0 <= k < |fs| :: fs[k].servers == fs[0].servers)
    && (forall k | 0 < k < |fs| :: Carried(fs, clocks, k))
  }

  ghost predicate Carried<Ref>(fs: seq<Fleet<Ref>>, clocks: seq<nat -> int>, k: nat)
    requires 0 < k < |fs| && |fs| == |clocks| && Known(fs[k - 1])
  {
    fs[k].current == Select(fs[k - 1], clocks[k - 1]).0.current
  }

  function Pick<Ref>(fs: seq<Fleet<Ref>>, clocks: seq<nat -> int>, k: nat): Option<nat>
    requires k < |fs| == |clocks| && Known(fs[k])
  {
    Select(fs[k], clocks[k]).1
  }

  /** One selection: either it takes the ready position `i`, or it stops before it, and `i` is then nearer. */
  lemma PassingOver<Ref>(f: Fleet<Ref>, clock: nat -> int, i: nat)
    requires Known(f) && i < |f.servers| && Ready(f, i, clock)
    ensures Select(f, clock).1.Some?
    ensures Select(f, clock).1 != Some(i) ==>
              Distance(|f.servers|, Begin(Select(f, clock).0), i) < Distance(|f.servers|, Begin(f), i)
  {
    hide Select, Ready, Begin;
    NoneWhenNoneEligible(f, clock);
    SelectsTheNearest(f, clock);
    SelectTouchesOneBreaker(f, clock);
    RingArithmetic(|f.servers|, Begin(f), Select(f, clock).1.value, i);
  }

  lemma {:induction false} ComesNearer<Ref>(fs: seq<Fleet<Ref>>, clocks: seq<nat -> int>, i: nat, k: nat)
    requires Stretch(fs, clocks) && k < |fs| && i < |fs[0].servers|
    requires forall m | 0 <= m < |fs| :: Ready(fs[m], i, clocks[m])
    requires forall m | 0 <= m < k :: Pick(fs, clocks, m) != Some(i)
    ensures Distance(|fs[k].servers|, Begin(fs[k]), i) + k <= Distance(|fs[0].servers|, Begin(fs[0]), i)
  {
    if k > 0 {
      ComesNearer(fs, clocks, i, k - 1);
      PassingOver(fs[k - 1], clocks[k - 1], i);
      assert Pick(fs, clocks, k - 1) != Some(i);
      assert Carried(fs, clocks, k);
    }
  }

  /** A server that is ready at every one of `n` consecutive selections among `n` servers is selected at one of them. */
  lemma NoStarvation<Ref>(fs: seq<Fleet<Ref>>, clocks: seq<nat -> int>, i: nat)
    requires Stretch(fs, clocks) && fs != [] && |fs| == |fs[0].servers| && i < |fs[0].servers|
    requires forall m | 0 <= m < |fs| :: Ready(fs[m], i, clocks[m])
    ensures exists m :: 0 <= m < |fs| && Pick(fs, clocks, m) == Some(i)
  {
    if forall m | 0 <= m < |fs| :: Pick(fs, clocks, m) != Some(i) {
      var n := |fs|;
      ComesNearer(fs, clocks, i, n - 1);
      assert Pick(fs, clocks, n - 1) != Some(i);
      PassingOver(fs[n - 1], clocks[n - 1], i);
      assert false;
    }
  }

  /** In particular a healthy server behind a closed breaker is ready, whatever the clock says. */
  lemma HealthyAndClosedIsEligible<Ref>(f: Fleet<Ref>, i: nat, clock: nat -> int)
    requires Known(f) && i < |f.servers|
    requires f.health[f.servers[i]] && f.breakers[f.servers[i]].state == Closed
    ensures Ready(f, i, clock)
    ensures forall now :: Allow(f.breakers[f.servers[i]], now).0 == f.breakers[f.servers[i]]
  {}

  function Picks<Ref>(fs: seq<Fleet<Ref>>, clocks: seq<nat -> int>): (ps: seq<Option<nat>>)
    requires |fs| == |clocks| && forall m | 0 <= m < |fs| :: Known(fs[m])
    ensures |ps| == |fs|
  {
    seq(|fs|, k requires 0 <= k < |fs| => Pick(fs, clocks, k))
  }

  /** How often position `i` was among the first `k` selected. */
  function Count(ps: seq<Option<nat>>, i: nat, k: nat): nat
    requires k <= |ps|
  {
    if k == 0 then 0 else Count(ps, i, k - 1) + if ps[k - 1] == Some(i) then 1 else 0
  }

  function Nearer<Ref>(f: Fleet<Ref>, i: nat, j: nat): (x: int)
    requires i < |f.servers| && j < |f.servers|
    ensures x == 0 || x == 1
  {
    if Distance(|f.servers|, Begin(f), i) < Distance(|f.servers|, Begin(f), j) then 1 else 0
  }

  lemma NearnessIsCursor<Ref>(f: Fleet<Ref>, g: Fleet<Ref>, i: nat, j: nat)
    requires f.servers == g.servers && f.current == g.current && i < |f.servers| && j < |f.servers|
    ensures Nearer(f, i, j) == Nearer(g, i, j)
  {}

  /** One selection moves the lead of `i` over `j` exactly as it moves the answer to which of them is nearer. */
  lemma LeadFollowsNearness<Ref>(f: Fleet<Ref>, clock: nat -> int, i: nat, j: nat)
    requires Known(f) && i < |f.servers| && j < |f.servers| && i != j && Ready(f, i, clock) && Ready(f, j, clock)
    ensures var (f', pick) := Select(f, clock);
            && f'.servers == f.servers
            && (if pick == Some(i) then 1 else 0) - (if pick == Some(j) then 1 else 0) == Nearer(f, i, j) - Nearer(f', i, j)
  {
    hide Select, Ready, Begin;
    NoneWhenNoneEligible(f, clock);
    SelectsTheNearest(f, clock);
    SelectTouchesOneBreaker(f, clock);
    var x := Select(f, clock).1.value;
    RingArithmetic(|f.servers|, Begin(f), x, i);
    RingArithmetic(|f.servers|, Begin(f), x, j);
  }

  lemma {:induction false} LeadIsNearness<Ref>(fs: seq<Fleet<Ref>>, clocks: seq<nat -> int>, i: nat, j: nat, k: nat)
    requires Stretch(fs, clocks) && k < |fs| && i < |fs[0].servers| && j < |fs[0].servers| && i != j
    requires forall m | 0 <= m < |fs| :: Ready(fs[m], i, clocks[m]) && Ready(fs[m], j, clocks[m])
    ensures var ps := Picks(fs, clocks);
            Count(ps, i, k) - Count(ps, j, k) == Nearer(fs[0], i, j) - Nearer(fs[k], i, j)
  {
    hide Select, Ready, Nearer, Known;
    if k > 0 {
      LeadIsNearness(fs, clocks, i, j, k - 1);
      LeadFollowsNearness(fs[k - 1], clocks[k - 1], i, j);
      assert Carried(fs, clocks, k);
      assert Picks(fs, clocks)[k - 1] == Select(fs[k - 1], clocks[k - 1]).1;
      NearnessIsCursor(Select(fs[k - 1], clocks[k - 1]).0, fs[k], i, j);
    }
  }

  /**
   Two servers that stay ready through a stretch of any length, from any
   start, are selected equally often, give or take one.
   */
  lemma EvenShares<Ref>(fs: seq<Fleet<Ref>>, clocks: seq<nat -> int>, i: nat, j: nat)
    requires Stretch(fs, clocks) && fs != [] && i < |fs[0].servers| && j < |fs[0].servers|
    requires forall m | 0 <= m < |fs| :: Ready(fs[m], i, clocks[m]) && Ready(fs[m], j, clocks[m])
    ensures -1 <= Count(Picks(fs, clocks), i, |fs|) - Count(Picks(fs, clocks), j, |fs|) <= 1
  {
    hide Select, Ready, Nearer, Known;
    if i != j {
      var n := |fs| - 1;
      assert Picks(fs, clocks)[n] == Select(fs[n], clocks[n]).1;
      LeadIsNearness(fs, clocks, i, j, n);
      LeadFollowsNearness(fs[n], clocks[n], i, j);
    }
  }

  lemma {:induction false} NoShareForIneligible<Ref>(fs: seq<Fleet<Ref>>, clocks: seq<nat -> int>, i: nat, k: nat)
    requires Stretch(fs, clocks) && k <= |fs| && (fs != [] ==> i < |fs[0].servers|)
    requires forall m | 0 <= m < |fs| :: !Ready(fs[m], i, clocks[m])
    ensures Count(Picks(fs, clocks), i, k) == 0
  {
    hide Select, Ready, Begin, Distance, Known;
    if k > 0 {
      NoShareForIneligible(fs, clocks, i, k - 1);
      assert Picks(fs, clocks)[k - 1] == Select(fs[k - 1], clocks[k - 1]).1;
      if Select(fs[k - 1], clocks[k - 1]).1.Some? { SelectsTheNearest(fs[k - 1], clocks[k - 1]); }
    }
  }

  /** Selections one after another with nothing else happening. */
  function Spin<Ref>(f: Fleet<Ref>, clocks: seq<nat -> int>): (fs: seq<Fleet<Ref>>)
    requires Known(f)
    ensures |fs| == |clocks|
    ensures forall k | 0 <= k < |fs| :: Known(fs[k])
    decreases |clocks|
  {
    if clocks == [] then [] else
    SelectTouchesOneBreaker(f, clocks[0]);
    [f] + Spin(Select(f, clocks[0]).0, clocks[1..])
  }

  ghost predicate Settled<Ref>(f: Fleet<Ref>) {
    forall r | r in f.servers :: r in f.health && r in f.breakers && (f.health[r] ==> f.breakers[r].state == Closed)
  }

  lemma SelectMovesOnlyTheCursor<Ref>(f: Fleet<Ref>, clock: nat -> int)
    requires Known(f) && Settled(f)
    ensures Select(f, clock).0 == f.(current := Select(f, clock).0.current)
    ensures Settled(Select(f, clock).0)
  {
    hide Begin;
    if Select(f, clock).1.Some? {
      SelectsTheNearest(f, clock);
      HealthyAndClosedIsEligible(f, Select(f, clock).1.value, clock);
    } else {
      NoneWhenNoneEligible(f, clock);
    }
  }

  /** Left alone, with closed breakers on all healthy servers, only the cursor ever moves. */
  lemma {:induction false} SpinMovesOnlyTheCursor<Ref>(f: Fleet<Ref>, clocks: seq<nat -> int>)
    requires Known(f) && Settled(f)
    ensures Stretch(Spin(f, clocks), clocks)
    ensures clocks != [] ==> Spin(f, clocks)[0] == f
    ensures forall k | 0 <= k < |clocks| :: Spin(f, clocks)[k] == f.(current := Spin(f, clocks)[k].current)
    decreases |clocks|
  {
    hide Select, Settled, Ready;
    if clocks != [] {
      SelectMovesOnlyTheCursor(f, clocks[0]);
      SelectTouchesOneBreaker(f, clocks[0]);
      var f' := Select(f, clocks[0]).0;
      SpinMovesOnlyTheCursor(f', clocks[1..]);
      var fs := Spin(f, clocks);
      assert fs == [f] + Spin(f', clocks[1..]);
      forall k | 0 < k < |fs| ensures Carried(fs, clocks, k) {
        if k > 1 { assert Carried(Spin(f', clocks[1..]), clocks[1..], k - 1); }
      }
    }
  }

  /** Exact balance of an undisturbed balancer: healthy servers within one of each other, the others none. */
  lemma ExactBalance<Ref>(f: Fleet<Ref>, clocks: seq<nat -> int>, i: nat, j: nat)
    requires Known(f) && Settled(f) && clocks != [] && i < |f.servers| && j < |f.servers|
    ensures var fs := Spin(f, clocks);
            && (f.health[f.servers[i]] && f.health[f.servers[j]] ==>
                  -1 <= Count(Picks(fs, clocks), i, |fs|) - Count(Picks(fs, clocks), j, |fs|) <= 1)
            && (!f.health[f.servers[i]] ==> Count(Picks(fs, clocks), i, |fs|) == 0)
  {
    var fs := Spin(f, clocks);
    SpinMovesOnlyTheCursor(f, clocks);
    if f.health[f.servers[i]] && f.health[f.servers[j]] {
      EvenShares(fs, clocks, i, j);
    } else if !f.health[f.servers[i]] {
      NoShareForIneligible(fs, clocks, i, |fs|);
    }
  }
}
