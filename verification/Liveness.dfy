/** Interleaved transactions never wait for each other in a circle, and run to their ends. */
module Liveness {
  import opened Collections
  import opened Tables
  import opened Statements
  import T = Transactions
  import opened Interleaving
  import opened Serializability

  /** Who holds an order row has nothing left to wait for. */
  lemma OrderRowHolderNeverWaits(s: State, t: nat, u: nat)
    requires WaitsFor(s, t, u) && Wants(s.txns[u]).Some?
    ensures Wants(s.txns[t]).value.Inventory?
  {}

  /** A checkout only ever waits for inventory above all it holds. */
  lemma LocksAscend(s: State, t: nat, u: nat)
    requires Consistent(s.db) && AllFit(s) && WaitsFor(s, t, u)
    requires Wants(s.txns[u]).Some? && Wants(s.txns[u]).value.Inventory?
    ensures Wants(s.txns[t]).value.Inventory?
    ensures Wants(s.txns[t]).value.product < Wants(s.txns[u]).value.product
  {
    hide Consistent, GetCheckoutItems;
    OrderRowHolderNeverWaits(s, t, u);
    var p := Wants(s.txns[t]).value.product;
    assert Fits(s.db, s.txns[u]);
    match s.txns[u]
    case Txn(CheckoutJob(o), Locking(wanted, got)) =>
      var rows := GetCheckoutItems(s.db, o);
      var i :| 0 <= i < |got| && got[i].product == p;
      assert SameButStock(wanted[|got|], rows[|got|]);
      assert rows[i].product < rows[|got|].product;
    case _ =>
  }

  predicate Link(s: State, c: seq<nat>, i: nat)
    requires i + 1 < |c|
  {
    WaitsFor(s, c[i], c[i + 1])
  }

  /** A walk along the waits that comes back to where it began. */
  predicate IsCycle(s: State, c: seq<nat>) {
    && |c| >= 2 && c[0] == c[|c| - 1]
    && forall i | 0 <= i < |c| - 1 :: Link(s, c, i)
  }

  lemma CycleWaitsForInventory(s: State, c: seq<nat>, i: nat)
    requires IsCycle(s, c) && i + 1 < |c|
    ensures WaitsFor(s, c[i], c[i + 1]) && Wants(s.txns[c[i]]).value.Inventory?
  {
    hide Holds, Wants;
    assert Link(s, c, i) && Link(s, c, 0);
    assert i + 2 < |c| ==> Link(s, c, i + 1);
    OrderRowHolderNeverWaits(s, c[i], c[i + 1]);
  }

  lemma {:induction false} WantsClimb(s: State, c: seq<nat>, n: nat)
    requires Consistent(s.db) && AllFit(s) && IsCycle(s, c) && n + 1 < |c|
    ensures WaitsFor(s, c[0], c[1]) && WaitsFor(s, c[n], c[n + 1])
    ensures Wants(s.txns[c[n]]).value.Inventory? && Wants(s.txns[c[0]]).value.Inventory?
    ensures Wants(s.txns[c[0]]).value.product + n <= Wants(s.txns[c[n]]).value.product
  {
    hide Consistent, Fits, Holds, Wants, IsCycle, WaitsFor;
    CycleWaitsForInventory(s, c, 0);
    CycleWaitsForInventory(s, c, n);
    if n > 0 {
      WantsClimb(s, c, n - 1);
      Waiting(s, c[n], c[n + 1]);
      LocksAscend(s, c[n - 1], c[n]);
    }
  }

  lemma Waiting(s: State, t: nat, u: nat)
    requires WaitsFor(s, t, u)
    ensures t in s.txns && Wants(s.txns[t]).Some?
  {}

  /** No deadlock: in no reachable state do transactions wait for each other in a circle, of any length. */
  lemma NoWaitCycle(s0: State, es: seq<Event>, c: seq<nat>)
    requires Initial(s0)
    ensures !IsCycle(Exec(s0, es), c)
  {
    hide Exec, Initial, Consistent, Fits, Holds, Wants;
    InitialInv(s0);
    ExecKeeps(s0.db, s0, es);
    var s := Exec(s0, es);
    if IsCycle(s, c) {
      var n := |c| - 2;
      WantsClimb(s, c, n);
      LocksAscend(s, c[n], c[n + 1]);
      assert false;
    }
  }

  lemma BlockerOf(s: State, t: nat) returns (u: nat)
    requires Live(s, t) && !CanRun(s, t)
    ensures WaitsFor(s, t, u) && Live(s, u)
  {
    u :| u in s.txns && WaitsFor(s, t, u);
  }

  /** Somebody can always go on: follow the waits upwards to a transaction that does not wait. */
  lemma Progress(s: State, t: nat)
    requires Consistent(s.db) && AllFit(s) && Live(s, t)
    ensures exists u :: CanRun(s, u)
  {
    hide Consistent, Fits, Holds, Wants;
    if forall u | u in s.txns :: !CanRun(s, u) {
      var heights := set u | u in s.txns && Live(s, u) && Wants(s.txns[u]).Some? && Wants(s.txns[u]).value.Inventory?
                         :: -Wants(s.txns[u]).value.product;
      var v := BlockerOf(s, t);
      var w := BlockerOf(s, v);
      OrderRowHolderNeverWaits(s, t, v);
      assert -Wants(s.txns[t]).value.product in heights;
      var top := Min(heights);
      var a :| a in s.txns && Live(s, a) && Wants(s.txns[a]).Some? && Wants(s.txns[a]).value.Inventory?
               && -Wants(s.txns[a]).value.product == top;
      var b := BlockerOf(s, a);
      var c := BlockerOf(s, b);
      var d := BlockerOf(s, c);
      OrderRowHolderNeverWaits(s, b, c);
      assert -Wants(s.txns[b]).value.product in heights;
      LocksAscend(s, a, b);
      assert false;
    }
  }

  // ------------------------------------------------ termination

  /** An upper bound on the steps a transaction has left. */
  function Remaining(d: Db, txn: Txn): nat {
    match txn
    case Txn(CheckoutJob(o), Begun) => 2 * |GetCheckoutItems(d, o)| + 5
    case Txn(CheckoutJob(o), StatusRead) => 2 * |GetCheckoutItems(d, o)| + 4
    case Txn(_, Locking(wanted, got)) =>
      (if |got| < |wanted| then |wanted| - |got| else 0) + |wanted| + 3
    case Txn(_, Charging(rows, next, _)) => if next < |rows| then |rows| - next + 2 else 2
    case Txn(_, Closing(_, _)) => 1
    case Txn(_, Begun) => 2
    case Txn(_, StatusRead) => 2
    case Txn(_, Restocked(_)) => 1
    case Txn(_, Conflicted) => 1
    case Txn(_, Finished(_)) => 0
  }

  function Lefts(s: State): map<int, int> {
    map t | t in s.txns :: Remaining(s.db, s.txns[t])
  }

  function Work(s: State): int { Sum(Lefts(s)) }

  lemma AdvanceCountsDown(d: Db, txn: Txn)
    requires Fits(d, txn) && !Commits(txn) && !txn.pc.Finished?
    ensures Remaining(d, txn.(pc := Advance(d, txn))) < Remaining(d, txn)
  {
    hide GetCheckoutItems;
  }

  lemma RunKeepsItems(d0: Db, s: State, t: nat)
    requires Inv(d0, s) && CanRun(s, t)
    ensures RunTxn(s, t).db.items == s.db.items
    ensures RunTxn(s, t).db.inventory.Keys == s.db.inventory.Keys
  {
    hide Consistent, T.Sequenced, T.Replay, GetCheckoutItems;
    var txn := s.txns[t];
    assert Fits(s.db, txn);
    if txn.job.CheckoutJob? && txn.pc.Closing? {
      ClosingIsCheckout(s.db, txn.job.order, txn.pc.rows, txn.pc.writes);
    }
  }

  lemma SameItemsSameRemaining(d: Db, d': Db, txn: Txn)
    requires Consistent(d) && d'.items == d.items && d'.inventory.Keys == d.inventory.Keys
    ensures Remaining(d', txn) == Remaining(d, txn)
  {
    hide Consistent, GetCheckoutItems;
    if txn.job.CheckoutJob? {
      RowsStay(d, d', txn.job.order);
    }
  }

  lemma RunCountsDown(d0: Db, s: State, t: nat)
    requires Inv(d0, s) && CanRun(s, t)
    ensures Work(RunTxn(s, t)) < Work(s)
  {
    hide Consistent, Fits, T.Sequenced, T.Replay, GetCheckoutItems;
    var s' := RunTxn(s, t);
    RunKeepsItems(d0, s, t);
    forall u | u in s.txns ensures Remaining(s'.db, s.txns[u]) == Remaining(s.db, s.txns[u]) {
      SameItemsSameRemaining(s.db, s'.db, s.txns[u]);
    }
    if !Commits(s.txns[t]) {
      AdvanceCountsDown(s.db, s.txns[t]);
    }
    assert Remaining(s'.db, s'.txns[t]) < Remaining(s.db, s.txns[t]);
    assert Lefts(s') == Lefts(s)[t := Remaining(s'.db, s'.txns[t])];
    SumUpdate(Lefts(s), t, Remaining(s'.db, s'.txns[t]));
  }

  lemma FaultCountsDown(s: State, t: nat)
    requires Live(s, t)
    ensures Work(Step(s, Fault(t))) < Work(s)
  {
    hide GetCheckoutItems;
    var s' := Step(s, Fault(t));
    assert Lefts(s') == Lefts(s)[t := 0];
    SumUpdate(Lefts(s), t, 0);
  }

  lemma WorkNonNegative(s: State)
    ensures 0 <= Work(s)
  {
    hide GetCheckoutItems, Remaining;
    SumBounds(Lefts(s));
  }

  /** A schedule of the transactions at hand in which every event is a step that can be taken. */
  ghost predicate Productive(s: State, es: seq<Event>) {
    es == [] ||
    var mid := Exec(s, es[..|es| - 1]);
    && Productive(s, es[..|es| - 1])
    && match es[|es| - 1]
       case Run(t) => CanRun(mid, t)
       case Fault(t) => Live(mid, t)
       case _ => false
  }

  /** Every schedule ends: it is no longer than the work there was. */
  lemma {:induction false} SchedulesAreFinite(d0: Db, s: State, es: seq<Event>)
    requires Inv(d0, s) && Productive(s, es)
    ensures |es| + Work(Exec(s, es)) <= Work(s)
  {
    hide Inv, Work, CanRun, RunTxn, Goto;
    if es != [] {
      var front := es[..|es| - 1];
      SchedulesAreFinite(d0, s, front);
      ExecKeeps(d0, s, front);
      match es[|es| - 1]
      case Run(t) => RunCountsDown(d0, Exec(s, front), t);
      case Fault(t) => FaultCountsDown(Exec(s, front), t);
    }
  }

  ghost predicate AllFinished(s: State) {
    forall t | t in s.txns :: s.txns[t].pc.Finished?
  }

  /** From any point of any run, just letting the transactions go on brings every one of them to its answer. */
  lemma {:induction false} CanAlwaysFinish(d0: Db, s: State, es: seq<Event>) returns (more: seq<Event>)
    requires Inv(d0, s) && Productive(s, es)
    ensures Productive(s, more) && AllFinished(Exec(s, more))
    decreases Work(s) - |es|
  {
    hide Inv, Work, CanRun, RunTxn, Goto;
    var mid := Exec(s, es);
    if AllFinished(mid) {
      more := es;
    } else {
      var t :| t in mid.txns && !mid.txns[t].pc.Finished?;
      ExecKeeps(d0, s, es);
      InvParts(d0, mid);
      Progress(mid, t);
      var u :| CanRun(mid, u);
      var longer := es + [Run(u)];
      assert longer[..|es|] == es;
      SchedulesAreFinite(d0, s, longer);
      WorkNonNegative(Exec(s, longer));
      more := CanAlwaysFinish(d0, s, longer);
    }
  }

  lemma InvParts(d0: Db, s: State)
    requires Inv(d0, s)
    ensures Consistent(s.db) && AllFit(s)
  {}

  /**
   In any reachable state: if nobody can go on, everybody is done; and some
   schedule of the transactions at hand brings each of them to its answer.
   */
  lemma EveryRunCanFinish(s0: State, es: seq<Event>)
    requires Initial(s0)
    ensures var s := Exec(s0, es);
            && ((forall u :: !CanRun(s, u)) ==> AllFinished(s))
            && exists more :: Productive(s, more) && AllFinished(Exec(s, more))
  {
    hide Exec, Initial, Inv, CanRun;
    InitialInv(s0);
    ExecKeeps(s0.db, s0, es);
    var s := Exec(s0, es);
    InvParts(s0.db, s);
    if t :| t in s.txns && !s.txns[t].pc.Finished? {
      Progress(s, t);
    }
    var more := CanAlwaysFinish(s0.db, s, []);
  }
}
