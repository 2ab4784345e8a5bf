/** Many orders at once for the last units of one product. */
module Race {
  import opened Arithmetic
  import opened Collections
  import opened Tables
  import opened Statements
  import T = Transactions
  import opened Interleaving
  import opened Serializability

  /** Every transaction is about to check out a started order of its own, for `q` units of product `p` and nothing else. */
  ghost predicate Start(s: State, p: int, q: int) {
    && Consistent(s.db) && T.Sequenced(s.db, s.nextOrder, s.nextProduct) && s.log == []
    && q > 0 && p in s.db.inventory
    && (forall t | t in s.txns ::
          && s.txns[t].job.CheckoutJob? && s.txns[t].pc.Begun?
          && s.txns[t].job.order in s.db.orders
          && s.db.orders[s.txns[t].job.order].status == Started
          && Only(s.db, s.txns[t].job.order, p, q))
    && (forall t, u | t in s.txns && u in s.txns && s.txns[t].job == s.txns[u].job :: t == u)
  }

  predicate Only(d: Db, o: int, p: int, q: int) {
    && (o, p) in d.items && d.items[(o, p)].quantity == q
    && Basket(d.items, o).Keys == {p}
  }

  function Won(s: State): set<nat> {
    set t | t in s.txns && s.txns[t].pc == Finished(Committed)
  }

  function Short(s: State, p: int): set<nat> {
    set t | t in s.txns && s.txns[t].pc == Finished(Failed(InsufficientStock(p)))
  }

  lemma OneRow(d: Db, o: int, p: int, q: int)
    requires Consistent(d) && Only(d, o, p, q)
    ensures p in d.inventory && GetCheckoutItems(d, o) == [Row(p, d.inventory[p], q)]
  {
    hide GetCheckoutItems, Totalled;
    T.JoinEmptyIffBasketEmpty(d, o);
    assert ItemValid(d, o, p);
    var rows := GetCheckoutItems(d, o);
    forall i | 0 <= i < |rows| ensures rows[i] == Row(p, d.inventory[p], q) {
      assert rows[i].product in Basket(d.items, o).Keys;
    }
    JoinIsBasket(d, o);
    assert |Basket(d.items, o)| == |Basket(d.items, o).Keys| == 1;
  }

  /** Where one contender stands: its order is open until it has won, and it is only ever refused for want of stock. */
  ghost predicate Contends(s0: State, s: State, t: nat, p: int)
    requires t in s0.txns && t in s.txns
  {
    && s.txns[t].job == s0.txns[t].job && s.txns[t].job.CheckoutJob?
    && s.txns[t].job.order in s.db.orders
    && (s.txns[t].pc != Finished(Committed) ==> s.db.orders[s.txns[t].job.order].status == Started)
    && (s.txns[t].pc.Finished? ==>
          s.txns[t].pc == Finished(Committed) || s.txns[t].pc == Finished(Failed(InsufficientStock(p))))
  }

  /** How things stand at any moment of the race that began in `s0`. */
  ghost predicate Racing(s0: State, s: State, p: int, q: int) {
    && Inv(s0.db, s)
    && s.db.items == s0.db.items && p in s.db.inventory && p in s0.db.inventory
    && s.txns.Keys == s0.txns.Keys
    && (forall t | t in s.txns :: Contends(s0, s, t, p))
    && s.db.inventory[p] == s0.db.inventory[p] - q * |Won(s)|
    && (Short(s, p) != {} ==> s.db.inventory[p] < q)
  }

  /** Nothing but a shortage of `p` stops a contender, and only while there is one. */
  lemma ContenderAdvances(d: Db, txn: Txn, p: int, q: int)
    requires Consistent(d) && Fits(d, txn) && txn.job.CheckoutJob? && !Commits(txn) && !txn.pc.Finished?
    requires txn.job.order in d.orders && d.orders[txn.job.order].status == Started
    requires Only(d, txn.job.order, p, q) && q > 0
    ensures var pc := Advance(d, txn);
            pc.Finished? ==> pc == Finished(Failed(InsufficientStock(p))) && p in d.inventory && d.inventory[p] < q
  {
    hide Consistent, GetCheckoutItems;
    OneRow(d, txn.job.order, p, q);
    match txn
    case Txn(CheckoutJob(o), Charging(rows, next, writes)) =>
      if next < |rows| { T.TakeRow(d, o, next); RowInRangeFits(d, o); }
    case _ =>
  }

  lemma RowInRangeFits(d: Db, o: int)
    requires Consistent(d)
    ensures forall i | 0 <= i < |GetCheckoutItems(d, o)| ::
              0 <= GetCheckoutItems(d, o)[i].stock <= MAX_INT4 && 0 < GetCheckoutItems(d, o)[i].quantity <= MAX_INT4
  {
    hide Consistent, GetCheckoutItems;
    forall i | 0 <= i < |GetCheckoutItems(d, o)|
      ensures 0 <= GetCheckoutItems(d, o)[i].stock <= MAX_INT4
      ensures 0 < GetCheckoutItems(d, o)[i].quantity <= MAX_INT4
    {
      T.RowInRange(d, o, i);
    }
  }

  lemma RunIsAdvance(s: State, t: nat)
    requires t in s.txns && !Commits(s.txns[t])
    ensures RunTxn(s, t) == Goto(s, t, Advance(s.db, s.txns[t]))
  {
    hide Advance;
  }

  lemma FitsOf(d0: Db, s: State, t: nat)
    requires Inv(d0, s) && t in s.txns
    ensures Consistent(s.db) && Fits(s.db, s.txns[t])
  {}

  lemma NeverWinsByAdvancing(d: Db, txn: Txn)
    requires !Commits(txn) && !txn.pc.Finished? && txn.job.CheckoutJob?
    ensures Advance(d, txn) != Finished(Committed)
  {}

  /** How the winners and the refused change when one transaction moves. */
  lemma Tally(s: State, s': State, t: nat, pc: Pc, p: int)
    requires t in s.txns && !s.txns[t].pc.Finished? && s'.txns == s.txns[t := s.txns[t].(pc := pc)]
    ensures t !in Won(s) && Won(s') == Won(s) + (if pc == Finished(Committed) then {t} else {})
    ensures Short(s', p) == Short(s, p) + (if pc == Finished(Failed(InsufficientStock(p))) then {t} else {})
  {
    forall u ensures u in Won(s') <==> u in Won(s) || (u == t && pc == Finished(Committed)) {}
    forall u ensures u in Short(s', p) <==> u in Short(s, p) || (u == t && pc == Finished(Failed(InsufficientStock(p)))) {}
  }

  lemma StartOf(s0: State, t: nat, p: int, q: int)
    requires Start(s0, p, q) && t in s0.txns && s0.txns[t].job.CheckoutJob?
    ensures q > 0 && Only(s0.db, s0.txns[t].job.order, p, q)
    ensures forall u | u in s0.txns && u != t :: s0.txns[u].job != s0.txns[t].job
  {}

  lemma OnlyDependsOnItems(d: Db, d': Db, o: int, p: int, q: int)
    requires d.items == d'.items && Only(d, o, p, q)
    ensures Only(d', o, p, q)
  {}

  lemma AdvanceRaces(s0: State, s: State, t: nat, p: int, q: int)
    requires Start(s0, p, q) && Racing(s0, s, p, q) && CanRun(s, t) && !Commits(s.txns[t])
    ensures Racing(s0, RunTxn(s, t), p, q)
  {
    hide Start, Inv, Consistent, Fits, T.Sequenced, Advance, Commits, RunTxn, Won, Short, Only;
    var s' := RunTxn(s, t);
    RunIsAdvance(s, t);
    RunKeeps(s0.db, s, t);
    FitsOf(s0.db, s, t);
    assert Contends(s0, s, t, p);
    StartOf(s0, t, p, q);
    OnlyDependsOnItems(s0.db, s.db, s.txns[t].job.order, p, q);
    ContenderAdvances(s.db, s.txns[t], p, q);
    NeverWinsByAdvancing(s.db, s.txns[t]);
    Tally(s, s', t, Advance(s.db, s.txns[t]), p);
    forall u | u in s'.txns ensures Contends(s0, s', u, p) {
      assert Contends(s0, s, u, p);
    }
  }

  /** What the winning step of a contender does. */
  lemma WinningStep(d0: Db, s: State, t: nat, p: int, q: int)
    requires Inv(d0, s) && CanRun(s, t) && Commits(s.txns[t]) && s.txns[t].job.CheckoutJob?
    requires Only(s.db, s.txns[t].job.order, p, q) && p in s.db.inventory
    ensures var s' := RunTxn(s, t); var o := s.txns[t].job.order;
            && s'.txns == s.txns[t := Txn(CheckoutJob(o), Finished(Committed))]
            && s'.db.items == s.db.items
            && p in s'.db.inventory && s'.db.inventory[p] == s.db.inventory[p] - q
            && o in s.db.orders && s'.db.orders == s.db.orders[o := s.db.orders[o].(status := Pending)]
  {
    hide Consistent, GetCheckoutItems, T.Sequenced, T.Replay, Exclusive, PaidOnce;
    assert Fits(s.db, s.txns[t]);
    ClosingIsCheckout(s.db, s.txns[t].job.order, s.txns[t].pc.rows, s.txns[t].pc.writes);
  }

  lemma CommitRaces(s0: State, s: State, t: nat, p: int, q: int)
    requires Start(s0, p, q) && Racing(s0, s, p, q) && CanRun(s, t) && Commits(s.txns[t])
    ensures Racing(s0, RunTxn(s, t), p, q)
  {
    hide Start, Inv, Consistent, Fits, T.Sequenced, RunTxn, Won, Short, Only;
    var s' := RunTxn(s, t);
    assert Contends(s0, s, t, p);
    StartOf(s0, t, p, q);
    OnlyDependsOnItems(s0.db, s.db, s.txns[t].job.order, p, q);
    WinningStep(s0.db, s, t, p, q);
    RunKeeps(s0.db, s, t);
    Tally(s, s', t, Finished(Committed), p);
    assert |Won(s')| == |Won(s)| + 1;
    assert q * |Won(s')| == q * |Won(s)| + q;
    forall u | u in s'.txns ensures Contends(s0, s', u, p) {
      assert Contends(s0, s, u, p);
      assert u != t ==> s0.txns[u].job != s0.txns[t].job;
    }
  }

  lemma {:induction false} RunsRace(s0: State, ts: seq<nat>, p: int, q: int)
    requires Start(s0, p, q)
    ensures Racing(s0, Exec(s0, Turns(ts)), p, q)
  {
    hide Inv, RunTxn, Racing;
    if ts == [] {
      StartRaces(s0, p, q);
    } else {
      var n := |ts| - 1;
      RunsRace(s0, ts[..n], p, q);
      assert Turns(ts)[..n] == Turns(ts[..n]);
      var s := Exec(s0, Turns(ts[..n]));
      if CanRun(s, ts[n]) {
        if Commits(s.txns[ts[n]]) {
          CommitRaces(s0, s, ts[n], p, q);
        } else {
          AdvanceRaces(s0, s, ts[n], p, q);
        }
      }
    }
  }

  lemma StartRaces(s0: State, p: int, q: int)
    requires Start(s0, p, q)
    ensures Racing(s0, s0, p, q)
  {
    hide Consistent, T.Sequenced;
    assert Won(s0) == {} && Short(s0, p) == {};
  }

  /** The scheduler picks transactions in any order; picking one that has to wait, or is done, does nothing. */
  function Turns(ts: seq<nat>): seq<Event> {
    seq(|ts|, i requires 0 <= i < |ts| => Run(ts[i]))
  }

  lemma EveryoneWonOrShort(s0: State, s: State, p: int, q: int)
    requires Racing(s0, s, p, q) && forall t | t in s.txns :: s.txns[t].pc.Finished?
    ensures |Won(s)| + |Short(s, p)| == |s0.txns|
  {
    hide Inv;
    forall t | t in s.txns ensures t in Won(s) || t in Short(s, p) {
      assert Contends(s0, s, t, p);
    }
    assert Won(s) + Short(s, p) == s0.txns.Keys;
    assert Won(s) !! Short(s, p);
  }

  /**
   When the checkouts of N orders for `q` units each of a product with stock S
   are all over, in whatever order their steps fell, exactly min(N, S / q) have
   committed and every other one was refused for want of stock.
   */
  lemma ExactlyAsManyAsStock(s0: State, ts: seq<nat>, p: int, q: int)
    requires Start(s0, p, q)
    requires forall t | t in Exec(s0, Turns(ts)).txns :: Exec(s0, Turns(ts)).txns[t].pc.Finished?
    ensures var s := Exec(s0, Turns(ts)); var stock := s0.db.inventory[p];
            && p in s.db.inventory
            && |Won(s)| == (if |s0.txns| <= stock / q then |s0.txns| else stock / q)
            && |Short(s, p)| == |s0.txns| - |Won(s)|
            && s.db.inventory[p] == stock - q * |Won(s)|
  {
    hide Exec, Inv, Consistent, Won, Short, Contends;
    RunsRace(s0, ts, p, q);
    var s := Exec(s0, Turns(ts));
    EveryoneWonOrShort(s0, s, p, q);
    StockNonNegative(s0.db, s, p);
    Quotient(s0.db.inventory[p], q, |Won(s)|);
  }

  lemma StockNonNegative(d0: Db, s: State, p: int)
    requires Inv(d0, s) && p in s.db.inventory
    ensures 0 <= s.db.inventory[p]
  {}
}
