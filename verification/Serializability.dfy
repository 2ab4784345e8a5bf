/** Every interleaving amounts to its committed operations run one at a time, in commit order. */
module Serializability {
  import opened Collections
  import opened Tables
  import opened Statements
  import T = Transactions
  import opened Interleaving

  predicate SameButStock(a: Row, b: Row) {
    a.product == b.product && a.quantity == b.quantity
  }

  ghost predicate HasKey(d: Db, o: int, user: int, key: string) {
    o in d.orders && d.orders[o].user == user && d.orders[o].key == key
  }

  /** What a transaction has read still holds of the committed tables, and its writes follow from it. */
  ghost predicate Fits(d: Db, txn: Txn) {
    match txn
    case Txn(CheckoutJob(o), StatusRead) => o in d.orders
    case Txn(CheckoutJob(o), Locking(wanted, got)) =>
      var rows := GetCheckoutItems(d, o);
      && o in d.orders
      && |wanted| == |rows| && (forall i | 0 <= i < |rows| :: SameButStock(wanted[i], rows[i]))
      && |got| <= |rows| && got == rows[..|got|]
    case Txn(CheckoutJob(o), Charging(rows, next, writes)) =>
      && o in d.orders
      && rows != [] && rows == GetCheckoutItems(d, o)
      && next <= |rows| && writes == Decremented(rows[..next])
      && forall i | 0 <= i < next :: rows[i].quantity <= rows[i].stock
    case Txn(CheckoutJob(o), Closing(rows, writes)) =>
      && o in d.orders && d.orders[o].status == Started
      && rows != [] && rows == GetCheckoutItems(d, o)
      && writes == Decremented(rows)
      && forall i | 0 <= i < |rows| :: rows[i].quantity <= rows[i].stock
    case Txn(RestockJob(p, amount), Restocked(stock)) =>
      amount > 0 && p in d.inventory && stock == d.inventory[p] + amount <= MAX_INT4
    case Txn(CreateJob(user, key), Conflicted) => exists o :: HasKey(d, o, user, key)
    case Txn(CreateJob(user, key), Finished(Created(o))) => HasKey(d, o, user, key)
    case Txn(CheckoutJob(o), Finished(Committed)) => o in d.orders && d.orders[o].status == Pending
    case Txn(RestockJob(_, _), Finished(Committed)) => true
    case Txn(_, Finished(Failed(_))) => true
    case Txn(_, Begun) => true
    case _ => false
  }

  ghost predicate Exclusive(s: State) {
    forall t, u, l | t in s.txns && u in s.txns && t != u && Holds(s.txns[t], l) :: !Holds(s.txns[u], l)
  }

  predicate Paid(txn: Txn, o: int) {
    txn == Txn(CheckoutJob(o), Finished(Committed))
  }

  ghost predicate PaidOnce(s: State) {
    forall t, u, o | t in s.txns && u in s.txns && Paid(s.txns[t], o) && Paid(s.txns[u], o) :: t == u
  }

  ghost predicate AllFit(s: State) {
    forall t | t in s.txns :: Fits(s.db, s.txns[t])
  }

  /** What every reachable state keeps; `d0` is the database the run began with. */
  ghost predicate Inv(d0: Db, s: State) {
    && Consistent(s.db) && T.Sequenced(s.db, s.nextOrder, s.nextProduct)
    && AllFit(s) && Exclusive(s) && PaidOnce(s)
    && T.Replay(d0, s.log) == Ok(s.db)
  }

  // ------------------------------------------------ steps that commit nothing

  predicate Commits(txn: Txn) {
    || (txn.job.CheckoutJob? && txn.pc.Closing?)
    || (txn.job.RestockJob? && txn.pc.Restocked?)
    || (txn.job.CreateJob? && txn.pc.Begun?)
  }

  lemma LockOneMore(d: Db, o: int, wanted: seq<Row>, got: seq<Row>)
    requires Consistent(d) && Fits(d, Txn(CheckoutJob(o), Locking(wanted, got))) && |got| < |wanted|
    ensures Fits(d, Txn(CheckoutJob(o), Advance(d, Txn(CheckoutJob(o), Locking(wanted, got)))))
  {
    hide Consistent, GetCheckoutItems;
    var rows := GetCheckoutItems(d, o);
    var n := |got|;
    assert SameButStock(wanted[n], rows[n]);
    assert rows[..n + 1] == rows[..n] + [rows[n]];
  }

  lemma ChargeOneMore(d: Db, o: int, rows: seq<Row>, next: nat, writes: map<int, int>)
    requires Consistent(d) && Fits(d, Txn(CheckoutJob(o), Charging(rows, next, writes))) && next < |rows|
    ensures Fits(d, Txn(CheckoutJob(o), Advance(d, Txn(CheckoutJob(o), Charging(rows, next, writes)))))
  {
    hide Consistent, GetCheckoutItems;
    T.TakeRow(d, o, next);
    assert rows[..next + 1][..next] == rows[..next];
  }

  /** A transaction's own step keeps it in line with the committed tables. */
  lemma AdvanceFits(d: Db, txn: Txn)
    requires Consistent(d) && Fits(d, txn) && !Commits(txn)
    ensures Fits(d, txn.(pc := Advance(d, txn)))
  {
    hide Consistent, GetCheckoutItems;
    match txn
    case Txn(CheckoutJob(o), Locking(wanted, got)) =>
      if |got| < |wanted| {
        LockOneMore(d, o, wanted, got);
      }
    case Txn(CheckoutJob(o), Charging(rows, next, writes)) =>
      if next < |rows| {
        ChargeOneMore(d, o, rows, next, writes);
      } else {
        assert rows[..next] == rows;
      }
    case Txn(CreateJob(user, key), Conflicted) =>
      var o :| HasKey(d, o, user, key);
      KeysAreUnique(d);
      T.FallbackFinds(d, user, key, o);
    case _ =>
  }

  lemma KeysAreUnique(d: Db)
    requires Consistent(d)
    ensures KeysUnique(d.orders)
  {}

  /** A step takes no lock but the one it was waiting for. */
  lemma AdvanceHolds(d: Db, txn: Txn, l: RowLock)
    requires Holds(txn.(pc := Advance(d, txn)), l)
    ensures Holds(txn, l) || Wants(txn) == Some(l)
  {
    hide GetCheckoutItems;
    match txn
    case Txn(CheckoutJob(_), Locking(wanted, got)) =>
      if |got| < |wanted| {
        var got' := Advance(d, txn).got;
        var i :| 0 <= i < |got'| && got'[i].product == l.product;
        assert i < |got| ==> got[i] == got'[i];
      }
    case _ =>
  }

  // ------------------------------------------------ steps that change the tables

  /** `d'` differs from `d` in nothing that `txn` depends on. */
  ghost predicate Undisturbed(d: Db, d': Db, txn: Txn) {
    && (forall o | o in d.orders ::
          && o in d'.orders && SameKey(d.orders[o], d'.orders[o])
          && (d.orders[o].status != Started || Holds(txn, OrderRow(o)) ==> d'.orders[o].status == d.orders[o].status))
    && (forall p | p in d.inventory ::
          p in d'.inventory && (Holds(txn, Inventory(p)) ==> d'.inventory[p] == d.inventory[p]))
    && (forall o | PastItemRead(txn, o) :: Basket(d'.items, o) == Basket(d.items, o))
  }

  lemma RowsStay(d: Db, d': Db, o: int)
    requires Consistent(d)
    requires forall p | p in d.inventory :: p in d'.inventory
    requires Basket(d'.items, o) == Basket(d.items, o)
    ensures var rows, rows' := GetCheckoutItems(d, o), GetCheckoutItems(d', o);
            && |rows| == |rows'|
            && forall i | 0 <= i < |rows| ::
                 && rows'[i].product in d'.inventory
                 && rows'[i] == rows[i].(stock := d'.inventory[rows'[i].product])
  {
    hide GetCheckoutItems;
    forall p | (o, p) in d.items ensures p in d.inventory { assert ItemValid(d, o, p); }
    RowsFollowStock(d, d', o);
  }

  lemma PrefixStays(rows: seq<Row>, rows': seq<Row>, n: nat)
    requires n <= |rows| == |rows'|
    requires forall i | 0 <= i < n :: rows[i] == rows'[i]
    ensures rows[..n] == rows'[..n]
  {}

  lemma LockingStays(d: Db, d': Db, o: int, wanted: seq<Row>, got: seq<Row>)
    requires var txn := Txn(CheckoutJob(o), Locking(wanted, got));
             Consistent(d) && Fits(d, txn) && Undisturbed(d, d', txn)
    ensures Fits(d', Txn(CheckoutJob(o), Locking(wanted, got)))
  {
    hide Consistent, GetCheckoutItems;
    var txn := Txn(CheckoutJob(o), Locking(wanted, got));
    assert PastItemRead(txn, o);
    RowsStay(d, d', o);
    var rows, rows' := GetCheckoutItems(d, o), GetCheckoutItems(d', o);
    forall i | 0 <= i < |got| ensures rows[i] == rows'[i] {
      assert got[i] == rows[i];
      assert Has(got, got[i].product);
      assert Holds(txn, Inventory(got[i].product));
    }
    PrefixStays(rows, rows', |got|);
    forall i | 0 <= i < |rows'| ensures SameButStock(wanted[i], rows'[i]) {
      assert SameButStock(wanted[i], rows[i]);
    }
  }

  lemma RowsHeldStay(d: Db, d': Db, txn: Txn, o: int, rows: seq<Row>)
    requires Consistent(d) && Undisturbed(d, d', txn) && PastItemRead(txn, o)
    requires rows == GetCheckoutItems(d, o)
    requires forall p | Has(rows, p) :: Holds(txn, Inventory(p))
    ensures GetCheckoutItems(d', o) == rows
  {
    hide Consistent, GetCheckoutItems;
    RowsStay(d, d', o);
    var rows' := GetCheckoutItems(d', o);
    forall i | 0 <= i < |rows| ensures rows[i] == rows'[i] {
      assert Has(rows, rows[i].product);
    }
  }

  lemma FitsStays(d: Db, d': Db, txn: Txn)
    requires Consistent(d) && Fits(d, txn) && Undisturbed(d, d', txn)
    ensures Fits(d', txn)
  {
    hide Consistent, GetCheckoutItems;
    match txn
    case Txn(CheckoutJob(o), Locking(wanted, got)) => LockingStays(d, d', o, wanted, got);
    case Txn(CheckoutJob(o), Charging(rows, next, writes)) => RowsHeldStay(d, d', txn, o, rows);
    case Txn(CheckoutJob(o), Closing(rows, writes)) =>
      assert Holds(txn, OrderRow(o));
      RowsHeldStay(d, d', txn, o, rows);
    case Txn(RestockJob(p, _), Restocked(_)) => assert Holds(txn, Inventory(p));
    case Txn(CreateJob(user, key), Conflicted) =>
      var o :| HasKey(d, o, user, key);
      assert HasKey(d', o, user, key);
    case _ =>
  }

  // ------------------------------------------------ the events, one by one

  lemma LogGrows(d0: Db, log: seq<T.Op>, d: Db, op: T.Op)
    requires Consistent(d) && T.Replay(d0, log) == Ok(d) && T.Apply(d, op).Ok?
    ensures T.Replay(d0, log + [op]) == T.Apply(d, op)
    ensures Consistent(T.Apply(d, op).value)
  {
    hide Consistent, T.Apply;
    assert (log + [op])[..|log|] == log;
    T.ApplyKeepsConsistent(d, op);
  }

  /** Transaction `t` moved to `pc` and the tables to `d`; nobody else was disturbed. */
  lemma OneMoved(d0: Db, s: State, s': State, t: nat)
    requires Inv(d0, s) && t in s'.txns
    requires s'.txns == s.txns[t := s'.txns[t]]
    requires Consistent(s'.db) && T.Sequenced(s'.db, s'.nextOrder, s'.nextProduct)
    requires T.Replay(d0, s'.log) == Ok(s'.db)
    requires forall u | u in s.txns && u != t :: Undisturbed(s.db, s'.db, s.txns[u])
    requires Fits(s'.db, s'.txns[t])
    requires forall u, l | u in s.txns && u != t && Holds(s'.txns[t], l) :: !Holds(s.txns[u], l)
    requires forall u, o | u in s.txns && u != t && Paid(s'.txns[t], o) :: !Paid(s.txns[u], o)
    ensures Inv(d0, s')
  {
    hide Consistent, Fits, Undisturbed, T.Sequenced, T.Replay, Holds;
    forall u | u in s'.txns ensures Fits(s'.db, s'.txns[u]) {
      if u != t { FitsStays(s.db, s'.db, s.txns[u]); }
    }
  }

  lemma SameTablesDisturbNoOne(d: Db, txn: Txn)
    ensures Undisturbed(d, d, txn)
  {}

  lemma NewLocksWereFree(s: State, t: nat, l: RowLock)
    requires CanRun(s, t) && Exclusive(s)
    requires Holds(s.txns[t].(pc := Advance(s.db, s.txns[t])), l)
    ensures forall u | u in s.txns && u != t :: !Holds(s.txns[u], l)
  {
    hide Advance;
    AdvanceHolds(s.db, s.txns[t], l);
    forall u | u in s.txns && u != t ensures !Holds(s.txns[u], l) {
      assert !WaitsFor(s, t, u);
    }
  }

  lemma NeverPaysByAdvancing(d: Db, txn: Txn)
    requires !Commits(txn) && !txn.pc.Finished?
    ensures forall o :: !Paid(txn.(pc := Advance(d, txn)), o)
  {}

  lemma AdvanceKeeps(d0: Db, s: State, t: nat)
    requires Inv(d0, s) && CanRun(s, t) && !Commits(s.txns[t])
    ensures Inv(d0, Goto(s, t, Advance(s.db, s.txns[t])))
  {
    hide Consistent, Fits, Advance, Undisturbed, Holds, T.Sequenced;
    var s' := Goto(s, t, Advance(s.db, s.txns[t]));
    AdvanceFits(s.db, s.txns[t]);
    NeverPaysByAdvancing(s.db, s.txns[t]);
    forall u | u in s.txns && u != t ensures Undisturbed(s.db, s'.db, s.txns[u]) {
      SameTablesDisturbNoOne(s.db, s.txns[u]);
    }
    forall u, l | u in s.txns && u != t && Holds(s'.txns[t], l) ensures !Holds(s.txns[u], l) {
      NewLocksWereFree(s, t, l);
    }
    OneMoved(d0, s, s', t);
  }

  /** Publishing a checkout's writes is checking the order out by the book. */
  lemma ClosingIsCheckout(d: Db, o: int, rows: seq<Row>, writes: map<int, int>)
    requires Consistent(d) && Fits(d, Txn(CheckoutJob(o), Closing(rows, writes)))
    ensures T.Checkout(d, o) == Ok(WithWrites(d, o, writes))
  {
    hide Consistent, GetCheckoutItems;
    T.TakenAll(d, o);
    assert rows[..|rows|] == rows;
  }

  lemma CheckoutDisturbsNoOne(d: Db, o: int, rows: seq<Row>, writes: map<int, int>, other: Txn)
    requires Consistent(d) && Fits(d, Txn(CheckoutJob(o), Closing(rows, writes)))
    requires forall l | Holds(Txn(CheckoutJob(o), Closing(rows, writes)), l) :: !Holds(other, l)
    ensures Undisturbed(d, WithWrites(d, o, writes), other)
  {
    hide Consistent, GetCheckoutItems;
    var txn := Txn(CheckoutJob(o), Closing(rows, writes));
    var d' := WithWrites(d, o, writes);
    DecrementedAt(rows);
    forall p | p in d.inventory && Holds(other, Inventory(p)) ensures d'.inventory[p] == d.inventory[p] {
      assert !Holds(txn, Inventory(p));
    }
    assert Holds(txn, OrderRow(o));
  }

  lemma SequencedStays(d: Db, d': Db, nextOrder: int, nextProduct: int)
    requires T.Sequenced(d, nextOrder, nextProduct)
    requires d'.orders.Keys == d.orders.Keys && d'.products == d.products
    ensures T.Sequenced(d', nextOrder, nextProduct)
  {}

  lemma CloseKeeps(d0: Db, s: State, t: nat, o: int, rows: seq<Row>, writes: map<int, int>)
    requires Inv(d0, s) && CanRun(s, t) && s.txns[t] == Txn(CheckoutJob(o), Closing(rows, writes))
    ensures Inv(d0, RunTxn(s, t))
  {
    hide Consistent, GetCheckoutItems, T.Sequenced, T.Replay, Undisturbed;
    var s' := RunTxn(s, t);
    ClosingIsCheckout(s.db, o, rows, writes);
    LogGrows(d0, s.log, s.db, T.Pay(o));
    forall u | u in s.txns && u != t ensures Undisturbed(s.db, s'.db, s.txns[u]) {
      CheckoutDisturbsNoOne(s.db, o, rows, writes, s.txns[u]);
    }
    SequencedStays(s.db, s'.db, s.nextOrder, s.nextProduct);
    forall u, x | u in s.txns && u != t && Paid(s'.txns[t], x) ensures !Paid(s.txns[u], x) {
      assert Fits(s.db, s.txns[u]);
    }
    OneMoved(d0, s, s', t);
  }

  lemma RestockKeeps(d0: Db, s: State, t: nat, p: int, amount: int4, stock: int)
    requires Inv(d0, s) && CanRun(s, t) && s.txns[t] == Txn(RestockJob(p, amount), Restocked(stock))
    ensures Inv(d0, RunTxn(s, t))
  {
    hide Consistent, GetCheckoutItems, T.Sequenced, T.Replay;
    var s' := RunTxn(s, t);
    assert Fits(s.db, s.txns[t]);
    LogGrows(d0, s.log, s.db, T.Refill(p, amount));
    assert Holds(s.txns[t], Inventory(p));
    forall u | u in s.txns && u != t ensures Undisturbed(s.db, s'.db, s.txns[u]) {
      assert !Holds(s.txns[u], Inventory(p));
    }
    SequencedStays(s.db, s'.db, s.nextOrder, s.nextProduct);
    OneMoved(d0, s, s', t);
  }

  lemma CreateKeeps(d0: Db, s: State, t: nat, user: int, key: string)
    requires Inv(d0, s) && CanRun(s, t) && s.txns[t] == Txn(CreateJob(user, key), Begun)
    ensures Inv(d0, RunTxn(s, t))
  {
    hide Consistent, GetCheckoutItems, T.Sequenced, T.Replay;
    var s' := RunTxn(s, t);
    T.SequencedAfterCreate(s.db, s.nextOrder, s.nextProduct, user, key);
    var inserted := AddOrder(s.db, s.nextOrder, user, key, 0);
    if inserted.Ok? {
      LogGrows(d0, s.log, s.db, T.Create(s.nextOrder, user, key));
    } else if inserted.error == NoRows {
      var o :| o in s.db.orders && s.db.orders[o].user == user && s.db.orders[o].key == key;
      assert HasKey(s.db, o, user, key);
    }
    OneMoved(d0, s, s', t);
  }

  lemma RunKeeps(d0: Db, s: State, t: nat)
    requires Inv(d0, s) && CanRun(s, t)
    ensures Inv(d0, RunTxn(s, t))
  {
    hide Consistent, GetCheckoutItems, T.Sequenced, T.Replay, Undisturbed, Holds, Advance;
    match s.txns[t]
    case Txn(CheckoutJob(o), Closing(rows, writes)) => CloseKeeps(d0, s, t, o, rows, writes);
    case Txn(RestockJob(p, amount), Restocked(stock)) => RestockKeeps(d0, s, t, p, amount, stock);
    case Txn(CreateJob(user, key), Begun) => CreateKeeps(d0, s, t, user, key);
    case _ => AdvanceKeeps(d0, s, t);
  }

  lemma BeginKeeps(d0: Db, s: State, t: nat, job: Job)
    requires Inv(d0, s) && t !in s.txns
    ensures Inv(d0, s.(txns := s.txns[t := Txn(job, Begun)]))
  {
    hide Consistent, T.Sequenced, T.Replay, Undisturbed;
    var s' := s.(txns := s.txns[t := Txn(job, Begun)]);
    forall u | u in s.txns && u != t ensures Undisturbed(s.db, s'.db, s.txns[u]) {
      SameTablesDisturbNoOne(s.db, s.txns[u]);
    }
    OneMoved(d0, s, s', t);
  }

  lemma FaultKeeps(d0: Db, s: State, t: nat)
    requires Inv(d0, s) && Live(s, t)
    ensures Inv(d0, Goto(s, t, Finished(Failed(ConnectionLost))))
  {
    hide Consistent, T.Sequenced, T.Replay, Undisturbed;
    var s' := Goto(s, t, Finished(Failed(ConnectionLost)));
    forall u | u in s.txns && u != t ensures Undisturbed(s.db, s'.db, s.txns[u]) {
      SameTablesDisturbNoOne(s.db, s.txns[u]);
    }
    OneMoved(d0, s, s', t);
  }

  /** The orders that an operation running as a whole changes the items of. */
  predicate Edits(op: T.Op, o: int) {
    (op.Add? || op.Edit?) && op.order == o
  }

  lemma AddDisturbsNoOne(d: Db, op: T.Op, txn: Txn)
    requires op.Add? && T.Apply(d, op).Ok? && !PastItemRead(txn, op.order)
    ensures Undisturbed(d, T.Apply(d, op).value, txn)
  {
    hide Holds, Basket, Cost;
    BasketAfterPut(d.items, op.order, op.product, Item(op.quantity, d.products[op.product]));
  }

  lemma EditDisturbsNoOne(d: Db, op: T.Op, txn: Txn)
    requires op.Edit? && T.Apply(d, op).Ok? && !PastItemRead(txn, op.order)
    ensures Undisturbed(d, T.Apply(d, op).value, txn)
  {
    hide Holds, Basket, Cost;
    if op.quantity == 0 {
      BasketAfterDelete(d.items, op.order, op.product);
    } else {
      BasketAfterPut(d.items, op.order, op.product, d.items[(op.order, op.product)].(quantity := op.quantity));
    }
  }

  lemma WholeDisturbsNoOne(d: Db, op: T.Op, txn: Txn)
    requires Consistent(d) && (op.Add? || op.Edit? || op.Stock?) && T.Apply(d, op).Ok?
    requires forall o | Edits(op, o) :: !PastItemRead(txn, o)
    ensures Undisturbed(d, T.Apply(d, op).value, txn)
  {
    hide Consistent, Holds, T.AddItem, T.EditItem;
    if op.Stock? {
      StockedIsKnown(d, op.product);
    } else {
      assert Edits(op, op.order);
      if op.Add? {
        AddDisturbsNoOne(d, op, txn);
      } else {
        EditDisturbsNoOne(d, op, txn);
      }
    }
  }

  lemma StockedIsKnown(d: Db, p: int)
    requires Consistent(d)
    ensures p in d.inventory <==> p in d.products
  {}

  lemma WholeKeeps(d0: Db, s: State, op: T.Op)
    requires Inv(d0, s) && (op.Add? || op.Edit?)
    requires EditMayRun(s, op.order)
    ensures Inv(d0, Whole(s, op))
  {
    hide Consistent, T.Sequenced, T.Replay, Undisturbed, Fits, Holds;
    var s' := Whole(s, op);
    if T.Apply(s.db, op).Ok? {
      LogGrows(d0, s.log, s.db, op);
      SequencedStays(s.db, s'.db, s.nextOrder, s.nextProduct);
      forall t | t in s.txns ensures Fits(s'.db, s'.txns[t]) {
        assert forall o | Edits(op, o) :: !PastItemRead(s.txns[t], o);
        WholeDisturbsNoOne(s.db, op, s.txns[t]);
        FitsStays(s.db, s'.db, s.txns[t]);
      }
    }
  }

  lemma ProductKeeps(d0: Db, s: State, price: int, stock: int)
    requires Inv(d0, s)
    ensures Inv(d0, Step(s, Event.AddProduct(price, stock)))
  {
    hide Consistent, T.Sequenced, T.Replay, Undisturbed, Fits, Holds;
    if stock >= 0 {
      var op := T.Stock(s.nextProduct, price, stock);
      var s' := Step(s, Event.AddProduct(price, stock));
      T.SequencedAfterNewProduct(s.db, s.nextOrder, s.nextProduct, price, stock);
      if T.Apply(s.db, op).Ok? {
        LogGrows(d0, s.log, s.db, op);
        forall t | t in s.txns ensures Fits(s'.db, s'.txns[t]) {
          WholeDisturbsNoOne(s.db, op, s.txns[t]);
          FitsStays(s.db, s'.db, s.txns[t]);
        }
      }
    }
  }

  lemma StepKeeps(d0: Db, s: State, e: Event)
    requires Inv(d0, s)
    ensures Inv(d0, Step(s, e))
  {
    hide Inv, RunTxn, Whole;
    match e
    case Begin(t, job) => if t !in s.txns { BeginKeeps(d0, s, t, job); }
    case Run(t) => if CanRun(s, t) { RunKeeps(d0, s, t); }
    case Fault(t) => if Live(s, t) { FaultKeeps(d0, s, t); }
    case AddProduct(price, stock) => ProductKeeps(d0, s, price, stock);
    case AddItem(o, p, q) => if EditMayRun(s, o) { WholeKeeps(d0, s, T.Add(o, p, q)); }
    case EditItem(o, p, q) => if EditMayRun(s, o) { WholeKeeps(d0, s, T.Edit(o, p, q)); }
  }

  lemma {:induction false} ExecKeeps(d0: Db, s: State, es: seq<Event>)
    requires Inv(d0, s)
    ensures Inv(d0, Exec(s, es))
  {
    hide Inv, Step;
    if es != [] {
      ExecKeeps(d0, s, es[..|es| - 1]);
      StepKeeps(d0, Exec(s, es[..|es| - 1]), es[|es| - 1]);
    }
  }

  lemma InitialInv(s: State)
    requires Initial(s)
    ensures Inv(s.db, s)
  {}

  /**
   Serializability. However the steps of the transactions fall, the committed
   tables are what the committed operations leave when they run one after
   another in commit order, each succeeding. Whatever failed left no trace.
   */
  lemma Serializable(s: State, es: seq<Event>)
    requires Initial(s)
    ensures T.Replay(s.db, Exec(s, es).log) == Ok(Exec(s, es).db)
  {
    hide Exec, Initial;
    InitialInv(s);
    ExecKeeps(s.db, s, es);
  }
}
