/**
 An edit that slips in while checkouts of its order are under way, and all that
 may follow. The checkouts that had read the items before the edit go on as if
 it had not been made; everybody else goes by the tables as they are. So each
 half of the system keeps its promises, against tables of its own.
 */
module StrayEdits {
  import opened Collections
  import opened Tables
  import opened Statements
  import T = Transactions
  import H = History
  import opened Interleaving
  import opened Serializability
  import G = Guarantees
  import opened Overlaps

  /** The edit runs in `s`, where no lock stops it. */
  ghost predicate SlipsIn(d0: Db, s: State, op: T.Op) {
    Inv(d0, s) && IsEdit(op) && T.Apply(s.db, op).Ok? && RowIsFree(s, op.order)
  }

  ghost predicate Slips(s: State, op: T.Op) {
    Consistent(s.db) && IsEdit(op) && T.Apply(s.db, op).Ok?
  }

  function OldItem(d: Db, op: T.Op): Option<Item>
    requires IsEdit(op)
  {
    if (op.order, op.product) in d.items then Some(d.items[(op.order, op.product)]) else None
  }

  /** The tables `d`, some time after the edit, as they would be without it. */
  function Undone(s: State, op: T.Op, d: Db): Db
    requires IsEdit(op) && op.order in s.db.orders
  {
    var o := op.order;
    d.(items := Written(d.items, (o, op.product), OldItem(s.db, op)),
       orders := if o in d.orders then d.orders[o := d.orders[o].(total := s.db.orders[o].total)] else d.orders)
  }

  /** What the edit left of its order is still there. */
  ghost predicate Kept(s: State, op: T.Op, d: Db)
    requires Slips(s, op)
  {
    var o, p, after := op.order, op.product, T.Apply(s.db, op).value;
    && o in s.db.orders && p in s.db.products
    && o in d.orders && o in after.orders && d.orders[o].total == after.orders[o].total
    && Basket(d.items, o) == Basket(after.items, o)
    && p in d.products && d.products[p] == s.db.products[p]
  }

  lemma EditKeeps(s: State, op: T.Op)
    requires Slips(s, op)
    ensures Kept(s, op, T.Apply(s.db, op).value)
    ensures Undone(s, op, T.Apply(s.db, op).value) == s.db
  {
    EditedItem(s.db, op);
    hide Cost, T.Apply, Owed, Consistent;
    var back := Undone(s, op, T.Apply(s.db, op).value);
    assert back.items == s.db.items;
    assert back.orders == s.db.orders;
  }

  /** An edit writes one item and one total. */
  lemma EditedItem(d: Db, op: T.Op)
    requires Consistent(d) && IsEdit(op) && T.Apply(d, op).Ok?
    ensures var o, k, after := op.order, (op.order, op.product), T.Apply(d, op).value;
            && o in d.orders && op.product in d.products
            && o in after.orders && after.orders == d.orders[o := d.orders[o].(total := after.orders[o].total)]
            && after == d.(items := after.items, orders := after.orders)
            && after.items == (if k in after.items then d.items[k := after.items[k]] else d.items - {k})
  {
    hide Cost;
    assert (op.order, op.product) in d.items ==> ItemValid(d, op.order, op.product);
  }

  lemma SameItem(d: Db, d': Db, o: int, p: int)
    requires Basket(d.items, o) == Basket(d'.items, o)
    ensures (o, p) in d.items <==> (o, p) in d'.items
    ensures (o, p) in d.items ==> d.items[(o, p)] == d'.items[(o, p)]
  {
    assert p in Basket(d.items, o) <==> (o, p) in d.items;
    assert p in Basket(d'.items, o) <==> (o, p) in d'.items;
  }

  /** What the edit did to the total, told backwards. */
  lemma TotalBefore(s: State, op: T.Op)
    requires Slips(s, op) && op.order in s.db.orders
    ensures var o, k, after := op.order, (op.order, op.product), T.Apply(s.db, op).value;
            && (k in s.db.items || k in after.items)
            && o in after.orders
            && s.db.orders[o].total
               == after.orders[o].total - (if k in after.items then Cost(after.items[k]) else 0)
                                        + (if k in s.db.items then Cost(s.db.items[k]) else 0)
  {
    hide Consistent, Cost;
  }

  lemma UndoneIsConsistent(s: State, op: T.Op, d: Db)
    requires Slips(s, op) && Consistent(d) && Kept(s, op, d)
    ensures Consistent(Undone(s, op, d))
  {
    hide Owed, Cost, Basket, T.Apply, Totalled;
    var o, p := op.order, op.product;
    var mid := d.(items := Written(d.items, (o, p), OldItem(s.db, op)));
    SameItem(d, T.Apply(s.db, op).value, o, p);
    TotalBefore(s, op);
    if (o, p) in s.db.items {
      assert ItemValid(s.db, o, p);
      T.PutMid(d, mid, o, p, s.db.items[(o, p)]);
    } else {
      T.RemoveMid(d, mid, o, p);
    }
    TotalFits(s.db, o);
    T.RetotalledIsConsistent(d, mid, o);
  }

  lemma TotalFits(d: Db, o: int)
    requires Consistent(d) && o in d.orders
    ensures 0 <= d.orders[o].total <= MAX_INT4
  {}

  // ------------------------------------------------ the two halves

  function StaleIds(s: State, o: int): set<nat> {
    set t | t in s.txns && PastItemRead(s.txns[t], o)
  }

  function Part(x: State, ids: set<nat>, d: Db): State {
    x.(txns := map t | t in x.txns && t in ids :: x.txns[t], log := [], db := d)
  }

  /** Those who go by the tables as they are. */
  function Fresh(x: State, stale: set<nat>): (h: State)
    ensures h.db == x.db && h.nextOrder == x.nextOrder && h.nextProduct == x.nextProduct && h.log == []
  {
    Part(x, x.txns.Keys - stale, x.db)
  }

  /** Those who go by the tables as they would be. */
  function Stale(s: State, op: T.Op, x: State): (h: State)
    requires IsEdit(op) && op.order in s.db.orders
    ensures h.db == Undone(s, op, x.db) && h.nextOrder == x.nextOrder && h.nextProduct == x.nextProduct && h.log == []
  {
    Part(x, StaleIds(s, op.order), Undone(s, op, x.db))
  }

  /** One of the stale checkouts has committed. */
  predicate StaleCommit(s: State, x: State, o: int) {
    exists t | t in StaleIds(s, o) :: G.Answered(x, t, Committed)
  }

  function Balance(x: State, p: int): int {
    H.OnHand(x.db, p) + H.Sold(x.db, p) - H.Supplied(x.log, p)
  }

  ghost predicate Balanced(s: State, op: T.Op, x: State, p: int)
    requires Slips(s, op)
  {
    Balance(x, p) == Balance(s, p)
                   + if StaleCommit(s, x, op.order)
                     then T.Quantity(T.Apply(s.db, op).value, op.order, p) - T.Quantity(s.db, op.order, p) else 0
  }

  ghost predicate Split(s: State, op: T.Op, x: State)
    requires Slips(s, op)
  {
    && Kept(s, op, x.db)
    && Inv(x.db, Fresh(x, StaleIds(s, op.order)))
    && Inv(Undone(s, op, x.db), Stale(s, op, x))
    && Exclusive(x)
    && (forall t | t in StaleIds(s, op.order) ::
          && t in x.txns && x.txns[t].job == CheckoutJob(op.order)
          && (PastItemRead(x.txns[t], op.order) || x.txns[t].pc.Finished?))
  }

  lemma ForgetLog(d0: Db, s: State)
    requires Inv(d0, s)
    ensures Inv(s.db, s.(log := []))
  {
    hide Consistent, T.Sequenced;
  }

  lemma SplitBegins(d0: Db, s: State, op: T.Op)
    requires SlipsIn(d0, s, op)
    ensures Slips(s, op) && Split(s, op, Whole(s, op))
  {
    hide Consistent, T.Apply, T.Sequenced, Holds, Fits, Undisturbed, T.Replay, Kept, Undone;
    var x := Whole(s, op);
    var stale := StaleIds(s, op.order);
    T.ApplyKeepsConsistent(s.db, op);
    EditKeeps(s, op);
    KeptMeans(s, op, x.db);
    EditMoves(s.db, op, op.product);
    ProductsStay(s.db, op);
    SequencedStays(s.db, x.db, s.nextOrder, s.nextProduct);
    forall t | t in s.txns && t !in stale ensures Fits(x.db, s.txns[t]) {
      assert forall o | Edits(op, o) :: !PastItemRead(s.txns[t], o);
      WholeDisturbsNoOne(s.db, op, s.txns[t]);
      FitsStays(s.db, x.db, s.txns[t]);
    }
    ReplayNothing(x.db);
    ReplayNothing(s.db);
  }

  lemma KeptMeans(s: State, op: T.Op, d: Db)
    requires Slips(s, op) && Kept(s, op, d)
    ensures op.order in s.db.orders
  {}

  lemma ProductsStay(d: Db, op: T.Op)
    requires IsEdit(op) && T.Apply(d, op).Ok?
    ensures T.Apply(d, op).value.products == d.products
  {}

  lemma ReplayNothing(d: Db)
    ensures T.Replay(d, []) == Ok(d)
  {}

  // ------------------------------------------------ what one half does to the other

  /** Reverting the edit hides nothing that a transaction of the other half depends on. */
  lemma DisturbanceUndone(s: State, op: T.Op, d: Db, d': Db, txn: Txn)
    requires IsEdit(op) && op.order in s.db.orders && Undisturbed(d, d', txn)
    requires Basket(d'.items, op.order) == Basket(d.items, op.order)
    ensures Undisturbed(Undone(s, op, d), Undone(s, op, d'), txn)
  {
    hide Holds, Basket, Written, PastItemRead;
    var k := (op.order, op.product);
    BasketsWritten(d.items, k, OldItem(s.db, op));
    BasketsWritten(d'.items, k, OldItem(s.db, op));
  }

  lemma BasketsWritten(items: map<(int, int), Item>, k: (int, int), i: Option<Item>)
    ensures Basket(Written(items, k, i), k.0)
         == if i.Some? then Basket(items, k.0)[k.1 := i.value] else Basket(items, k.0) - {k.1}
    ensures forall o | o != k.0 :: Basket(Written(items, k, i), o) == Basket(items, o)
  {
    if i.Some? {
      BasketAfterPut(items, k.0, k.1, i.value);
    } else {
      BasketAfterDelete(items, k.0, k.1);
    }
  }

  /** And the other way round, when the items have not moved. */
  lemma DisturbanceDone(s: State, op: T.Op, d: Db, d': Db, txn: Txn)
    requires IsEdit(op) && op.order in s.db.orders && Undisturbed(Undone(s, op, d), Undone(s, op, d'), txn)
    requires d'.items == d.items
    ensures Undisturbed(d, d', txn)
  {
    hide Holds;
    var g, g' := Undone(s, op, d), Undone(s, op, d');
    forall o | o in d.orders
      ensures o in d'.orders && SameKey(d.orders[o], d'.orders[o])
      ensures d.orders[o].status != Started || Holds(txn, OrderRow(o)) ==> d'.orders[o].status == d.orders[o].status
    {
      assert o in g.orders && g.orders[o].status == d.orders[o].status;
    }
  }

  /** A step disturbs nobody who holds none of its locks. */
  lemma RunDisturbsNoOne(d0: Db, s: State, t: nat, other: Txn)
    requires Inv(d0, s) && CanRun(s, t)
    requires forall l | Holds(s.txns[t], l) :: !Holds(other, l)
    ensures Undisturbed(s.db, RunTxn(s, t).db, other)
  {
    hide Consistent, GetCheckoutItems, T.Sequenced, T.Replay, Advance;
    assert Fits(s.db, s.txns[t]);
    match s.txns[t]
    case Txn(CheckoutJob(o), Closing(rows, writes)) => CheckoutDisturbsNoOne(s.db, o, rows, writes, other);
    case Txn(RestockJob(p, amount), Restocked(stock)) => assert Holds(s.txns[t], Inventory(p));
    case Txn(CreateJob(user, key), Begun) =>
      T.SequencedAfterCreate(s.db, s.nextOrder, s.nextProduct, user, key);
    case _ =>
  }

  lemma OtherEdits(d: Db, next: T.Op, o: int)
    requires IsEdit(next) && T.Apply(d, next).Ok? && next.order != o && o in d.orders
    ensures var d' := T.Apply(d, next).value;
            && o in d'.orders && d'.orders[o].total == d.orders[o].total
            && Basket(d'.items, o) == Basket(d.items, o)
            && d'.products == d.products
  {
    hide Basket, Cost;
    var k := (next.order, next.product);
    if next.Edit? && next.quantity == 0 {
      BasketAfterDelete(d.items, next.order, next.product);
    } else {
      var i := if next.Add? then Item(next.quantity, d.products[next.product]) else d.items[k].(quantity := next.quantity);
      BasketAfterPut(d.items, next.order, next.product, i);
    }
  }

  lemma OtherOps(d: Db, next: T.Op, o: int)
    requires !IsEdit(next) && T.Apply(d, next).Ok? && o in d.orders
    ensures var d' := T.Apply(d, next).value;
            && o in d'.orders && d'.orders[o].total == d.orders[o].total
            && d'.items == d.items
            && forall p | p in d.products :: p in d'.products && d'.products[p] == d.products[p]
  {
    hide Basket;
  }

  lemma OpKeeps(s: State, op: T.Op, d: Db, next: T.Op)
    requires Slips(s, op) && Kept(s, op, d) && T.Apply(d, next).Ok? && !Edits(next, op.order)
    ensures Kept(s, op, T.Apply(d, next).value)
    ensures Basket(T.Apply(d, next).value.items, op.order) == Basket(d.items, op.order)
  {
    hide Consistent, T.Apply, Basket;
    if IsEdit(next) {
      OtherEdits(d, next, op.order);
    } else {
      OtherOps(d, next, op.order);
    }
  }

  /** The tables of `x'` are those of `x`, or one more operation has been applied to them and logged. */
  ghost predicate Grown(x: State, x': State, o: int) {
    || (x'.db == x.db && x'.log == x.log)
    || exists op :: !Edits(op, o) && x'.log == x.log + [op] && T.Apply(x.db, op) == Ok(x'.db)
  }

  lemma GrownKeeps(s: State, op: T.Op, x: State, x': State, p: int)
    requires Slips(s, op) && Kept(s, op, x.db) && Consistent(x.db) && Grown(x, x', op.order)
    ensures Kept(s, op, x'.db) && Basket(x'.db.items, op.order) == Basket(x.db.items, op.order)
    ensures Balance(x', p) == Balance(x, p)
  {
    hide Consistent, T.Apply, Kept, H.OnHand, H.Sold;
    if x'.log != x.log {
      var next :| !Edits(next, op.order) && x'.log == x.log + [next] && T.Apply(x.db, next) == Ok(x'.db);
      OpKeeps(s, op, x.db, next);
      H.ApplyConserves(x.db, next, p);
      assert x'.log[..|x'.log| - 1] == x.log;
    }
  }

  /** The stale half stands by while the tables change to `d`. */
  lemma StaleStandsBy(s: State, op: T.Op, x: State, x': State)
    requires Slips(s, op) && Split(s, op, x) && Kept(s, op, x'.db) && op.order in s.db.orders
    requires Consistent(x'.db) && T.Sequenced(x'.db, x'.nextOrder, x'.nextProduct)
    requires Basket(x'.db.items, op.order) == Basket(x.db.items, op.order)
    requires forall t | t in StaleIds(s, op.order) :: t in x'.txns && x'.txns[t] == x.txns[t]
    requires forall t | t in StaleIds(s, op.order) :: Undisturbed(x.db, x'.db, x.txns[t])
    ensures Inv(Undone(s, op, x'.db), Stale(s, op, x'))
  {
    hide Consistent, T.Apply, T.Sequenced, Holds, Fits, Undisturbed, T.Replay, Kept, Undone;
    UndoneIsConsistent(s, op, x'.db);
    SequencedUndone(s, op, x'.db, x'.nextOrder, x'.nextProduct);
    var g, g' := Stale(s, op, x), Stale(s, op, x');
    assert g'.txns == g.txns;
    forall t | t in g.txns ensures Undisturbed(g.db, g'.db, g.txns[t]) {
      DisturbanceUndone(s, op, x.db, x'.db, x.txns[t]);
    }
    hide Stale, StaleIds, Slips, Split;
    HalfStands(g, g');
  }

  /** A half of the system that is not disturbed keeps its promises. */
  lemma HalfStands(g: State, g': State)
    requires Inv(g.db, g) && g'.txns == g.txns && g'.log == []
    requires Consistent(g'.db) && T.Sequenced(g'.db, g'.nextOrder, g'.nextProduct)
    requires forall t | t in g.txns :: Undisturbed(g.db, g'.db, g.txns[t])
    ensures Inv(g'.db, g')
  {
    hide Consistent, T.Sequenced, Holds, Fits, Undisturbed;
    forall t | t in g'.txns ensures Fits(g'.db, g'.txns[t]) {
      FitsStays(g.db, g'.db, g.txns[t]);
    }
  }

  /** The fresh half has moved on to `x'`, and the stale half stands by. */
  lemma FreshMoved(s: State, op: T.Op, x: State, x': State, p: int)
    requires Slips(s, op) && Split(s, op, x) && Balanced(s, op, x, p)
    requires Grown(x, x', op.order)
    requires Inv(x'.db, Fresh(x', StaleIds(s, op.order)))
    requires forall t | t in StaleIds(s, op.order) :: t in x'.txns && x'.txns[t] == x.txns[t]
    requires forall t | t in StaleIds(s, op.order) :: Undisturbed(x.db, x'.db, x.txns[t])
    requires Exclusive(x')
    ensures Split(s, op, x') && Balanced(s, op, x', p)
  {
    hide Inv, T.Apply, T.Quantity, Undisturbed, Kept, Undone, Grown, Balance, Exclusive, Fresh, Stale, StaleCommit, StaleIds, Consistent;
    SameCommits(s, x, x', op.order);
    ConsistentHalf(x.db, Fresh(x, StaleIds(s, op.order)));
    ConsistentHalf(x'.db, Fresh(x', StaleIds(s, op.order)));
    GrownKeeps(s, op, x, x', p);
    KeptMeans(s, op, x.db);
    StaleStandsBy(s, op, x, x');
  }

  lemma SameCommits(s: State, x: State, x': State, o: int)
    requires forall t | t in StaleIds(s, o) :: t in x.txns && t in x'.txns && x'.txns[t] == x.txns[t]
    ensures StaleCommit(s, x', o) <==> StaleCommit(s, x, o)
  {
    forall t | t in StaleIds(s, o) ensures G.Answered(x', t, Committed) <==> G.Answered(x, t, Committed) {}
  }

  lemma ConsistentHalf(d0: Db, s: State)
    requires Inv(d0, s)
    ensures Consistent(s.db) && T.Sequenced(s.db, s.nextOrder, s.nextProduct)
  {}

  lemma SequencedUndone(s: State, op: T.Op, d: Db, nextOrder: int, nextProduct: int)
    requires IsEdit(op) && op.order in s.db.orders && T.Sequenced(d, nextOrder, nextProduct)
    ensures T.Sequenced(Undone(s, op, d), nextOrder, nextProduct)
  {}

  // ------------------------------------------------ the steps

  /** A step depends on the tables, the next order's number and the transaction that takes it. */
  lemma RunDependsOn(x: State, h: State, t: nat)
    requires t in x.txns && t in h.txns && h.txns[t] == x.txns[t] && h.db == x.db && h.nextOrder == x.nextOrder
    requires h.nextProduct == x.nextProduct && h.log == []
    ensures var x', h' := RunTxn(x, t), RunTxn(h, t);
            && h'.db == x'.db && h'.nextOrder == x'.nextOrder && h'.nextProduct == x'.nextProduct
            && x'.log == x.log + h'.log
            && t in x'.txns && x'.txns == x.txns[t := x'.txns[t]] && h'.txns == h.txns[t := x'.txns[t]]
  {
    hide Advance, AddOrder, WithWrites;
  }

  /** Any part of the transactions runs by itself as it does among the others. */
  lemma RunIsLocal(x: State, ids: set<nat>, d: Db, t: nat)
    requires t in x.txns && t in ids && d == x.db
    ensures var h, x', h' := Part(x, ids, d), RunTxn(x, t), RunTxn(Part(x, ids, d), t);
            && h'.db == x'.db && h'.nextOrder == x'.nextOrder && h'.nextProduct == x'.nextProduct
            && x'.log == x.log + h'.log
            && t in x'.txns && x'.txns == x.txns[t := x'.txns[t]]
            && h'.txns == h.txns[t := x'.txns[t]]
  {
    hide RunTxn;
    RunDependsOn(x, Part(x, ids, d), t);
  }

  lemma CanRunInPart(x: State, ids: set<nat>, d: Db, t: nat)
    requires CanRun(x, t) && t in ids
    ensures CanRun(Part(x, ids, d), t)
  {
    hide Wants, Holds;
    var h := Part(x, ids, d);
    forall u | u in h.txns ensures !WaitsFor(h, t, u) {
      assert !WaitsFor(x, t, u);
    }
  }

  lemma RunStaysExclusive(x: State, t: nat)
    requires Exclusive(x) && CanRun(x, t)
    ensures Exclusive(RunTxn(x, t))
  {
    var x' := RunTxn(x, t);
    hide Advance, AddOrder, CanRun, Holds;
    RunTakesFreeLocks(x, t);
    assert x'.txns == x.txns[t := x'.txns[t]];
  }

  lemma RunTakesFreeLocks(x: State, t: nat)
    requires Exclusive(x) && CanRun(x, t)
    ensures var x' := RunTxn(x, t);
            && x'.txns == x.txns[t := x'.txns[t]]
            && forall u, l | u in x.txns && u != t && Holds(x'.txns[t], l) :: !Holds(x.txns[u], l)
  {
    var x' := RunTxn(x, t);
    hide Advance, AddOrder, CanRun;
    forall u, l | u in x.txns && u != t && Holds(x'.txns[t], l) ensures !Holds(x.txns[u], l) {
      if !Commits(x.txns[t]) { NewLocksWereFree(x, t, l); }
    }
  }

  lemma FreshHalfRuns(x: State, stale: set<nat>, t: nat, o: int)
    requires Inv(x.db, Fresh(x, stale)) && CanRun(x, t) && t !in stale
    ensures Inv(RunTxn(x, t).db, Fresh(RunTxn(x, t), stale))
    ensures Grown(x, RunTxn(x, t), o)
  {
    var ids := x.txns.Keys - stale;
    var h, x' := Fresh(x, stale), RunTxn(x, t);
    CanRunInPart(x, ids, x.db, t);
    hide Inv, Holds, RunTxn, CanRun, Grown;
    RunIsLocal(x, ids, x.db, t);
    RunKeeps(x.db, h, t);
    ForgetLog(x.db, RunTxn(h, t));
    assert RunTxn(h, t).(log := []) == Fresh(x', stale);
    RunGrows(x.db, h, t);
    RunGrowsAmongOthers(x, x', h, RunTxn(h, t), o);
  }

  lemma FreshDisturbsNoOne(x: State, stale: set<nat>, t: nat, u: nat)
    requires Inv(x.db, Fresh(x, stale)) && Exclusive(x) && CanRun(x, t) && t !in stale && u in stale && u in x.txns
    ensures Undisturbed(x.db, RunTxn(x, t).db, x.txns[u])
  {
    var ids := x.txns.Keys - stale;
    CanRunInPart(x, ids, x.db, t);
    RunIsLocal(x, ids, x.db, t);
    hide Inv, Holds, RunTxn, Undisturbed, CanRun;
    OthersHoldOthers(x, t, u);
    RunDisturbsNoOne(x.db, Fresh(x, stale), t, x.txns[u]);
  }

  lemma OthersStand(x: State, t: nat)
    requires t in x.txns
    ensures forall u | u in x.txns && u != t :: u in RunTxn(x, t).txns && RunTxn(x, t).txns[u] == x.txns[u]
  {
    hide Advance, AddOrder;
  }

  lemma FreshRuns(s: State, op: T.Op, x: State, t: nat, p: int)
    requires t in x.txns
    requires Slips(s, op) && Split(s, op, x) && Balanced(s, op, x, p)
    requires CanRun(x, t) && t !in StaleIds(s, op.order)
    ensures Split(s, op, RunTxn(x, t)) && Balanced(s, op, RunTxn(x, t), p)
  {
    hide Inv, T.Apply, Undisturbed, Kept, Undone, Exclusive, Stale, StaleIds, Consistent, CanRun, RunTxn, Balanced, Grown, Fresh;
    var x' := RunTxn(x, t);
    RunStaysExclusive(x, t);
    OthersStand(x, t);
    FreshHalfRuns(x, StaleIds(s, op.order), t, op.order);
    forall u | u in StaleIds(s, op.order) ensures Undisturbed(x.db, x'.db, x.txns[u]) {
      FreshDisturbsNoOne(x, StaleIds(s, op.order), t, u);
    }
    FreshMoved(s, op, x, x', p);
  }

  lemma OthersHoldOthers(x: State, t: nat, u: nat)
    requires Exclusive(x) && t in x.txns && u in x.txns && t != u
    ensures forall l | Holds(x.txns[t], l) :: !Holds(x.txns[u], l)
  {}

  /** A run step commits nothing, or one operation that is no edit. */
  lemma RunGrows(d0: Db, h: State, t: nat)
    requires Inv(d0, h) && CanRun(h, t) && h.log == []
    ensures var h' := RunTxn(h, t);
            || (h'.db == h.db && h'.log == [])
            || exists next :: !IsEdit(next) && h'.log == [next] && T.Apply(h.db, next) == Ok(h'.db)
  {
    var h' := RunTxn(h, t);
    hide Consistent, T.Apply, GetCheckoutItems, AddOrder, CanRun;
    assert Step(h, Run(t)) == h';
    G.OnlySuccessCommits(d0, h, t);
    if h'.log != h.log {
      var next :| G.CommitOf(h.txns[t].job, h'.txns[t].pc.answer, next)
                  && h'.log == h.log + [next] && T.Apply(h.db, next) == Ok(h'.db);
      assert !IsEdit(next) && h'.log == [next];
    }
  }

  lemma RunGrowsAmongOthers(x: State, x': State, h: State, h': State, o: int)
    requires h.db == x.db && h'.db == x'.db && x'.log == x.log + h'.log
    requires || (h'.db == h.db && h'.log == [])
             || exists next :: !IsEdit(next) && h'.log == [next] && T.Apply(h.db, next) == Ok(h'.db)
    ensures Grown(x, x', o)
  {
    hide T.Apply;
    if next :| !IsEdit(next) && h'.log == [next] && T.Apply(h.db, next) == Ok(h'.db) {
      assert !Edits(next, o) && x'.log == x.log + [next];
    }
  }

  lemma StatusesUndone(s: State, op: T.Op, d: Db)
    requires IsEdit(op) && op.order in s.db.orders
    ensures SameStatuses(d, Undone(s, op, d))
  {}

  /** A stale checkout takes the step among the others that it takes in its own half. */
  lemma StaleStep(s: State, op: T.Op, x: State, t: nat)
    requires IsEdit(op) && op.order in s.db.orders
    requires t in StaleIds(s, op.order) && t in x.txns && PastItemRead(x.txns[t], op.order)
    ensures t in Stale(s, op, x).txns
    ensures RunTxn(Stale(s, op, x), t).(log := []) == Stale(s, op, RunTxn(x, t))
  {
    var o := op.order;
    var g, x' := Stale(s, op, x), RunTxn(x, t);
    var g' := RunTxn(g, t);
    StatusesUndone(s, op, x.db);
    if x.txns[t].pc.Closing? {
      var writes := x.txns[t].pc.writes;
      assert WithWrites(Undone(s, op, x.db), o, writes) == Undone(s, op, WithWrites(x.db, o, writes));
    } else {
      AdvancesAlike(x.db, g.db, x.txns[t], o);
    }
    hide Undone, StaleIds, Advance;
    assert g'.txns == Stale(s, op, x').txns;
  }

  lemma StaleTables(s: State, op: T.Op, x: State, t: nat)
    requires IsEdit(op) && t in x.txns && PastItemRead(x.txns[t], op.order)
    ensures var x' := RunTxn(x, t);
            && x'.db.items == x.db.items && x'.db.products == x.db.products && x'.db.users == x.db.users
            && x'.nextOrder == x.nextOrder && x'.nextProduct == x.nextProduct
            && x'.db.orders.Keys == x.db.orders.Keys
            && (forall o | o in x.db.orders ::
                  x'.db.orders[o] == x.db.orders[o].(status := x'.db.orders[o].status))
            && (if x.txns[t].pc.Closing?
                then x'.db == WithWrites(x.db, op.order, x.txns[t].pc.writes) && x'.log == x.log + [T.Pay(op.order)]
                     && x'.txns[t].pc == Finished(Committed)
                else x'.db == x.db && x'.log == x.log && x'.txns[t].pc != Finished(Committed))
  {
    hide Advance;
    if !x.txns[t].pc.Closing? { NeverPaysByAdvancing(x.db, x.txns[t]); assert !Paid(RunTxn(x, t).txns[t], op.order); }
  }

  /** Only statuses and stock have changed, and the other half has found them in order. */
  lemma StillConsistent(s: State, op: T.Op, d: Db, d': Db)
    requires IsEdit(op) && op.order in s.db.orders && Consistent(d) && Consistent(Undone(s, op, d'))
    requires d'.items == d.items && d'.products == d.products && d'.users == d.users
    requires d'.orders.Keys == d.orders.Keys
    requires forall o | o in d.orders :: d'.orders[o] == d.orders[o].(status := d'.orders[o].status)
    ensures Consistent(d')
  {
    hide Owed;
    OwedDependsOnItems(d, d');
    ItemsStayValid(d, d');
    assert Undone(s, op, d').inventory == d'.inventory && Undone(s, op, d').products == d'.products;
  }

  lemma KeptStatuses(s: State, op: T.Op, d: Db, d': Db)
    requires Slips(s, op) && Kept(s, op, d)
    requires d'.items == d.items && d'.products == d.products && d'.orders.Keys == d.orders.Keys
    requires forall o | o in d.orders :: d'.orders[o] == d.orders[o].(status := d'.orders[o].status)
    ensures Kept(s, op, d')
  {
    hide Consistent, T.Apply, Basket;
  }

  /** The stale half has taken a step, and the fresh half stands by. */
  lemma StaleHalfRuns(s: State, op: T.Op, x: State, t: nat)
    requires Slips(s, op) && Split(s, op, x) && CanRun(x, t) && t in StaleIds(s, op.order)
    requires t in x.txns && PastItemRead(x.txns[t], op.order)
    ensures Split(s, op, RunTxn(x, t))
  {
    hide Inv, T.Apply, Undisturbed, Kept, Undone, Exclusive, StaleIds, Consistent, CanRun, RunTxn, Advance, Holds, T.Sequenced;
    var o, stale := op.order, StaleIds(s, op.order);
    var x' := RunTxn(x, t);
    KeptMeans(s, op, x.db);
    StaleStep(s, op, x, t);
    StaleTables(s, op, x, t);
    RunStaysExclusive(x, t);
    OthersStand(x, t);
    StaleInv(s, op, x, t);
    ConsistentHalf(Undone(s, op, x'.db), Stale(s, op, x'));
    ConsistentHalf(x.db, Fresh(x, stale));
    StillConsistent(s, op, x.db, x'.db);
    KeptStatuses(s, op, x.db, x'.db);
    SequencedStays(x.db, x'.db, x.nextOrder, x.nextProduct);
    forall u | u in Fresh(x, stale).txns ensures Undisturbed(x.db, x'.db, x.txns[u]) {
      StaleDisturbsNoOne(s, op, x, t, u);
    }
    SameTxns(x, x', t);
    assert Fresh(x', stale).txns == Fresh(x, stale).txns;
    HalfStands(Fresh(x, stale), Fresh(x', stale));
    StaleStaysStale(s, op, x, t);
  }

  lemma SameTxns(x: State, x': State, t: nat)
    requires t in x.txns && x' == RunTxn(x, t)
    ensures x'.txns.Keys == x.txns.Keys
  {
    hide Advance, AddOrder;
  }

  lemma StaleInv(s: State, op: T.Op, x: State, t: nat)
    requires Slips(s, op) && Split(s, op, x) && CanRun(x, t) && t in StaleIds(s, op.order)
    requires t in x.txns && PastItemRead(x.txns[t], op.order)
    ensures op.order in s.db.orders
    ensures Inv(Undone(s, op, RunTxn(x, t).db), Stale(s, op, RunTxn(x, t)))
  {
    var g := Stale(s, op, x);
    hide Inv, Kept, Undone, StaleIds, CanRun, RunTxn;
    KeptMeans(s, op, x.db);
    StaleStep(s, op, x, t);
    CanRunInPart(x, StaleIds(s, op.order), Undone(s, op, x.db), t);
    RunKeeps(g.db, g, t);
    ForgetLog(g.db, RunTxn(g, t));
  }

  lemma StaleDisturbsNoOne(s: State, op: T.Op, x: State, t: nat, u: nat)
    requires Slips(s, op) && Split(s, op, x) && CanRun(x, t) && t in StaleIds(s, op.order)
    requires t in x.txns && PastItemRead(x.txns[t], op.order) && u in x.txns && u !in StaleIds(s, op.order)
    ensures Undisturbed(x.db, RunTxn(x, t).db, x.txns[u])
  {
    var g := Stale(s, op, x);
    hide Inv, Kept, Undone, StaleIds, CanRun, RunTxn, Undisturbed, Holds;
    KeptMeans(s, op, x.db);
    StaleStep(s, op, x, t);
    StaleTables(s, op, x, t);
    CanRunInPart(x, StaleIds(s, op.order), Undone(s, op, x.db), t);
    OthersHoldOthers(x, t, u);
    RunDisturbsNoOne(g.db, g, t, x.txns[u]);
    DisturbanceDone(s, op, x.db, RunTxn(x, t).db, x.txns[u]);
  }

  lemma StaleStaysStale(s: State, op: T.Op, x: State, t: nat)
    requires IsEdit(op) && t in x.txns && PastItemRead(x.txns[t], op.order)
    ensures var txn := RunTxn(x, t).txns[t];
            txn.job == CheckoutJob(op.order) && (PastItemRead(txn, op.order) || txn.pc.Finished?)
  {
    hide Advance;
    if !x.txns[t].pc.Closing? { NextPc(x.db, x.txns[t], op.order); }
  }

  // ------------------------------------------------ the books

  /** What order and product would have been asked for, and are. */
  lemma QuantityUndone(s: State, op: T.Op, d: Db, p: int)
    requires Slips(s, op) && Kept(s, op, d)
    ensures T.Quantity(d, op.order, p) == T.Quantity(T.Apply(s.db, op).value, op.order, p)
    ensures T.Quantity(Undone(s, op, d), op.order, p) == T.Quantity(s.db, op.order, p)
    ensures forall o | o != op.order :: T.Quantity(Undone(s, op, d), o, p) == T.Quantity(d, o, p)
  {
    hide Consistent, T.Apply, Basket;
    EditMoves(s.db, op, p);
    SameItem(d, T.Apply(s.db, op).value, op.order, p);
  }

  lemma SoldUndone(s: State, op: T.Op, d: Db, p: int)
    requires Slips(s, op) && Kept(s, op, d) && d.orders[op.order].status == Started
    ensures H.Sold(Undone(s, op, d), p) == H.Sold(d, p)
  {
    hide Consistent, T.Apply, T.Quantity, H.Sold, Basket;
    QuantityUndone(s, op, d, p);
    H.SoldUnchanged(d, Undone(s, op, d), p);
  }

  lemma OnHandUndone(s: State, op: T.Op, d: Db, p: int)
    requires IsEdit(op) && op.order in s.db.orders
    ensures H.OnHand(Undone(s, op, d), p) == H.OnHand(d, p)
  {}

  /** The tables of a stale commit: stock loses what was asked for before the edit, and what is asked for now is sold. */
  lemma BooksShift(s: State, op: T.Op, d: Db, writes: map<int, int>, p: int)
    requires Slips(s, op) && Kept(s, op, d) && Consistent(Undone(s, op, d))
    requires T.Checkout(Undone(s, op, d), op.order) == Ok(WithWrites(Undone(s, op, d), op.order, writes))
    ensures var d' := WithWrites(d, op.order, writes);
            H.OnHand(d', p) + H.Sold(d', p)
            == H.OnHand(d, p) + H.Sold(d, p)
               + T.Quantity(T.Apply(s.db, op).value, op.order, p) - T.Quantity(s.db, op.order, p)
  {
    var o := op.order;
    var g, d' := Undone(s, op, d), WithWrites(d, o, writes);
    hide T.Apply, T.Quantity, H.Sold, H.OnHand, Consistent;
    StartedBefore(g, o);
    H.CheckoutConserves(g, o, p);
    SoldUndone(s, op, d, p);
    OnHandUndone(s, op, d, p);
    WritesUndone(s, op, d, writes);
    OnHandUndone(s, op, d', p);
    QuantityUndone(s, op, d, p);
    hide Undone, Kept, T.Checkout;
    H.SoldAfterClosing(g, WithWrites(g, o, writes), o, p);
    H.SoldAfterClosing(d, d', o, p);
  }

  lemma StartedBefore(d: Db, o: int)
    requires T.Checkout(d, o).Ok?
    ensures o in d.orders && d.orders[o].status == Started
  {}

  lemma StaleCommitShifts(s: State, op: T.Op, x: State, t: nat, p: int)
    requires IsEdit(op) && Slips(s, op) && Split(s, op, x) && t in StaleIds(s, op.order) && t in x.txns
    requires PastItemRead(x.txns[t], op.order) && x.txns[t].pc.Closing?
    ensures Balance(RunTxn(x, t), p)
         == Balance(x, p) + T.Quantity(T.Apply(s.db, op).value, op.order, p) - T.Quantity(s.db, op.order, p)
  {
    hide Inv, Kept, T.Apply, T.Quantity, H.Sold, H.OnHand, RunTxn, Consistent, T.Checkout, Split, StaleIds, Undone, Slips, WithWrites;
    StaleCloses(s, op, x, t);
    StaleTables(s, op, x, t);
    BooksShift(s, op, x.db, x.txns[t].pc.writes, p);
    PaidSuppliesNothing(x.log, op.order, p);
  }

  lemma PaidSuppliesNothing(log: seq<T.Op>, o: int, p: int)
    ensures H.Supplied(log + [T.Pay(o)], p) == H.Supplied(log, p)
  {
    assert (log + [T.Pay(o)])[..|log|] == log;
  }

  lemma StaleCloses(s: State, op: T.Op, x: State, t: nat)
    requires Slips(s, op) && Split(s, op, x) && t in StaleIds(s, op.order) && t in x.txns
    requires PastItemRead(x.txns[t], op.order) && x.txns[t].pc.Closing?
    ensures Kept(s, op, x.db) && op.order in s.db.orders && Consistent(Undone(s, op, x.db))
    ensures T.Checkout(Undone(s, op, x.db), op.order) == Ok(WithWrites(Undone(s, op, x.db), op.order, x.txns[t].pc.writes))
  {
    hide Kept, T.Apply, Undone, Consistent, GetCheckoutItems, T.Checkout;
    KeptMeans(s, op, x.db);
    var g := Stale(s, op, x);
    assert Fits(g.db, g.txns[t]);
    ClosingIsCheckout(g.db, op.order, x.txns[t].pc.rows, x.txns[t].pc.writes);
  }

  lemma WritesUndone(s: State, op: T.Op, d: Db, writes: map<int, int>)
    requires IsEdit(op) && op.order in s.db.orders
    ensures WithWrites(Undone(s, op, d), op.order, writes) == Undone(s, op, WithWrites(d, op.order, writes))
  {}

  lemma NoneBefore(s: State, op: T.Op, x: State, t: nat)
    requires Slips(s, op) && Split(s, op, x) && t in StaleIds(s, op.order) && t in x.txns
    requires PastItemRead(x.txns[t], op.order) && x.txns[t].pc.Closing?
    ensures !StaleCommit(s, x, op.order)
  {
    hide Consistent, GetCheckoutItems, Kept, T.Apply;
    KeptMeans(s, op, x.db);
    var g := Stale(s, op, x);
    assert Fits(g.db, g.txns[t]);
    forall u | u in StaleIds(s, op.order) ensures !G.Answered(x, u, Committed) {
      assert Fits(g.db, g.txns[u]);
    }
  }

  /** The books are as they were while no stale checkout commits. */
  lemma SameBooks(s: State, op: T.Op, x: State, x': State, p: int)
    requires Slips(s, op) && Balanced(s, op, x, p) && x'.db == x.db && x'.log == x.log
    requires forall t | t in StaleIds(s, op.order) :: G.Answered(x', t, Committed) <==> G.Answered(x, t, Committed)
    ensures Balanced(s, op, x', p)
  {
    hide T.Apply, T.Quantity, H.Sold, H.OnHand, Consistent, StaleIds;
  }

  lemma ShiftedBooks(s: State, op: T.Op, x: State, x': State, t: nat, p: int)
    requires Slips(s, op) && Balanced(s, op, x, p) && !StaleCommit(s, x, op.order)
    requires t in StaleIds(s, op.order) && G.Answered(x', t, Committed)
    requires Balance(x', p)
          == Balance(x, p) + T.Quantity(T.Apply(s.db, op).value, op.order, p) - T.Quantity(s.db, op.order, p)
    ensures Balanced(s, op, x', p)
  {
    hide T.Apply, T.Quantity, Balance, Consistent, StaleIds;
  }

  lemma StaleRuns(s: State, op: T.Op, x: State, t: nat, p: int)
    requires t in x.txns
    requires Slips(s, op) && Split(s, op, x) && Balanced(s, op, x, p)
    requires CanRun(x, t) && t in StaleIds(s, op.order)
    ensures Split(s, op, RunTxn(x, t)) && Balanced(s, op, RunTxn(x, t), p)
  {
    hide Slips, Split, Balanced, CanRun, RunTxn, StaleIds, Balance, T.Apply, T.Quantity, StaleCommit;
    StaleIsLive(s, op, x, t);
    var x' := RunTxn(x, t);
    StaleHalfRuns(s, op, x, t);
    StaleTables(s, op, x, t);
    OthersStand(x, t);
    if x.txns[t].pc.Closing? {
      NoneBefore(s, op, x, t);
      StaleCommitShifts(s, op, x, t, p);
      SameTxns(x, x', t);
      ShiftedBooks(s, op, x, x', t, p);
    } else {
      SameTxns(x, x', t);
      forall u | u in StaleIds(s, op.order) ensures G.Answered(x', u, Committed) <==> G.Answered(x, u, Committed) {}
      SameBooks(s, op, x, x', p);
    }
  }

  lemma StaleIsLive(s: State, op: T.Op, x: State, t: nat)
    requires Slips(s, op) && Split(s, op, x) && CanRun(x, t) && t in StaleIds(s, op.order)
    ensures IsEdit(op) && PastItemRead(x.txns[t], op.order)
  {
    hide Inv, Kept, T.Apply, Consistent, Stale, Fresh;
  }

  // ------------------------------------------------ every event

  lemma StaysExclusive(x: State, x': State, t: nat)
    requires Exclusive(x) && t in x'.txns && x'.txns == x.txns[t := x'.txns[t]]
    requires forall l :: !Holds(x'.txns[t], l)
    ensures Exclusive(x')
  {
    hide Holds;
  }

  lemma BeginsInFresh(x: State, stale: set<nat>, t: nat, job: Job)
    requires Inv(x.db, Fresh(x, stale)) && t !in x.txns && t !in stale
    ensures Inv(x.db, Fresh(x.(txns := x.txns[t := Txn(job, Begun)]), stale))
  {
    var x' := x.(txns := x.txns[t := Txn(job, Begun)]);
    hide Inv;
    BeginKeeps(x.db, Fresh(x, stale), t, job);
    assert Fresh(x, stale).(txns := Fresh(x, stale).txns[t := Txn(job, Begun)]) == Fresh(x', stale);
  }

  lemma BeginSplits(s: State, op: T.Op, x: State, t: nat, job: Job, p: int)
    requires Slips(s, op) && Split(s, op, x) && Balanced(s, op, x, p) && t !in x.txns
    ensures Split(s, op, x.(txns := x.txns[t := Txn(job, Begun)]))
    ensures Balanced(s, op, x.(txns := x.txns[t := Txn(job, Begun)]), p)
  {
    hide Inv, T.Apply, Undisturbed, Kept, Undone, Exclusive, StaleIds, Consistent, Stale, Fresh, Balanced, Balance;
    var stale := StaleIds(s, op.order);
    var x' := x.(txns := x.txns[t := Txn(job, Begun)]);
    assert t !in stale;
    StaysExclusive(x, x', t);
    BeginsInFresh(x, stale, t, job);
    forall u | u in stale ensures Undisturbed(x.db, x'.db, x.txns[u]) {
      SameTablesDisturbNoOne(x.db, x.txns[u]);
    }
    FreshMoved(s, op, x, x', p);
  }

  /** A lost connection ends a transaction in whichever half it is. */
  lemma FaultInPart(x: State, ids: set<nat>, d: Db, t: nat)
    requires Inv(d, Part(x, ids, d)) && Live(x, t)
    ensures var x' := Goto(x, t, Finished(Failed(ConnectionLost)));
            && Inv(d, Part(x', ids, d)) && x'.txns.Keys == x.txns.Keys
            && (t !in ids ==> Part(x', ids, d) == Part(x, ids, d))
  {
    hide Inv;
    var x' := Goto(x, t, Finished(Failed(ConnectionLost)));
    if t in ids {
      FaultKeeps(d, Part(x, ids, d), t);
      assert Goto(Part(x, ids, d), t, Finished(Failed(ConnectionLost))) == Part(x', ids, d);
    } else {
      assert Part(x', ids, d) == Part(x, ids, d);
    }
  }

  lemma FaultSplits(s: State, op: T.Op, x: State, t: nat, p: int)
    requires Slips(s, op) && Split(s, op, x) && Balanced(s, op, x, p) && Live(x, t)
    ensures var x' := Goto(x, t, Finished(Failed(ConnectionLost)));
            Split(s, op, x') && Balanced(s, op, x', p)
  {
    hide Inv, T.Apply, Undisturbed, Kept, Undone, Exclusive, StaleIds, Consistent, Balanced, Balance, Part;
    var stale := StaleIds(s, op.order);
    var x' := Goto(x, t, Finished(Failed(ConnectionLost)));
    KeptMeans(s, op, x.db);
    StaysExclusive(x, x', t);
    FaultInPart(x, x.txns.Keys - stale, x.db, t);
    FaultInPart(x, stale, Undone(s, op, x.db), t);
    NoAnswerYet(s, op, x, t);
    SameBooks(s, op, x, x', p);
  }

  lemma NoAnswerYet(s: State, op: T.Op, x: State, t: nat)
    requires IsEdit(op) && Live(x, t)
    ensures var x' := Goto(x, t, Finished(Failed(ConnectionLost)));
            forall u :: G.Answered(x', u, Committed) <==> G.Answered(x, u, Committed)
  {}

  /** An event that edits the order in question. */
  predicate EditsOrder(e: Event, o: int) {
    (e.AddItem? || e.EditItem?) && e.order == o
  }

  /** Another order's edit, or a new product. */
  lemma WholeSplits(s: State, op: T.Op, x: State, x': State, next: T.Op, p: int)
    requires Slips(s, op) && Split(s, op, x) && Balanced(s, op, x, p)
    requires next.Add? || next.Edit? || next.Stock?
    requires !Edits(next, op.order) && T.Apply(x.db, next).Ok?
    requires x'.db == T.Apply(x.db, next).value && x'.log == x.log + [next] && x'.txns == x.txns
    requires Inv(x'.db, Fresh(x', StaleIds(s, op.order)))
    ensures Split(s, op, x') && Balanced(s, op, x', p)
  {
    var stale := StaleIds(s, op.order);
    hide Inv, T.Apply, Undisturbed, Kept, Undone, Consistent, Stale, Fresh, Balanced, Holds;
    ConsistentHalf(x.db, Fresh(x, stale));
    assert Grown(x, x', op.order);
    forall u | u in stale ensures Undisturbed(x.db, x'.db, x.txns[u]) {
      WholeDisturbsNoOne(x.db, next, x.txns[u]);
    }
    hide StaleIds;
    FreshMoved(s, op, x, x', p);
  }

  lemma EditSplits(s: State, op: T.Op, x: State, next: T.Op, p: int)
    requires Slips(s, op) && Split(s, op, x) && Balanced(s, op, x, p)
    requires IsEdit(next) && next.order != op.order && EditMayRun(x, next.order)
    ensures Split(s, op, Whole(x, next)) && Balanced(s, op, Whole(x, next), p)
  {
    var stale := StaleIds(s, op.order);
    var h := Fresh(x, stale);
    hide Inv, T.Apply, Kept, Undone, Consistent, Stale, StaleIds, Balanced;
    if T.Apply(x.db, next).Ok? {
      WholeKeeps(x.db, h, next);
      ForgetLog(x.db, Whole(h, next));
      assert Whole(h, next).(log := []) == Fresh(Whole(x, next), stale);
      WholeSplits(s, op, x, Whole(x, next), next, p);
    }
  }

  lemma ProductInFresh(x: State, stale: set<nat>, price: int, stock: int)
    requires Inv(x.db, Fresh(x, stale))
    ensures var x' := Step(x, Event.AddProduct(price, stock));
            && Inv(x'.db, Fresh(x', stale)) && x'.txns == x.txns
            && var next := T.Stock(x.nextProduct, price, stock);
               if stock >= 0 && T.Apply(x.db, next).Ok?
               then x'.db == T.Apply(x.db, next).value && x'.log == x.log + [next]
               else x'.db == x.db && x'.log == x.log
  {
    hide Inv, T.Apply;
    var h, e := Fresh(x, stale), Event.AddProduct(price, stock);
    ProductKeeps(x.db, h, price, stock);
    ForgetLog(x.db, Step(h, e));
    assert Step(h, e).(log := []) == Fresh(Step(x, e), stale);
  }

  lemma ProductSplits(s: State, op: T.Op, x: State, price: int, stock: int, p: int)
    requires Slips(s, op) && Split(s, op, x) && Balanced(s, op, x, p)
    ensures Split(s, op, Step(x, Event.AddProduct(price, stock))) && Balanced(s, op, Step(x, Event.AddProduct(price, stock)), p)
  {
    hide Inv, T.Apply, Kept, Undone, Consistent, Stale, StaleIds, Balanced, Undisturbed, Fresh, Step, Exclusive, Balance;
    var stale := StaleIds(s, op.order);
    var x' := Step(x, Event.AddProduct(price, stock));
    var next := T.Stock(x.nextProduct, price, stock);
    ProductInFresh(x, stale, price, stock);
    if stock >= 0 && T.Apply(x.db, next).Ok? {
      WholeSplits(s, op, x, x', next, p);
    } else {
      SameExclusive(x, x');
      forall u | u in stale ensures Undisturbed(x.db, x'.db, x.txns[u]) {
        SameTablesDisturbNoOne(x.db, x.txns[u]);
      }
      FreshMoved(s, op, x, x', p);
    }
  }

  lemma SameExclusive(x: State, x': State)
    requires x'.txns == x.txns && Exclusive(x)
    ensures Exclusive(x')
  {}

  lemma RunSplits(s: State, op: T.Op, x: State, t: nat, p: int)
    requires IsEdit(op) && Slips(s, op) && Split(s, op, x) && Balanced(s, op, x, p)
    ensures Split(s, op, Step(x, Run(t))) && Balanced(s, op, Step(x, Run(t)), p)
  {
    hide Slips, Split, Balanced, RunTxn, StaleIds;
    if CanRun(x, t) {
      if t in StaleIds(s, op.order) { StaleRuns(s, op, x, t, p); } else { FreshRuns(s, op, x, t, p); }
    }
  }

  lemma OtherEditSplits(s: State, op: T.Op, x: State, next: T.Op, p: int)
    requires IsEdit(op) && Slips(s, op) && Split(s, op, x) && Balanced(s, op, x, p)
    requires IsEdit(next) && next.order != op.order
    ensures var x' := if EditMayRun(x, next.order) then Whole(x, next) else x;
            Split(s, op, x') && Balanced(s, op, x', p)
  {
    hide Slips, Split, Balanced, Whole, EditMayRun;
    if EditMayRun(x, next.order) { EditSplits(s, op, x, next, p); }
  }

  lemma StepSplits(s: State, op: T.Op, x: State, e: Event, p: int)
    requires IsEdit(op) && Slips(s, op) && Split(s, op, x) && Balanced(s, op, x, p) && !EditsOrder(e, op.order)
    ensures Split(s, op, Step(x, e)) && Balanced(s, op, Step(x, e), p)
  {
    hide Slips, Split, Balanced, RunTxn, Whole, EditMayRun, CanRun;
    match e
    case Begin(t, job) => if t !in x.txns { BeginSplits(s, op, x, t, job, p); }
    case Run(t) => RunSplits(s, op, x, t, p);
    case Fault(t) => if Live(x, t) { FaultSplits(s, op, x, t, p); }
    case AddProduct(price, stock) => ProductSplits(s, op, x, price, stock, p);
    case AddItem(o, r, q) => OtherEditSplits(s, op, x, T.Add(o, r, q), p);
    case EditItem(o, r, q) => OtherEditSplits(s, op, x, T.Edit(o, r, q), p);
  }

  lemma {:induction false} ExecSplits(s: State, op: T.Op, x: State, es: seq<Event>, p: int)
    requires IsEdit(op) && Slips(s, op) && Split(s, op, x) && Balanced(s, op, x, p)
    requires forall e | e in es :: !EditsOrder(e, op.order)
    ensures Split(s, op, Exec(x, es)) && Balanced(s, op, Exec(x, es), p)
  {
    hide Slips, Split, Balanced, Step;
    if es != [] {
      var front := es[..|es| - 1];
      assert forall e | e in front :: e in es;
      assert es[|es| - 1] in es;
      ExecSplits(s, op, x, front, p);
      StepSplits(s, op, Exec(x, front), es[|es| - 1], p);
    }
  }

  lemma BalancedAtFirst(d0: Db, s: State, op: T.Op, p: int)
    requires SlipsIn(d0, s, op)
    ensures Slips(s, op) && Balanced(s, op, Whole(s, op), p)
  {
    hide Consistent, T.Apply, T.Quantity, H.OnHand, H.Sold;
    H.ApplyConserves(s.db, op, p);
    var x := Whole(s, op);
    assert x.log[..|x.log| - 1] == s.log;
    assert !StaleCommit(s, x, op.order);
  }

  /**
   Let an edit of an order run while checkouts of it are between their item
   read and the order's row, and let anything at all follow but another edit of
   that order. Stock on hand and units sold then add up to what there was and
   what has come in, unless one of those very checkouts has committed and the
   edit changed the quantity of the product; then they are off by that change.
   */
  lemma BooksAreOffExactly(d0: Db, s: State, op: T.Op, es: seq<Event>, p: int)
    requires SlipsIn(d0, s, op)
    requires forall e | e in es :: !EditsOrder(e, op.order)
    ensures var end := Exec(Whole(s, op), es);
            && Balance(end, p) - Balance(s, p)
               == (if StaleCommit(s, end, op.order) && p == op.product then op.quantity - T.Quantity(s.db, op.order, p) else 0)
            && (Balance(end, p) == Balance(s, p) <==> !StaleCommit(s, end, op.order) || Idle(s.db, op, p))
  {
    hide Inv, Split, Exec, T.Apply, T.Quantity, StaleCommit, Whole, Balance;
    SplitBegins(d0, s, op);
    BalancedAtFirst(d0, s, op, p);
    ExecSplits(s, op, Whole(s, op), es, p);
    EditMoves(s.db, op, p);
  }

  lemma SameBalance(x: State, x': State, p: int)
    requires x'.db == x.db && x'.log == x.log
    ensures Balance(x', p) == Balance(x, p)
  {}
}
