/**
 Item edits that overlap a checkout of the same order, or each other. The code
 takes no lock where an edit reads the status, so these can happen; what they
 cost, and exactly when they cost nothing.
 */
module Overlaps {
  import opened Collections
  import opened Tables
  import opened Statements
  import T = Transactions
  import H = History
  import opened Interleaving
  import opened Serializability
  import G = Guarantees
  import R = Race

  predicate IsEdit(op: T.Op) { op.Add? || op.Edit? }

  /** The edit leaves the quantity of product `p` as it was. A caller can tell before making it. */
  predicate Idle(d: Db, op: T.Op, p: int)
    requires IsEdit(op)
  {
    p != op.product || (op.Edit? && op.quantity == T.Quantity(d, op.order, p))
  }

  // ------------------------------------------------ an edit during a checkout

  /** Transaction `t` goes on for `k` steps and nobody else does. */
  function Solo(t: nat, k: nat): seq<Event> {
    if k == 0 then [] else Solo(t, k - 1) + [Run(t)]
  }

  lemma OneMoreTurn(s: State, t: nat, k: nat)
    requires k > 0
    ensures Exec(s, Solo(t, k)) == Step(Exec(s, Solo(t, k - 1)), Run(t))
  {
    assert Solo(t, k)[..k - 1] == Solo(t, k - 1) by { SoloLength(t, k - 1); }
    SoloLength(t, k);
  }

  lemma {:induction false} SoloLength(t: nat, k: nat)
    ensures |Solo(t, k)| == k
  {
    if k > 0 { SoloLength(t, k - 1); }
  }

  /** What a checkout that has read its items still looks at is the same in both tables. */
  ghost predicate SameStatuses(d: Db, d': Db) {
    && d'.inventory == d.inventory
    && d'.orders.Keys == d.orders.Keys
    && forall o | o in d.orders :: d'.orders[o].status == d.orders[o].status
  }

  /** Two systems that differ in items and totals alone. */
  ghost predicate Alike(s: State, s': State) {
    s'.txns == s.txns && SameStatuses(s.db, s'.db)
  }

  lemma AdvancesAlike(d: Db, d': Db, txn: Txn, o: int)
    requires SameStatuses(d, d') && PastItemRead(txn, o)
    ensures Advance(d', txn) == Advance(d, txn)
  {}

  /** A step of a checkout that has read its items does the same to both. */
  lemma StepsAlike(s: State, s': State, t: nat, o: int)
    requires Alike(s, s') && t in s.txns
    requires PastItemRead(s.txns[t], o) || s.txns[t].pc.Finished?
    ensures Alike(Step(s, Run(t)), Step(s', Run(t)))
    ensures t in Step(s, Run(t)).txns
    ensures PastItemRead(Step(s, Run(t)).txns[t], o) || Step(s, Run(t)).txns[t].pc.Finished?
    ensures Step(s, Run(t)).db.items == s.db.items && Step(s', Run(t)).db.items == s'.db.items
  {
    hide Advance;
    assert CanRun(s', t) == CanRun(s, t);
    if CanRun(s, t) && !s.txns[t].pc.Finished? {
      if s.txns[t].pc.Closing? {
        assert SameStatuses(WithWrites(s.db, o, s.txns[t].pc.writes), WithWrites(s'.db, o, s.txns[t].pc.writes));
      } else {
        AdvancesAlike(s.db, s'.db, s.txns[t], o);
        NextPc(s.db, s.txns[t], o);
      }
    }
  }

  lemma NextPc(d: Db, txn: Txn, o: int)
    requires PastItemRead(txn, o) && !txn.pc.Closing?
    ensures PastItemRead(txn.(pc := Advance(d, txn)), o) || Advance(d, txn).Finished?
  {}

  lemma {:induction false} RunsAlike(s: State, s': State, t: nat, o: int, k: nat)
    requires Alike(s, s') && t in s.txns && PastItemRead(s.txns[t], o)
    ensures var (e, e') := (Exec(s, Solo(t, k)), Exec(s', Solo(t, k)));
            && Alike(e, e') && t in e.txns && (PastItemRead(e.txns[t], o) || e.txns[t].pc.Finished?)
            && e.db.items == s.db.items && e'.db.items == s'.db.items
  {
    hide Step, Alike, PastItemRead;
    if k > 0 {
      RunsAlike(s, s', t, o, k - 1);
      OneMoreTurn(s, t, k);
      OneMoreTurn(s', t, k);
      StepsAlike(Exec(s, Solo(t, k - 1)), Exec(s', Solo(t, k - 1)), t, o);
    }
  }

  /** By itself a checkout commits once, the whole of it, or leaves the tables alone. */
  lemma {:induction false} RunsAlone(d0: Db, s: State, t: nat, o: int, k: nat)
    requires Inv(d0, s) && t in s.txns && PastItemRead(s.txns[t], o)
    ensures var e := Exec(s, Solo(t, k));
            && Inv(d0, e) && t in e.txns && e.txns[t].job == CheckoutJob(o)
            && (if G.Answered(e, t, Committed) then T.Checkout(s.db, o) == Ok(e.db) else e.db == s.db)
            && (e.txns[t].pc.Finished? ==> e.txns[t].pc.answer == Committed || e.txns[t].pc.answer.Failed?)
            && !e.txns[t].pc.Conflicted?
  {
    hide Step, Inv, Fits, T.Checkout, RunTxn;
    if k > 0 {
      RunsAlone(d0, s, t, o, k - 1);
      OneMoreTurn(s, t, k);
      var e := Exec(s, Solo(t, k - 1));
      StepKeeps(d0, e, Run(t));
      CheckoutStep(d0, e, t, o);
    }
  }

  lemma CheckoutStep(d0: Db, s: State, t: nat, o: int)
    requires Inv(d0, s) && t in s.txns && s.txns[t].job == CheckoutJob(o) && !s.txns[t].pc.Conflicted?
    requires s.txns[t].pc.Finished? ==> s.txns[t].pc.answer == Committed || s.txns[t].pc.answer.Failed?
    ensures var s' := Step(s, Run(t));
            && t in s'.txns && s'.txns[t].job == CheckoutJob(o) && !s'.txns[t].pc.Conflicted?
            && (s'.txns[t].pc.Finished? ==> s'.txns[t].pc.answer == Committed || s'.txns[t].pc.answer.Failed?)
            && (G.Answered(s', t, Committed) && !G.Answered(s, t, Committed) ==> T.Checkout(s.db, o) == Ok(s'.db))
            && (!G.Answered(s', t, Committed) || G.Answered(s, t, Committed) ==> s'.db == s.db)
            && (G.Answered(s, t, Committed) ==> G.Answered(s', t, Committed))
  {
    hide Consistent, T.Checkout, GetCheckoutItems;
    G.OnlySuccessCommits(d0, s, t);
  }

  /** Which statuses, and which quantities but one order's, decide what has been sold. */
  lemma SoldAfterEdit(d: Db, d': Db, o: int, p: int)
    requires o in d.orders && d.orders[o].status == Pending && SameStatuses(d, d')
    requires forall x | x != o :: T.Quantity(d', x, p) == T.Quantity(d, x, p)
    ensures H.Sold(d', p) == H.Sold(d, p) + T.Quantity(d', o, p) - T.Quantity(d, o, p)
  {
    hide T.Quantity;
    var m := map x | x in d.orders && d.orders[x].status == Pending :: T.Quantity(d, x, p);
    var m' := map x | x in d'.orders && d'.orders[x].status == Pending :: T.Quantity(d', x, p);
    assert m' == m[o := T.Quantity(d', o, p)];
    SumUpdate(m, o, T.Quantity(d', o, p));
  }

  /** An edit moves items and totals alone, and of the quantities one. */
  lemma EditMoves(d: Db, op: T.Op, p: int)
    requires IsEdit(op) && T.Apply(d, op).Ok?
    ensures var d' := T.Apply(d, op).value;
            && SameStatuses(d, d')
            && (forall x | x != op.order :: T.Quantity(d', x, p) == T.Quantity(d, x, p))
            && (T.Quantity(d', op.order, p) == if p == op.product then op.quantity else T.Quantity(d, op.order, p))
            && (op.Add? ==> T.Quantity(d, op.order, op.product) == 0 < op.quantity)
  {
    hide Cost;
  }

  /** No transaction keeps the edit from its order's row, so it can run to its end. */
  predicate RowIsFree(s: State, o: int) {
    forall u | u in s.txns :: !Holds(s.txns[u], OrderRow(o))
  }

  /**
   Let an edit of the order run while a checkout of it has read the items and
   has not reached the order's row, where no lock stops it, and let the
   checkout then go on. It commits if and only if it would have without the
   edit. If it does, conservation is off by exactly what the edit changed the
   quantity by, so it survives if and only if the edit left the quantity as it was.
   */
  lemma EditDuringCheckout(d0: Db, s: State, t: nat, op: T.Op, p: int, k: nat)
    requires Inv(d0, s) && t in s.txns && s.txns[t].job.CheckoutJob?
    requires s.txns[t].pc.Locking? || s.txns[t].pc.Charging?
    requires IsEdit(op) && op.order == s.txns[t].job.order && T.Apply(s.db, op).Ok? && RowIsFree(s, op.order)
    ensures var end := Exec(Whole(s, op), Solo(t, k));
            && (G.Answered(end, t, Committed) <==> G.Answered(Exec(s, Solo(t, k)), t, Committed))
            && (G.Answered(end, t, Committed) ==>
                  (H.OnHand(end.db, p) + H.Sold(end.db, p) == H.OnHand(s.db, p) + H.Sold(s.db, p) <==> Idle(s.db, op, p)))
  {
    hide Inv, T.Apply, T.Checkout, T.Quantity, Exec, H.Sold;
    var o := op.order;
    var s' := Whole(s, op);
    EditMoves(s.db, op, p);
    RunsAlike(s, s', t, o, k);
    RunsAlone(d0, s, t, o, k);
    var e, e' := Exec(s, Solo(t, k)), Exec(s', Solo(t, k));
    if G.Answered(e, t, Committed) {
      Consistency(d0, s);
      H.CheckoutConserves(s.db, o, p);
      ClosedByCheckout(s.db, o);
      QuantitiesOfItems(s.db, e.db);
      QuantitiesOfItems(s'.db, e'.db);
      SoldAfterEdit(e.db, e'.db, o, p);
    }
  }

  lemma Consistency(d0: Db, s: State)
    requires Inv(d0, s)
    ensures Consistent(s.db)
  {}

  lemma ClosedByCheckout(d: Db, o: int)
    requires T.Checkout(d, o).Ok?
    ensures o in d.orders && T.Checkout(d, o).value.orders.Keys == d.orders.Keys
    ensures T.Checkout(d, o).value.orders[o].status == Pending
  {}

  lemma QuantitiesOfItems(d: Db, d': Db)
    requires d'.items == d.items
    ensures forall o, p :: T.Quantity(d', o, p) == T.Quantity(d, o, p)
  {}

  // ------------------------------------------------ an edit that a checkout overtakes

  /** The edit's own statement for its item. */
  function ItemWritten(d: Db, op: T.Op): Result<Db>
    requires IsEdit(op)
  {
    if op.Add? then AddProductOrderItem(d, op.product, op.order, op.quantity)
    else if op.quantity == 0 then RemoveProductQuantityOrderItem(d, op.product, op.order)
    else EditProductQuantityOrderItem(d, op.quantity, op.product, op.order)
  }

  predicate InvalidQuantity(op: T.Op)
    requires IsEdit(op)
  {
    op.quantity < 0 || (op.Add? && op.quantity == 0)
  }

  /** An edit that reads the status in the tables `seen` and runs its other statements on `d`. */
  function EditSeeing(seen: Db, d: Db, op: T.Op): Result<Db>
    requires IsEdit(op)
  {
    if InvalidQuantity(op) then Err(InvalidItemQuantity)
    else if GetOrderStatus(seen, op.order).Err? then Err(GetOrderStatus(seen, op.order).error)
    else if GetOrderStatus(seen, op.order).value != Started then Err(CannotEdit)
    else if ItemWritten(d, op).Err? then ItemWritten(d, op)
    else UpdateOrderTotal(ItemWritten(d, op).value, op.order)
  }

  /** With nothing in between these are the edit that the service makes. */
  lemma SeeingTheSame(d: Db, op: T.Op)
    requires Consistent(d) && IsEdit(op)
    ensures EditSeeing(d, d, op) == T.Apply(d, op)
  {
    hide UpdateOrderTotal, Totalled, Cost;
    assert Int4(op.quantity);
    if op.Add? {
      if T.Apply(d, op).Ok? || T.Apply(d, op) == Err(OutOfRange) {
        T.PutIsWriteThenTotal(d, op.order, op.product, Item(op.quantity, d.products[op.product]));
      }
    } else if op.quantity == 0 {
      if T.Apply(d, op).Ok? { T.RemoveIsDeleteThenTotal(d, op.order, op.product); }
    } else if op.quantity > 0 && (op.order, op.product) in d.items {
      assert ItemValid(d, op.order, op.product);
      T.PutIsWriteThenTotal(d, op.order, op.product, d.items[(op.order, op.product)].(quantity := op.quantity));
    }
  }

  /** What a checkout of the whole order leaves, and then an edit that had read the status before it. */
  function Overtaken(d: Db, op: T.Op): Db
    requires IsEdit(op) && T.Checkout(d, op.order).Ok?
  {
    var paid := T.Checkout(d, op.order).value;
    var r := EditSeeing(d, paid, op);
    if r.Ok? then r.value else paid
  }

  /**
   The edit reads `started`, a checkout of the order runs from beginning to end,
   and the edit goes on. The closed order changes exactly when the edit would
   have succeeded before the checkout, and asks for another quantity than was there.
   */
  lemma LateEditsThaw(d: Db, op: T.Op)
    requires Consistent(d) && IsEdit(op) && T.Checkout(d, op.order).Ok?
    ensures H.SameOrder(T.Checkout(d, op.order).value, Overtaken(d, op), op.order) <==>
              T.Apply(d, op).Err? || Idle(d, op, op.product)
  {
    hide Consistent, T.Checkout, EditSeeing, T.Apply, Idle;
    LateEditSucceeds(d, op);
    ChargeKeepsItems(d, op.order);
    if EditSeeing(d, T.Checkout(d, op.order).value, op).Ok? {
      LateEditThaws(d, op);
    }
  }

  /** The checkout does not keep a late edit from succeeding, or make it. */
  lemma LateEditSucceeds(d: Db, op: T.Op)
    requires Consistent(d) && IsEdit(op) && T.Checkout(d, op.order).Ok?
    ensures EditSeeing(d, T.Checkout(d, op.order).value, op).Ok? <==> T.Apply(d, op).Ok?
  {
    hide Consistent, T.Checkout, T.Apply, Cost, Owed;
    SeeingTheSame(d, op);
    var paid := T.Checkout(d, op.order).value;
    ChargeKeepsItems(d, op.order);
    if ItemWritten(d, op).Ok? {
      SameSuccess(ItemWritten(d, op).value, ItemWritten(paid, op).value, op.order);
    }
  }

  lemma SameSuccess(d: Db, d': Db, o: int)
    requires d'.items == d.items && (o in d.orders <==> o in d'.orders)
    ensures UpdateOrderTotal(d, o).Ok? <==> UpdateOrderTotal(d', o).Ok?
  {}

  /** The late edit that succeeds. */
  lemma LateEditThaws(d: Db, op: T.Op)
    requires Consistent(d) && IsEdit(op) && T.Checkout(d, op.order).Ok?
    requires EditSeeing(d, T.Checkout(d, op.order).value, op).Ok?
    ensures var paid := T.Checkout(d, op.order).value;
            H.SameOrder(paid, EditSeeing(d, paid, op).value, op.order) <==> Idle(d, op, op.product)
  {
    hide Consistent, T.Checkout, T.Quantity, UpdateOrderTotal, ItemWritten;
    var o, p := op.order, op.product;
    var paid := T.Checkout(d, o).value;
    T.CheckoutKeepsConsistent(d, o);
    ChargeKeepsItems(d, o);
    QuantitiesOfItems(d, paid);
    if Idle(d, op, p) {
      IdleWrite(paid, op);
      TotalIsOwed(paid, o);
      Retotalled(paid, o);
    } else {
      BusyWrite(paid, op);
      TotalKeepsItems(ItemWritten(paid, op).value, o);
    }
  }

  lemma ChargeKeepsItems(d: Db, o: int)
    requires T.Checkout(d, o).Ok?
    ensures T.Checkout(d, o).value.items == d.items && T.Checkout(d, o).value.products == d.products
    ensures T.Checkout(d, o).value.orders.Keys == d.orders.Keys && o in d.orders
  {}

  lemma IdleWrite(d: Db, op: T.Op)
    requires op.Edit? && op.quantity == T.Quantity(d, op.order, op.product) && ItemWritten(d, op).Ok?
    requires Consistent(d)
    ensures ItemWritten(d, op).value == d
  {
    assert ItemValid(d, op.order, op.product);
  }

  lemma BusyWrite(d: Db, op: T.Op)
    requires IsEdit(op) && ItemWritten(d, op).Ok? && !Idle(d, op, op.product)
    ensures Basket(ItemWritten(d, op).value.items, op.order) != Basket(d.items, op.order)
  {
    var w := ItemWritten(d, op).value;
    var b, b' := Basket(d.items, op.order), Basket(w.items, op.order);
    assert op.product in b <==> (op.order, op.product) in d.items;
    assert op.product in b' <==> (op.order, op.product) in w.items;
  }

  lemma Retotalled(d: Db, o: int)
    requires o in d.orders && d.orders[o].total == Owed(d, o) && UpdateOrderTotal(d, o).Ok?
    ensures UpdateOrderTotal(d, o).value.orders == d.orders && UpdateOrderTotal(d, o).value.items == d.items
  {}

  lemma TotalKeepsItems(d: Db, o: int)
    requires UpdateOrderTotal(d, o).Ok?
    ensures UpdateOrderTotal(d, o).value.items == d.items
  {}

  lemma TotalIsOwed(d: Db, o: int)
    requires Consistent(d) && o in d.orders
    ensures d.orders[o].total == Owed(d, o)
  {}

  // ------------------------------------------------ two edits at once

  /** What one edit leaves when it runs by itself. */
  function Alone(d: Db, op: T.Op): Db
    requires IsEdit(op)
  {
    if EditSeeing(d, d, op).Ok? then EditSeeing(d, d, op).value else d
  }

  /** The items with one of them put, or taken away. */
  function Written(items: map<(int, int), Item>, k: (int, int), i: Option<Item>): map<(int, int), Item> {
    if i.Some? then items[k := i.value] else items - {k}
  }

  /** What an edit's statement makes of its item. */
  function NewItem(d: Db, op: T.Op): Option<Item>
    requires IsEdit(op) && ItemWritten(d, op).Ok?
  {
    if op.Add? then Some(Item(op.quantity, d.products[op.product]))
    else if op.quantity == 0 then None
    else Some(d.items[(op.order, op.product)].(quantity := op.quantity))
  }

  lemma WriteIs(d: Db, op: T.Op)
    requires IsEdit(op) && ItemWritten(d, op).Ok?
    ensures ItemWritten(d, op).value == d.(items := Written(d.items, (op.order, op.product), NewItem(d, op)))
  {}

  lemma WrittenCommutes(items: map<(int, int), Item>, k: (int, int), l: (int, int), i: Option<Item>, j: Option<Item>)
    requires k != l
    ensures Written(Written(items, k, i), l, j) == Written(Written(items, l, j), k, i)
  {}

  lemma StillWritten(d: Db, first: T.Op, second: T.Op)
    requires IsEdit(first) && IsEdit(second) && first.product != second.product
    requires ItemWritten(d, first).Ok? && ItemWritten(d, second).Ok?
    ensures var w := ItemWritten(d, first).value;
            ItemWritten(w, second).Ok? && NewItem(w, second) == NewItem(d, second)
  {}

  lemma WritesCommute(d: Db, first: T.Op, second: T.Op)
    requires IsEdit(first) && IsEdit(second) && first.product != second.product
    requires ItemWritten(d, first).Ok? && ItemWritten(d, second).Ok?
    ensures var w1, w2 := ItemWritten(d, first).value, ItemWritten(d, second).value;
            && ItemWritten(w1, second).Ok? && ItemWritten(w2, first).Ok?
            && ItemWritten(w1, second) == ItemWritten(w2, first)
  {
    StillWritten(d, first, second);
    StillWritten(d, second, first);
    WriteIs(d, first);
    WriteIs(d, second);
    WriteIs(ItemWritten(d, first).value, second);
    WriteIs(ItemWritten(d, second).value, first);
    hide ItemWritten, Written, NewItem;
    WrittenCommutes(d.items, (first.order, first.product), (second.order, second.product), NewItem(d, first), NewItem(d, second));
  }

  /**
   Two edits of different products of one order. Both have written their items
   when the first adds up the total, and the second begins to before the first
   commits: it waits for the order's row, and then sums what was committed
   when it began, and its own item. Each that fails is rolled back.
   */
  function Crossed(d: Db, first: T.Op, second: T.Op): Db
    requires IsEdit(first) && IsEdit(second) && first.product != second.product
  {
    if EditSeeing(d, d, first).Err? then Alone(d, second)
    else if EditSeeing(d, d, second).Err? then Alone(d, first)
    else
      WritesCommute(d, first, second);
      var both := ItemWritten(ItemWritten(d, first).value, second).value;
      both.(orders := UpdateOrderTotal(ItemWritten(d, second).value, second.order).value.orders)
  }

  /** The same two edits when the second begins to add up after the first has committed, or has been rolled back. */
  function InTurn(d: Db, first: T.Op, second: T.Op): Db
    requires IsEdit(first) && IsEdit(second) && first.product != second.product
  {
    if EditSeeing(d, d, first).Err? then Alone(d, second)
    else if GetOrderStatus(d, second.order).Err? || GetOrderStatus(d, second.order).value != Started
            || ItemWritten(d, second).Err? || InvalidQuantity(second) then Alone(d, first)
    else
      WritesCommute(d, first, second);
      var both := ItemWritten(Alone(d, first), second);
      if both.Err? || UpdateOrderTotal(both.value, second.order).Err? then Alone(d, first)
      else UpdateOrderTotal(both.value, second.order).value
  }

  /** What an order owes after a statement for one of its items, all items at their products' prices. */
  lemma PricedWrite(d: Db, op: T.Op)
    requires Priced(d) && IsEdit(op) && ItemWritten(d, op).Ok?
    ensures op.product in d.products && Priced(ItemWritten(d, op).value)
    ensures ItemWritten(d, op).value == d.(items := ItemWritten(d, op).value.items)
    ensures Owed(ItemWritten(d, op).value, op.order)
         == Owed(d, op.order) + op.quantity * d.products[op.product]
            - T.Quantity(d, op.order, op.product) * d.products[op.product]
  {
    var o, p := op.order, op.product;
    var w := ItemWritten(d, op).value;
    hide Owed;
    if op.Add? || op.quantity != 0 {
      var i := if op.Add? then Item(op.quantity, d.products[p]) else d.items[(o, p)].(quantity := op.quantity);
      assert w == d.(items := d.items[(o, p) := i]);
      PricedPut(d, o, p, i);
    } else {
      assert w == d.(items := d.items - {(o, p)});
      OwedAfterDelete(d, w, o, p);
    }
  }

  lemma PricedPut(d: Db, o: int, p: int, i: Item)
    requires Priced(d) && p in d.products && i.unitPrice == d.products[p]
    ensures var w := d.(items := d.items[(o, p) := i]);
            && Priced(w)
            && Owed(w, o) == Owed(d, o) + i.quantity * d.products[p] - T.Quantity(d, o, p) * d.products[p]
  {
    hide Owed;
    OwedAfterPut(d, d.(items := d.items[(o, p) := i]), o, p, i);
  }

  lemma AloneIsRight(d: Db, op: T.Op)
    requires Consistent(d) && IsEdit(op)
    ensures Consistent(Alone(d, op))
  {
    hide EditSeeing, Consistent, T.Apply;
    SeeingTheSame(d, op);
    if T.Apply(d, op).Ok? {
      T.ApplyKeepsConsistent(d, op);
    }
  }

  /**
   After crossed edits the order's total is what its items cost, unless both
   edits succeed and the first changes what its item costs.
   */
  lemma CrossedEditsLoseOne(d: Db, first: T.Op, second: T.Op)
    requires Consistent(d) && IsEdit(first) && IsEdit(second)
    requires first.order == second.order && first.product != second.product && first.order in d.orders
    ensures var o := first.order; var d' := Crossed(d, first, second);
            o in d'.orders
            && (d'.orders[o].total == Owed(d', o) <==>
                  || T.Apply(d, first).Err? || T.Apply(d, second).Err?
                  || first.product !in d.products || d.products[first.product] == 0
                  || first.quantity == T.Quantity(d, o, first.product))
  {
    hide Owed, UpdateOrderTotal, Consistent, ItemWritten, EditSeeing, T.Apply;
    SeeingTheSame(d, first);
    SeeingTheSame(d, second);
    EditKeepsOrder(d, first);
    EditKeepsOrder(d, second);
    if T.Apply(d, first).Ok? && T.Apply(d, second).Ok? {
      CrossedTotal(d, first, second);
    } else {
      AloneIsRight(d, first);
      AloneIsRight(d, second);
      TotalIsOwed(Crossed(d, first, second), first.order);
    }
  }

  lemma EditKeepsOrder(d: Db, op: T.Op)
    requires IsEdit(op) && op.order in d.orders
    ensures op.order in Alone(d, op).orders
  {}

  lemma EditStatements(d: Db, op: T.Op)
    requires IsEdit(op) && EditSeeing(d, d, op).Ok?
    ensures ItemWritten(d, op).Ok? && op.order in d.orders
    ensures UpdateOrderTotal(ItemWritten(d, op).value, op.order) == EditSeeing(d, d, op)
  {}

  lemma CrossedTotal(d: Db, first: T.Op, second: T.Op)
    requires Consistent(d) && IsEdit(first) && IsEdit(second)
    requires first.order == second.order && first.product != second.product
    requires EditSeeing(d, d, first).Ok? && EditSeeing(d, d, second).Ok?
    ensures first.product in d.products
    ensures var o := first.order; var d' := Crossed(d, first, second);
            o in d'.orders
            && (d'.orders[o].total == Owed(d', o) <==>
                  d.products[first.product] == 0 || first.quantity == T.Quantity(d, o, first.product))
  {
    hide Owed, UpdateOrderTotal, Consistent, ItemWritten, EditSeeing;
    PricesHold(d);
    var o := first.order;
    EditStatements(d, first);
    EditStatements(d, second);
    WritesCommute(d, first, second);
    var w2 := ItemWritten(d, second).value;
    PricedWrite(d, first);
    PricedWrite(d, second);
    PricedWrite(w2, first);
    OtherQuantity(d, first, second);
    OwedDependsOnItems(ItemWritten(w2, first).value, Crossed(d, first, second));
    TotalOf(w2, o);
    Product(first.quantity, T.Quantity(d, o, first.product), d.products[first.product]);
  }

  lemma OtherQuantity(d: Db, first: T.Op, second: T.Op)
    requires IsEdit(second) && IsEdit(first) && first.product != second.product && ItemWritten(d, second).Ok?
    ensures T.Quantity(ItemWritten(d, second).value, first.order, first.product) == T.Quantity(d, first.order, first.product)
  {}

  /** Sums taken in turn are right, whatever the edits. */
  lemma TotalsInTurnAreRight(d: Db, first: T.Op, second: T.Op)
    requires Consistent(d) && IsEdit(first) && IsEdit(second)
    requires first.order == second.order && first.product != second.product && first.order in d.orders
    ensures var o := first.order; var d' := InTurn(d, first, second);
            o in d'.orders && d'.orders[o].total == Owed(d', o)
  {
    hide Owed, UpdateOrderTotal, Consistent, ItemWritten, EditSeeing;
    var o := first.order;
    var d' := InTurn(d, first, second);
    AloneIsRight(d, first);
    AloneIsRight(d, second);
    EditKeepsOrder(d, first);
    EditKeepsOrder(d, second);
    if d' == Alone(d, first) || d' == Alone(d, second) {
      TotalIsOwed(d', o);
    } else {
      var both := ItemWritten(Alone(d, first), second).value;
      WriteKeepsOrders(Alone(d, first), second);
      TotalOf(both, o);
    }
  }

  lemma WriteKeepsOrders(d: Db, op: T.Op)
    requires IsEdit(op) && ItemWritten(d, op).Ok?
    ensures ItemWritten(d, op).value.orders == d.orders
  {}

  lemma PricesHold(d: Db)
    requires Consistent(d)
    ensures Priced(d)
  {}

  lemma TotalOf(d: Db, o: int)
    requires o in d.orders && UpdateOrderTotal(d, o).Ok?
    ensures var d' := UpdateOrderTotal(d, o).value;
            o in d'.orders && d'.orders[o].total == Owed(d, o) == Owed(d', o)
  {}

  lemma Product(x: int, y: int, price: int)
    ensures x * price == y * price <==> x == y || price == 0
  {
    if x * price == y * price {
      assert (x - y) * price == 0;
    }
  }

  // ------------------------------------------------ one order for which all three go wrong

  /** Order 1 asks for one unit of product 7, of which there are ten. */
  function Books(): Db {
    Db({1}, map[7 := 100, 8 := 100], map[7 := 10, 8 := 10],
       map[1 := Order(1, "k", Started, 100)], map[(1, 7) := Item(1, 100)])
  }

  /** One more of product 7. */
  function OneMore(): T.Op { T.Edit(1, 7, 2) }

  lemma BooksOwe()
    ensures forall o | o in Books().orders :: Books().orders[o].total == Owed(Books(), o)
  {
    var d := Books();
    var bare := d.(items := map[]);
    assert d.items == bare.items[(1, 7) := Item(1, 100)];
    NothingOwedWithoutItems(bare, 1);
    OwedAfterPut(bare, d, 1, 7, Item(1, 100));
  }

  lemma BooksKeepConstraints()
    ensures ConstraintsHold(Books()) && Priced(Books())
  {
    var d := Books();
    assert forall o, p | (o, p) in d.items :: (o, p) == (1, 7);
    forall o, p | (o, p) in d.items ensures ItemValid(d, o, p) {
      assert o == 1 && p == 7;
    }
  }

  lemma BooksBalance()
    ensures Consistent(Books()) && T.Sequenced(Books(), 2, 9)
    ensures T.Quantity(Books(), 1, 7) == 1
  {
    hide Owed, ConstraintsHold, Priced;
    BooksOwe();
    BooksKeepConstraints();
  }

  lemma OneMoreApplies()
    ensures T.Apply(Books(), OneMore()).Ok?
  {}

  function At(pc: Pc): State {
    State(Books(), map[0 := Txn(CheckoutJob(1), pc)], [], 2, 9)
  }

  lemma RunsFrom(pc: Pc)
    requires !pc.Finished? && !pc.Closing?
    ensures Step(At(pc), Run(0)) == At(Advance(Books(), Txn(CheckoutJob(1), pc)))
  {
    hide Advance;
    assert CanRun(At(pc), 0);
    assert At(pc).txns[0 := Txn(CheckoutJob(1), Advance(Books(), Txn(CheckoutJob(1), pc)))]
        == At(Advance(Books(), Txn(CheckoutJob(1), pc))).txns;
  }

  lemma BooksRow()
    ensures GetCheckoutItems(Books(), 1) == [Row(7, 10, 1)]
  {
    BooksBalance();
    assert forall p :: p in Basket(Books().items, 1) <==> p == 7;
    assert Basket(Books().items, 1).Keys == {7};
    R.OneRow(Books(), 1, 7, 1);
  }

  lemma ThreeSteps()
    ensures Exec(At(Begun), Solo(0, 3)) == At(Locking([Row(7, 10, 1)], [Row(7, 10, 1)]))
  {
    hide GetCheckoutItems, Step, Exec, CanRun;
    var rows := [Row(7, 10, 1)];
    BooksRow();
    RunsFrom(Begun);
    RunsFrom(StatusRead);
    RunsFrom(Locking(rows, []));
    assert Advance(Books(), Txn(CheckoutJob(1), Locking(rows, []))) == Locking(rows, rows);
    FirstTurn(At(Begun), 0);
    OneMoreTurn(At(Begun), 0, 2);
    OneMoreTurn(At(Begun), 0, 3);
  }

  lemma FiveSteps()
    ensures Exec(At(Begun), Solo(0, 5)) == At(Charging([Row(7, 10, 1)], 1, map[7 := 9]))
  {
    hide GetCheckoutItems, Step, Exec, CanRun;
    var rows := [Row(7, 10, 1)];
    ThreeSteps();
    RunsFrom(Locking(rows, rows));
    RunsFrom(Charging(rows, 0, map[]));
    assert Advance(Books(), Txn(CheckoutJob(1), Locking(rows, rows))) == Charging(rows, 0, map[]);
    ChargesSeven();
    OneMoreTurn(At(Begun), 0, 4);
    OneMoreTurn(At(Begun), 0, 5);
  }

  lemma FirstTurn(s: State, t: nat)
    ensures Exec(s, Solo(t, 1)) == Step(s, Run(t))
  {
    OneMoreTurn(s, t, 1);
    assert Solo(t, 0) == [];
  }

  lemma ChargesSeven()
    ensures Advance(Books(), Txn(CheckoutJob(1), Charging([Row(7, 10, 1)], 0, map[])))
         == Charging([Row(7, 10, 1)], 1, map[7 := 9])
  {
    assert Books().inventory + map[] == Books().inventory;
  }

  lemma CommitsFrom(writes: map<int, int>)
    ensures G.Answered(Step(At(Closing([Row(7, 10, 1)], writes)), Run(0)), 0, Committed)
  {
    assert CanRun(At(Closing([Row(7, 10, 1)], writes)), 0);
  }

  lemma TwoMoreSteps()
    ensures G.Answered(Exec(At(Charging([Row(7, 10, 1)], 1, map[7 := 9])), Solo(0, 2)), 0, Committed)
  {
    hide Step, Exec, CanRun;
    var charged := Charging([Row(7, 10, 1)], 1, map[7 := 9]);
    RunsFrom(charged);
    CommitsFrom(map[7 := 9]);
    FirstTurn(At(charged), 0);
    OneMoreTurn(At(charged), 0, 2);
  }

  /**
   A run in which the books are off: one more unit is asked for after the
   checkout has taken the one from stock and before it closes the order. It
   commits, with one unit charged to nobody's stock.
   */
  lemma BooksCanBeOff()
    ensures var s0 := State(Books(), map[], [], 2, 9);
            var s := Exec(Step(s0, Begin(0, CheckoutJob(1))), Solo(0, 5));
            var end := Exec(Whole(s, OneMore()), Solo(0, 2));
            && Initial(s0) && RowIsFree(s, 1) && T.Apply(s.db, OneMore()).Ok?
            && G.Answered(end, 0, Committed)
            && H.OnHand(end.db, 7) + H.Sold(end.db, 7) != H.OnHand(s0.db, 7) + H.Sold(s0.db, 7)
  {
    hide Inv, Step, Exec, Consistent, Books, H.Sold, H.OnHand, T.Apply;
    var s0 := State(Books(), map[], [], 2, 9);
    BooksBalance();
    OneMoreApplies();
    BeginsBooks();
    FiveSteps();
    TwoMoreSteps();
    InitialInv(s0);
    StepKeeps(s0.db, s0, Begin(0, CheckoutJob(1)));
    ExecKeeps(s0.db, At(Begun), Solo(0, 5));
    EditDuringCheckout(s0.db, At(Charging([Row(7, 10, 1)], 1, map[7 := 9])), 0, OneMore(), 7, 2);
  }

  lemma BeginsBooks()
    ensures Step(State(Books(), map[], [], 2, 9), Begin(0, CheckoutJob(1))) == At(Begun)
  {}

  lemma ChecksOut()
    ensures T.Checkout(Books(), 1).Ok?
    ensures var d := T.Checkout(Books(), 1).value;
            d.orders == map[1 := Order(1, "k", Pending, 100)] && d.items == Books().items && d.products == Books().products
  {
    assert 7 in Basket(Books().items, 1);
    assert T.Shortage(Books(), 1) == {};
  }

  /** A closed order that changes: the same edit, begun before the checkout and finished after it. */
  lemma ClosedOrdersCanChange()
    ensures var paid := T.Checkout(Books(), 1);
            && paid.Ok? && EditSeeing(Books(), paid.value, OneMore()).Ok?
            && paid.value.orders[1].status == Pending
            && !H.SameOrder(paid.value, EditSeeing(Books(), paid.value, OneMore()).value, 1)
  {
    hide Consistent, T.Checkout, UpdateOrderTotal;
    BooksBalance();
    ChecksOut();
    var paid := T.Checkout(Books(), 1).value;
    T.CheckoutKeepsConsistent(Books(), 1);
    T.PutIsWriteThenTotal(paid, 1, 7, Item(2, 100));
    LateEditThaws(Books(), OneMore());
  }

  /** A total that is wrong: the same edit, crossed with one that adds another product. */
  lemma TotalsCanBeWrong()
    ensures var other := T.Add(1, 8, 1);
            var crossed := Crossed(Books(), OneMore(), other);
            1 in crossed.orders && crossed.orders[1].total != Owed(crossed, 1)
  {
    hide Consistent, UpdateOrderTotal, Owed, Crossed;
    BooksBalance();
    CrossedEditsLoseOne(Books(), OneMore(), T.Add(1, 8, 1));
  }
}
