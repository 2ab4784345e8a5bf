/** What holds after any sequence of committed operations, run one at a time. */
module History {
  import opened Collections
  import opened Tables
  import opened Statements
  import opened Transactions

  lemma {:induction false} ReplayKeepsConsistent(d: Db, ops: seq<Op>)
    requires Consistent(d) && Replay(d, ops).Ok?
    ensures Consistent(Replay(d, ops).value)
  {
    if ops != [] {
      var front := ops[..|ops| - 1];
      ReplayKeepsConsistent(d, front);
      ApplyKeepsConsistent(Replay(d, front).value, ops[|ops| - 1]);
    }
  }

  /** The order is there in both, with the same record and the same items. */
  ghost predicate SameOrder(d: Db, d': Db, o: int) {
    && o in d.orders && o in d'.orders
    && d'.orders[o] == d.orders[o]
    && Basket(d'.items, o) == Basket(d.items, o)
  }

  lemma ApplyFreezes(d: Db, op: Op, o: int)
    requires Apply(d, op).Ok? && o in d.orders && d.orders[o].status != Started
    ensures SameOrder(d, Apply(d, op).value, o)
  {
    match op
    case Add(x, p, q) => BasketAfterPut(d.items, x, p, Item(q, d.products[p]));
    case Edit(x, p, q) =>
      if q == 0 {
        BasketAfterDelete(d.items, x, p);
      } else {
        BasketAfterPut(d.items, x, p, d.items[(x, p)].(quantity := q));
      }
    case _ =>
  }

  /** An order that has left `started` never changes again: not its total, not its items. */
  lemma {:induction false} ReplayFreezes(d: Db, ops: seq<Op>, o: int)
    requires Replay(d, ops).Ok? && o in d.orders && d.orders[o].status != Started
    ensures SameOrder(d, Replay(d, ops).value, o)
  {
    if ops != [] {
      var front := ops[..|ops| - 1];
      ReplayFreezes(d, front, o);
      ApplyFreezes(Replay(d, front).value, ops[|ops| - 1], o);
    }
  }

  /** Units of a product that pending orders have been charged. */
  function Sold(d: Db, p: int): int {
    Sum(map o | o in d.orders && d.orders[o].status == Pending :: Quantity(d, o, p))
  }

  function OnHand(d: Db, p: int): int {
    if p in d.inventory then d.inventory[p] else 0
  }

  function SuppliedBy(op: Op, p: int): int {
    match op
    case Stock(x, _, stock) => if x == p then Int32(stock) else 0
    case Refill(x, amount) => if x == p then amount else 0
    case _ => 0
  }

  /** Units of a product that the operations brought in. */
  function Supplied(ops: seq<Op>, p: int): int {
    if ops == [] then 0 else Supplied(ops[..|ops| - 1], p) + SuppliedBy(ops[|ops| - 1], p)
  }

  lemma SoldUnchanged(d: Db, d': Db, p: int)
    requires forall o | o in d.orders && d.orders[o].status == Pending ::
               o in d'.orders && d'.orders[o].status == Pending && Quantity(d, o, p) == Quantity(d', o, p)
    requires forall o | o in d'.orders && d'.orders[o].status == Pending :: o in d.orders && d.orders[o].status == Pending
    ensures Sold(d, p) == Sold(d', p)
  {
    assert (map o | o in d.orders && d.orders[o].status == Pending :: Quantity(d, o, p))
        == (map o | o in d'.orders && d'.orders[o].status == Pending :: Quantity(d', o, p));
  }

  lemma SoldAfterClosing(d: Db, d': Db, o: int, p: int)
    requires o in d.orders && d.orders[o].status == Started
    requires d'.orders == d.orders[o := d.orders[o].(status := Pending)] && d'.items == d.items
    ensures Sold(d', p) == Sold(d, p) + Quantity(d, o, p)
  {
    var m := map x | x in d.orders && d.orders[x].status == Pending :: Quantity(d, x, p);
    var m' := map x | x in d'.orders && d'.orders[x].status == Pending :: Quantity(d', x, p);
    assert m' == m[o := Quantity(d, o, p)];
    SumUpdate(m, o, Quantity(d, o, p));
  }

  lemma CheckoutConserves(d: Db, o: int, p: int)
    requires Consistent(d) && Checkout(d, o).Ok?
    ensures var d' := Checkout(d, o).value; OnHand(d', p) + Sold(d', p) == OnHand(d, p) + Sold(d, p)
  {
    SoldAfterClosing(d, Charge(d, o), o, p);
    hide Sold, Totalled;
    assert p !in d.inventory ==> Quantity(d, o, p) == 0 by {
      assert (o, p) in d.items ==> ItemValid(d, o, p);
    }
  }

  /** Edits touch only started orders, and nothing else touches an order's items. */
  lemma SellsNothing(d: Db, op: Op, p: int)
    requires !op.Pay? && Apply(d, op).Ok?
    ensures Sold(Apply(d, op).value, p) == Sold(d, p)
  {
    hide Sold, Cost;
    SoldUnchanged(d, Apply(d, op).value, p);
  }

  lemma OnHandMoves(d: Db, op: Op, p: int)
    requires Consistent(d) && !op.Pay? && Apply(d, op).Ok?
    ensures OnHand(Apply(d, op).value, p) == OnHand(d, p) + SuppliedBy(op, p)
  {
    hide ConstraintsHold, Totalled, Priced, Cost;
  }

  lemma ApplyConserves(d: Db, op: Op, p: int)
    requires Consistent(d) && Apply(d, op).Ok?
    ensures var d' := Apply(d, op).value;
            OnHand(d', p) + Sold(d', p) == OnHand(d, p) + Sold(d, p) + SuppliedBy(op, p)
  {
    hide Consistent, OnHand, Sold;
    if op.Pay? {
      CheckoutConserves(d, op.order, p);
    } else {
      SellsNothing(d, op, p);
      OnHandMoves(d, op, p);
    }
  }

  /** Conservation: what is on hand and what has been sold add up to what there was and what came in. */
  lemma {:induction false} ReplayConserves(d: Db, ops: seq<Op>, p: int)
    requires Consistent(d) && Replay(d, ops).Ok?
    ensures var d' := Replay(d, ops).value;
            OnHand(d', p) + Sold(d', p) == OnHand(d, p) + Sold(d, p) + Supplied(ops, p)
  {
    if ops != [] {
      var front := ops[..|ops| - 1];
      ReplayConserves(d, front, p);
      ReplayKeepsConsistent(d, front);
      ApplyConserves(Replay(d, front).value, ops[|ops| - 1], p);
    }
  }

  lemma {:induction false} PaidOrdersAreClosed(d: Db, ops: seq<Op>)
    requires Replay(d, ops).Ok?
    ensures forall i | 0 <= i < |ops| && ops[i].Pay? ::
              ops[i].order in Replay(d, ops).value.orders && Replay(d, ops).value.orders[ops[i].order].status == Pending
  {
    if ops != [] {
      var n := |ops| - 1;
      PaidOrdersAreClosed(d, ops[..n]);
      var before := Replay(d, ops[..n]).value;
      forall i | 0 <= i < |ops| && ops[i].Pay?
        ensures ops[i].order in Replay(d, ops).value.orders
        ensures Replay(d, ops).value.orders[ops[i].order].status == Pending
      {
        if i < n {
          assert ops[..n][i] == ops[i];
          ApplyFreezes(before, ops[n], ops[i].order);
        }
      }
    }
  }

  /** No history pays for an order twice. */
  lemma {:induction false} PaidAtMostOnce(d: Db, ops: seq<Op>)
    requires Replay(d, ops).Ok?
    ensures forall i, j | 0 <= i < j < |ops| && ops[i].Pay? && ops[j].Pay? :: ops[i].order != ops[j].order
  {
    if ops != [] {
      var n := |ops| - 1;
      PaidAtMostOnce(d, ops[..n]);
      PaidOrdersAreClosed(d, ops[..n]);
      forall i, j | 0 <= i < j < |ops| && ops[i].Pay? && ops[j].Pay? ensures ops[i].order != ops[j].order {
        assert ops[..n][i] == ops[i];
        if j < n { assert ops[..n][j] == ops[j]; }
      }
    }
  }
}
