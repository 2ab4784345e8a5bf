/** The order service as written: statements that change the tables in place, and transactions over them. */
module OrderService {
  import opened Collections
  import opened Tables
  import S = Statements
  import T = Transactions
  import A = Answers

  /** `after` and `r` are what a statement or a transaction with outcome `s` leaves and answers. */
  ghost predicate Ran<R>(before: Db, after: Db, s: Result<Db>, r: Result<R>) {
    match s
    case Ok(d) => r.Ok? && after == d
    case Err(e) => r == Err(e) && after == before
  }

  /** The tables left, or the error answered. */
  function Outcome<R>(after: Db, r: Result<R>): Result<Db> {
    if r.Ok? then Ok(after) else Err(r.error)
  }

  /** The tables as one connection sees them. `saved` is what a rollback goes back to. */
  class Database {
    var users: set<int>
    var products: map<int, int>
    var inventory: map<int, int>
    var orders: map<int, Order>
    var items: map<(int, int), Item>
    var orderSequence: int
    var productSequence: int
    var saved: Db

    constructor (users: set<int>)
      ensures Now() == Db(users, map[], map[], map[], map[])
      ensures Consistent(Now()) && Sequenced()
    {
      this.users, products, inventory, orders, items := users, map[], map[], map[], map[];
      orderSequence, productSequence := 1, 1;
      saved := Db(users, map[], map[], map[], map[]);
    }

    function Now(): Db
      reads this
    {
      Db(users, products, inventory, orders, items)
    }

    /** The sequences are ahead of every id handed out. */
    ghost predicate Sequenced()
      reads this
    {
      T.Sequenced(Now(), orderSequence, productSequence)
    }

    method Begin()
      modifies this`saved
      ensures saved == Now()
    {
      saved := Now();
    }

    method Rollback()
      modifies this`users, this`products, this`inventory, this`orders, this`items
      ensures Now() == saved
    {
      users, products, inventory, orders, items :=
        saved.users, saved.products, saved.inventory, saved.orders, saved.items;
    }

    method AddOrder(user: int, key: string, total: int) returns (r: Result<int>)
      modifies this`orders, this`orderSequence
      ensures orderSequence == old(orderSequence) + 1
      ensures Ran(old(Now()), Now(), S.AddOrder(old(Now()), old(orderSequence), user, key, total), r)
      ensures r.Ok? ==> r.value == old(orderSequence)
      ensures r == Err(NoRows) <==> exists o | o in old(orders) :: old(orders)[o].user == user && old(orders)[o].key == key
      ensures r.Ok? <==> && (forall o | o in old(orders) :: old(orders)[o].user != user || old(orders)[o].key != key)
                         && user in users && total >= 0 && old(orderSequence) !in old(orders)
      ensures orders == if r.Ok? then old(orders)[r.value := Order(user, key, Started, total)] else old(orders)
    {
      var id := orderSequence;
      orderSequence := orderSequence + 1;
      if exists o | o in orders :: orders[o].user == user && orders[o].key == key { return Err(NoRows); }
      if user !in users { return Err(ForeignKey); }
      if total < 0 { return Err(CheckViolation); }
      if id in orders { return Err(UniqueViolation); }
      orders := orders[id := Order(user, key, Started, total)];
      r := Ok(id);
    }

    method GetOrderByUserIdAndIdempotencyKey(user: int, key: string) returns (r: Result<int>)
      ensures r == S.GetOrderByUserIdAndIdempotencyKey(Now(), user, key)
    {
      r := S.GetOrderByUserIdAndIdempotencyKey(Now(), user, key);
    }

    method AddProductOrderItem(p: int, o: int, quantity: int) returns (r: Result<Item>)
      modifies this`items
      ensures Ran(old(Now()), Now(), S.AddProductOrderItem(old(Now()), p, o, quantity), r)
      ensures r.Ok? ==> (o, p) in items && r.value == items[(o, p)]
    {
      if p !in products { return Err(NoRows); }
      if quantity <= 0 { return Err(CheckViolation); }
      if (o, p) in items { return Err(UniqueViolation); }
      if o !in orders { return Err(ForeignKey); }
      items := items[(o, p) := Item(quantity, products[p])];
      r := Ok(items[(o, p)]);
    }

    method EditProductQuantityOrderItem(quantity: int, p: int, o: int) returns (r: Result<Item>)
      modifies this`items
      ensures Ran(old(Now()), Now(), S.EditProductQuantityOrderItem(old(Now()), quantity, p, o), r)
      ensures r.Ok? ==> (o, p) in items && r.value == items[(o, p)]
    {
      if (o, p) !in items { return Err(NoRows); }
      if quantity <= 0 { return Err(CheckViolation); }
      items := items[(o, p) := items[(o, p)].(quantity := quantity)];
      r := Ok(items[(o, p)]);
    }

    method RemoveProductQuantityOrderItem(p: int, o: int) returns (r: Result<Item>)
      modifies this`items
      ensures Ran(old(Now()), Now(), S.RemoveProductQuantityOrderItem(old(Now()), p, o), r)
      ensures r.Ok? ==> (o, p) in old(items) && r.value == old(items)[(o, p)]
    {
      if (o, p) !in items { return Err(NoRows); }
      r := Ok(items[(o, p)]);
      items := items - {(o, p)};
    }

    method GetOrderStatus(o: int) returns (r: Result<Status>)
      ensures r == S.GetOrderStatus(Now(), o)
    {
      r := S.GetOrderStatus(Now(), o);
    }

    method GetCheckoutItems(o: int) returns (rows: seq<S.Row>)
      ensures rows == S.GetCheckoutItems(Now(), o)
    {
      rows := S.GetCheckoutItems(Now(), o);
    }

    method DecreaseInventoryStock(p: int, quantity: int) returns (r: Result<int>)
      modifies this`inventory
      ensures Ran(old(Now()), Now(), S.DecreaseInventoryStock(old(Now()), p, quantity), r)
    {
      if p !in inventory { return Err(NoRows); }
      if !Int4(inventory[p] - quantity) { return Err(OutOfRange); }
      if inventory[p] - quantity < 0 { return Err(CheckViolation); }
      inventory := inventory[p := inventory[p] - quantity];
      r := Ok(inventory[p]);
    }

    method IncreaseProductStock(p: int, amount: int) returns (r: Result<int>)
      modifies this`inventory
      ensures Ran(old(Now()), Now(), S.IncreaseProductStock(old(Now()), p, amount), r)
      ensures r.Ok? ==> p in inventory && r.value == inventory[p]
    {
      if p !in inventory { return Err(NoRows); }
      if !Int4(inventory[p] + amount) { return Err(OutOfRange); }
      if inventory[p] + amount < 0 { return Err(CheckViolation); }
      inventory := inventory[p := inventory[p] + amount];
      r := Ok(inventory[p]);
    }

    method UpdateOrderStatus(o: int) returns (r: Result<Order>)
      modifies this`orders
      ensures Ran(old(Now()), Now(), S.UpdateOrderStatus(old(Now()), o), r)
      ensures r.Ok? ==> o in orders && r.value == orders[o]
      ensures if o in old(orders) && old(orders)[o].status == Started
              then r.Ok? && orders == old(orders)[o := old(orders)[o].(status := Pending)]
              else r == Err(NoRows) && orders == old(orders)
    {
      if o !in orders || orders[o].status != Started { return Err(NoRows); }
      orders := orders[o := orders[o].(status := Pending)];
      r := Ok(orders[o]);
    }

    method UpdateOrderTotal(o: int) returns (r: Result<()>)
      modifies this`orders
      ensures Ran(old(Now()), Now(), S.UpdateOrderTotal(old(Now()), o), r)
      ensures o !in old(orders) ==> r == Ok(()) && orders == old(orders)
      ensures o in old(orders) ==>
                (r.Ok? <==> && 0 <= Owed(old(Now()), o) && Int4(Owed(old(Now()), o))
                            && forall p | p in Basket(items, o) :: Int4(items[(o, p)].quantity * items[(o, p)].unitPrice))
      ensures o in old(orders) && r.Ok? ==> orders == old(orders)[o := old(orders)[o].(total := Owed(old(Now()), o))]
    {
      if o !in orders { return Ok(()); }
      var ls := Lines(Basket(items, o));
      assert forall p | p in ls :: ls[p] == items[(o, p)].quantity * items[(o, p)].unitPrice;
      assert forall p | p in Basket(items, o) :: p in ls;
      if exists p | p in ls :: !Int4(ls[p]) { return Err(OutOfRange); }
      if !Int4(Sum(ls)) { return Err(OutOfRange); }
      if Sum(ls) < 0 { return Err(CheckViolation); }
      orders := orders[o := orders[o].(total := Sum(ls))];
      r := Ok(());
    }

    method AddProduct(price: int) returns (r: Result<int>)
      modifies this`products, this`productSequence
      ensures productSequence == old(productSequence) + 1
      ensures Ran(old(Now()), Now(), S.AddProduct(old(Now()), old(productSequence), price), r)
      ensures r.Ok? ==> r.value == old(productSequence)
    {
      var id := productSequence;
      productSequence := productSequence + 1;
      if price < 0 { return Err(CheckViolation); }
      if id in products { return Err(UniqueViolation); }
      products := products[id := price];
      r := Ok(id);
    }

    method InsertInventory(p: int, stock: int) returns (r: Result<int>)
      modifies this`inventory
      ensures Ran(old(Now()), Now(), S.InsertInventory(old(Now()), p, stock), r)
    {
      if stock < 0 { return Err(CheckViolation); }
      if p in inventory { return Err(UniqueViolation); }
      if p !in products { return Err(ForeignKey); }
      inventory := inventory[p := stock];
      r := Ok(stock);
    }
  }

  class OrderService {
    const db: Database

    constructor (db: Database)
      ensures this.db == db
    {
      this.db := db;
    }

    /** Answers the order that already has the user's key, or else a new one; an unknown user gets neither. */
    method CreateOrder(user: int, key: string) returns (r: Result<int>)
      requires Consistent(db.Now()) && db.Sequenced()
      modifies db
      ensures Consistent(db.Now()) && db.Sequenced()
      ensures forall o | o in old(db.orders) && old(db.orders)[o].user == user && old(db.orders)[o].key == key ::
                r == Ok(o) && db.Now() == old(db.Now())
      ensures (forall o | o in old(db.orders) :: old(db.orders)[o].user != user || old(db.orders)[o].key != key) ==>
                if user !in old(db.users) then r == Err(ForeignKey) && db.Now() == old(db.Now())
                else && r.Ok? && r.value !in old(db.orders)
                     && db.Now() == old(db.Now()).(orders := old(db.orders)[r.value := Order(user, key, Started, 0)])
    {
      hide Totalled;
      ghost var before := db.Now();
      T.SequencedAfterCreate(before, db.orderSequence, db.productSequence, user, key);
      r := db.AddOrder(user, key, 0);
      if r.Ok? {
        T.CreateKeepsConsistent(before, r.value, user, key);
        return;
      }
      if r.error != NoRows { return; }
      ghost var o :| o in before.orders && before.orders[o].user == user && before.orders[o].key == key;
      T.FallbackFinds(before, user, key, o);
      r := db.GetOrderByUserIdAndIdempotencyKey(user, key);
    }

    method AddOrderItem(p: int, o: int, quantity: int4) returns (r: Result<Item>)
      requires Consistent(db.Now())
      modifies db
      ensures Consistent(db.Now())
      ensures Ran(old(db.Now()), db.Now(), T.AddItem(old(db.Now()), o, p, quantity), r)
      ensures r.Ok? ==> (o, p) in db.items && r.value == db.items[(o, p)]
      ensures r.Err? ==> db.Now() == old(db.Now())
      ensures A.AddAnswered(old(db.Now()), o, p, quantity, Outcome(db.Now(), r))
    {
      A.AddAnswers(db.Now(), o, p, quantity);
      hide A.AddAnswered;
      if quantity <= 0 { return Err(InvalidItemQuantity); }
      db.Begin();
      var status := db.GetOrderStatus(o);
      if status.Err? { db.Rollback(); return Err(status.error); }
      if status.value != Started { db.Rollback(); return Err(CannotEdit); }
      ghost var before := db.Now();
      r := db.AddProductOrderItem(p, o, quantity);
      if r.Err? { db.Rollback(); return; }
      assert Int4(quantity);
      T.PutIsWriteThenTotal(before, o, p, Item(quantity, before.products[p]));
      var total := db.UpdateOrderTotal(o);
      if total.Err? { db.Rollback(); return Err(total.error); }
    }

    method EditOrderItemQuantity(p: int, o: int, quantity: int4) returns (r: Result<Item>)
      requires Consistent(db.Now())
      modifies db
      ensures Consistent(db.Now())
      ensures Ran(old(db.Now()), db.Now(), T.EditItem(old(db.Now()), o, p, quantity), r)
      ensures r.Ok? ==> (o, p) in old(db.items)
      ensures r.Ok? ==> r.value == if quantity == 0 then old(db.items)[(o, p)] else old(db.items)[(o, p)].(quantity := quantity)
      ensures r.Err? ==> db.Now() == old(db.Now())
      ensures A.EditAnswered(old(db.Now()), o, p, quantity, Outcome(db.Now(), r))
    {
      A.EditAnswers(db.Now(), o, p, quantity);
      hide A.EditAnswered;
      if quantity < 0 { return Err(InvalidItemQuantity); }
      db.Begin();
      var status := db.GetOrderStatus(o);
      if status.Err? { db.Rollback(); return Err(status.error); }
      if status.value != Started { db.Rollback(); return Err(CannotEdit); }
      ghost var before := db.Now();
      if quantity == 0 {
        r := db.RemoveProductQuantityOrderItem(p, o);
        if r.Err? { db.Rollback(); return; }
        var total := db.UpdateOrderTotal(o);
        if total.Err? {
          // A smaller total always fits.
          db.Rollback();
          r := Err(total.error);
          T.RemoveIsDeleteThenTotal(before, o, p);
          assert false;
        }
        T.RemoveIsDeleteThenTotal(before, o, p);
        return;
      }
      r := db.EditProductQuantityOrderItem(quantity, p, o);
      if r.Err? { db.Rollback(); return; }
      assert Int4(quantity);
      ItemsAreValid(before, o, p);
      T.PutIsWriteThenTotal(before, o, p, before.items[(o, p)].(quantity := quantity));
      var total := db.UpdateOrderTotal(o);
      if total.Err? { db.Rollback(); return Err(total.error); }
    }

    /** All or nothing: every product of the order loses its quantity and the order closes, or nothing changes. */
    method CheckoutOrder(o: int) returns (r: Result<Order>)
      requires Consistent(db.Now())
      modifies db
      ensures Consistent(db.Now())
      ensures Ran(old(db.Now()), db.Now(), T.Checkout(old(db.Now()), o), r)
      ensures r.Ok? ==> o in db.orders && r.value == db.orders[o]
      ensures r.Err? ==> db.Now() == old(db.Now())
      ensures A.CheckoutAnswered(old(db.Now()), o, Outcome(db.Now(), r))
    {
      hide Consistent, S.Decremented, S.GetCheckoutItems, T.Taken, A.CheckoutAnswered;
      A.CheckoutAnswers(db.Now(), o);
      db.Begin();
      var status := db.GetOrderStatus(o);
      if status.Err? { db.Rollback(); return Err(status.error); }
      if status.value != Started { db.Rollback(); return Err(CannotCheckout); }
      var rows := db.GetCheckoutItems(o);
      ghost var before := db.Now();
      if |rows| == 0 {
        T.JoinEmptyIffBasketEmpty(before, o);
        db.Rollback();
        return Err(EmptyOrder);
      }
      T.TakenNone(before, o);
      var i := 0;
      while i < |rows|
        invariant 0 <= i <= |rows|
        invariant db.saved == before && db.Now() == T.Taken(before, o, i)
        invariant forall j | 0 <= j < i :: rows[j].quantity <= rows[j].stock
      {
        if rows[i].quantity > rows[i].stock {
          T.JoinEmptyIffBasketEmpty(before, o);
          T.FirstShortRow(before, o, i);
          db.Rollback();
          return Err(InsufficientStock(rows[i].product));
        }
        var left := db.DecreaseInventoryStock(rows[i].product, rows[i].quantity);
        if left.Err? {
          // The row is locked and its stock was enough.
          db.Rollback();
          r := Err(left.error);
          T.TakeRow(before, o, i);
          assert false;
        }
        T.TakeRow(before, o, i);
        i := i + 1;
      }
      r := db.UpdateOrderStatus(o);
      if r.Err? {
        // The status was read in this very transaction.
        db.Rollback();
        T.TakenAll(before, o);
        assert false;
      }
      T.TakenAll(before, o);
      T.CheckoutKeepsConsistent(before, o);
    }

    /** Narrows both numbers to the columns' type, as the code does. */
    method AddProduct(price: int, stock: int) returns (r: Result<int>)
      requires Consistent(db.Now()) && db.Sequenced()
      modifies db
      ensures Consistent(db.Now()) && db.Sequenced()
      ensures Ran(old(db.Now()), db.Now(), T.NewProduct(old(db.Now()), old(db.productSequence), price, stock), r)
      ensures r.Ok? ==> r.value == old(db.productSequence) && r.value !in old(db.products)
      ensures r.Err? ==> db.Now() == old(db.Now())
      ensures 0 <= price <= 0x7FFF_FFFF && 0 <= stock <= 0x7FFF_FFFF ==>
                && r.Ok?
                && db.Now() == old(db.Now()).(products := old(db.products)[r.value := price],
                                              inventory := old(db.inventory)[r.value := stock])
      ensures A.ProductAnswered(old(db.Now()), old(db.productSequence), price, stock, Outcome(db.Now(), r))
    {
      hide Consistent, T.Sequenced;
      if stock < 0 { return Err(InvalidInventory); }
      ghost var before := db.Now();
      T.SequencedAfterNewProduct(before, db.orderSequence, db.productSequence, price, stock);
      T.NewProductIsTwoInserts(before, db.productSequence, price, stock);
      A.ProductAnswers(before, db.productSequence, price, stock);
      db.Begin();
      r := db.AddProduct(T.Int32(price));
      if r.Err? { db.Rollback(); return; }
      var inserted := db.InsertInventory(r.value, T.Int32(stock));
      if inserted.Err? { db.Rollback(); return Err(inserted.error); }
      T.NewProductKeepsConsistent(before, r.value, price, stock);
    }

    method IncreaseProductStock(p: int, amount: int4) returns (r: Result<int>)
      requires Consistent(db.Now())
      modifies db
      ensures Consistent(db.Now())
      ensures Ran(old(db.Now()), db.Now(), T.Restock(old(db.Now()), p, amount), r)
      ensures r.Ok? ==> p in db.inventory && r.value == db.inventory[p]
      ensures r.Err? ==> db.Now() == old(db.Now())
      ensures A.RestockAnswered(old(db.Now()), p, amount, Outcome(db.Now(), r))
    {
      A.RestockAnswers(db.Now(), p, amount);
      if amount <= 0 { return Err(StockNotPositive); }
      ghost var before := db.Now();
      r := db.IncreaseProductStock(p, amount);
      if r.Ok? { T.ApplyKeepsConsistent(before, T.Refill(p, amount)); }
    }
  }

  lemma ItemsAreValid(d: Db, o: int, p: int)
    requires Consistent(d) && (o, p) in d.items
    ensures ItemValid(d, o, p) && d.items[(o, p)].unitPrice == d.products[p]
  {
    assert ItemValid(d, o, p);
  }
}
