/**
 What each operation of the order service does when it runs by itself: the
 tables it leaves, and what it answers. These are the reference definitions;
 the service's own statement-by-statement code is proved against them, and so
 is every interleaving of it.
 */
module Transactions {
  import opened Collections
  import opened Tables
  import opened Statements

  /** Go's conversion of an int to int32. */
  function Int32(x: int): int4 {
    (x + 0x8000_0000) % 0x1_0000_0000 - 0x8000_0000
  }

  function Quantity(d: Db, o: int, p: int): int {
    if (o, p) in d.items then d.items[(o, p)].quantity else 0
  }

  /** The products the order asks for more of than there is. */
  function Shortage(d: Db, o: int): set<int> {
    set p | p in d.inventory && d.inventory[p] < Quantity(d, o, p)
  }

  /** Takes an order's quantities out of the stock of their products and closes the order to edits. */
  function Charge(d: Db, o: int): Db
    requires o in d.orders
  {
    d.(inventory := map p | p in d.inventory :: d.inventory[p] - Quantity(d, o, p),
       orders := d.orders[o := d.orders[o].(status := Pending)])
  }

  function Checkout(d: Db, o: int): Result<Db> {
    if o !in d.orders then Err(NoRows)
    else if d.orders[o].status != Started then Err(CannotCheckout)
    else if Basket(d.items, o) == map[] then Err(EmptyOrder)
    else if Shortage(d, o) != {} then Err(InsufficientStock(Min(Shortage(d, o))))
    else Ok(Charge(d, o))
  }

  /** An order's item set to `i` and its total moved by the difference, if it then still fits. */
  function PutItem(d: Db, o: int, p: int, i: Item): Result<Db>
    requires o in d.orders
  {
    var total := d.orders[o].total - (if (o, p) in d.items then Cost(d.items[(o, p)]) else 0) + Cost(i);
    if total > MAX_INT4 then Err(OutOfRange)
    else Ok(d.(items := d.items[(o, p) := i], orders := d.orders[o := d.orders[o].(total := total)]))
  }

  function AddItem(d: Db, o: int, p: int, quantity: int): Result<Db> {
    if quantity <= 0 then Err(InvalidItemQuantity)
    else if o !in d.orders then Err(NoRows)
    else if d.orders[o].status != Started then Err(CannotEdit)
    else if p !in d.products then Err(NoRows)
    else if (o, p) in d.items then Err(UniqueViolation)
    else PutItem(d, o, p, Item(quantity, d.products[p]))
  }

  function EditItem(d: Db, o: int, p: int, quantity: int): Result<Db> {
    if quantity < 0 then Err(InvalidItemQuantity)
    else if o !in d.orders then Err(NoRows)
    else if d.orders[o].status != Started then Err(CannotEdit)
    else if (o, p) !in d.items then Err(NoRows)
    else if quantity == 0 then
      Ok(d.(items := d.items - {(o, p)},
            orders := d.orders[o := d.orders[o].(total := d.orders[o].total - Cost(d.items[(o, p)]))]))
    else PutItem(d, o, p, d.items[(o, p)].(quantity := quantity))
  }

  /** `id` is the value the product sequence hands out. */
  function NewProduct(d: Db, id: int, price: int, stock: int): Result<Db> {
    if stock < 0 then Err(InvalidInventory)
    else if Int32(price) < 0 then Err(CheckViolation)
    else if id in d.products then Err(UniqueViolation)
    else if Int32(stock) < 0 then Err(CheckViolation)
    else Ok(d.(products := d.products[id := Int32(price)], inventory := d.inventory[id := Int32(stock)]))
  }

  function Restock(d: Db, p: int, amount: int): Result<Db> {
    if amount <= 0 then Err(StockNotPositive)
    else if p !in d.inventory then Err(NoRows)
    else if d.inventory[p] + amount > MAX_INT4 then Err(OutOfRange)
    else Ok(d.(inventory := d.inventory[p := d.inventory[p] + amount]))
  }

  /** The committed operations that change the tables. `Create` and `NewProduct` carry the id they were given. */
  datatype Op =
    | Create(order: int, user: int, key: string)
    | Add(order: int, product: int, quantity: int4)
    | Edit(order: int, product: int, quantity: int4)
    | Pay(order: int)
    | Stock(product: int, price: int, stock: int)
    | Refill(product: int, amount: int4)

  function Apply(d: Db, op: Op): Result<Db> {
    match op
    case Create(o, u, k) => AddOrder(d, o, u, k, 0)
    case Add(o, p, q) => AddItem(d, o, p, q)
    case Edit(o, p, q) => EditItem(d, o, p, q)
    case Pay(o) => Checkout(d, o)
    case Stock(p, price, stock) => NewProduct(d, p, price, stock)
    case Refill(p, a) => Restock(d, p, a)
  }

  /** Runs the operations one at a time; every one of them must succeed. */
  function Replay(d: Db, ops: seq<Op>): Result<Db> {
    if ops == [] then Ok(d) else
    var before := Replay(d, ops[..|ops| - 1]);
    if before.Err? then before else Apply(before.value, ops[|ops| - 1])
  }

  /** The id sequences are ahead of every id in use. */
  ghost predicate Sequenced(d: Db, nextOrder: int, nextProduct: int) {
    && (forall o | o in d.orders :: o < nextOrder)
    && (forall p | p in d.products :: p < nextProduct)
  }

  lemma SequencedAfterCreate(d: Db, o: int, p: int, user: int, key: string)
    requires Sequenced(d, o, p)
    ensures o !in d.orders && Sequenced(d, o + 1, p)
    ensures AddOrder(d, o, user, key, 0).Ok? ==> Sequenced(AddOrder(d, o, user, key, 0).value, o + 1, p)
  {}

  lemma SequencedAfterNewProduct(d: Db, o: int, p: int, price: int, stock: int)
    requires Sequenced(d, o, p)
    ensures p !in d.products && Sequenced(d, o, p + 1)
    ensures NewProduct(d, p, price, stock).Ok? ==> Sequenced(NewProduct(d, p, price, stock).value, o, p + 1)
  {}

  lemma CreateKeepsConsistent(d: Db, o: int, user: int, key: string)
    requires Consistent(d) && AddOrder(d, o, user, key, 0).Ok?
    ensures Consistent(AddOrder(d, o, user, key, 0).value)
  {
    var d' := AddOrder(d, o, user, key, 0).value;
    OwedDependsOnItems(d, d');
    ItemsStayValid(d, d');
    NothingOwedWithoutItems(d, o);
  }

  /**
   After an order's items change, recomputing its total either puts the tables
   back in order or fails because the sum has outgrown the column: a product
   that does not fit its type makes the sum too large as well.
   */
  lemma Retotal(d: Db, mid: Db, o: int)
    requires Consistent(d) && o in d.orders && mid == d.(items := mid.items)
    requires ConstraintsHold(mid) && Priced(mid)
    requires forall o' | o' != o :: Owed(mid, o') == Owed(d, o')
    ensures var total := Owed(mid, o);
            var after := mid.(orders := mid.orders[o := mid.orders[o].(total := total)]);
            && UpdateOrderTotal(mid, o) == (if total > MAX_INT4 then Err(OutOfRange) else Ok(after))
            && (total <= MAX_INT4 ==> Consistent(after))
  {
    hide ProductsValid, Priced;
    LineBounds(mid, o);
    if Owed(mid, o) <= MAX_INT4 {
      RetotalledIsConsistent(d, mid, o);
    }
  }

  lemma RetotalledIsConsistent(d: Db, mid: Db, o: int)
    requires Consistent(d) && o in d.orders && mid == d.(items := mid.items)
    requires ConstraintsHold(mid) && Priced(mid)
    requires forall o' | o' != o :: Owed(mid, o') == Owed(d, o')
    requires 0 <= Owed(mid, o) <= MAX_INT4
    ensures Consistent(mid.(orders := mid.orders[o := mid.orders[o].(total := Owed(mid, o))]))
  {
    var after := mid.(orders := mid.orders[o := mid.orders[o].(total := Owed(mid, o))]);
    OwedDependsOnItems(mid, after);
    ItemsStayValid(mid, after);
    NewTotalKeepsOrders(mid, o, Owed(mid, o));
    hide Owed, ItemsValid, OrdersValid, KeysUnique;
  }

  lemma NewTotalKeepsOrders(d: Db, o: int, total: int)
    requires OrdersValid(d) && KeysUnique(d.orders) && o in d.orders && 0 <= total <= MAX_INT4
    ensures var d' := d.(orders := d.orders[o := d.orders[o].(total := total)]);
            OrdersValid(d') && KeysUnique(d'.orders)
  {}

  /** The item may be put, and what the order then owes. */
  lemma PutMid(d: Db, mid: Db, o: int, p: int, i: Item)
    requires Consistent(d) && o in d.orders && p in d.products
    requires 0 < i.quantity <= MAX_INT4 && i.unitPrice == d.products[p]
    requires mid == d.(items := d.items[(o, p) := i])
    ensures ConstraintsHold(mid) && Priced(mid)
    ensures forall o' | o' != o :: Owed(mid, o') == Owed(d, o')
    ensures Owed(mid, o) == d.orders[o].total - (if (o, p) in d.items then Cost(d.items[(o, p)]) else 0) + Cost(i)
  {
    OwedAfterPut(d, mid, o, p, i);
    forall o', p' | (o', p') in mid.items ensures ItemValid(mid, o', p') {
      assert (o', p') != (o, p) ==> ItemValid(d, o', p');
    }
  }

  lemma RemoveMid(d: Db, mid: Db, o: int, p: int)
    requires Consistent(d) && o in d.orders && (o, p) in d.items
    requires mid == d.(items := d.items - {(o, p)})
    ensures ConstraintsHold(mid) && Priced(mid)
    ensures forall o' | o' != o :: Owed(mid, o') == Owed(d, o')
    ensures Owed(mid, o) == d.orders[o].total - Cost(d.items[(o, p)]) <= MAX_INT4
  {
    OwedAfterDelete(d, mid, o, p);
    forall o', p' | (o', p') in mid.items ensures ItemValid(mid, o', p') {
      assert ItemValid(d, o', p');
    }
    LineBounds(d, o);
    assert Lines(Basket(d.items, o))[p] == Cost(d.items[(o, p)]);
  }

  /** Putting an item by the book is writing it and recomputing the total. */
  lemma PutIsWriteThenTotal(d: Db, o: int, p: int, i: Item)
    requires Consistent(d) && o in d.orders && p in d.products
    requires 0 < i.quantity <= MAX_INT4 && i.unitPrice == d.products[p]
    ensures PutItem(d, o, p, i) == UpdateOrderTotal(d.(items := d.items[(o, p) := i]), o)
    ensures PutItem(d, o, p, i).Ok? ==> Consistent(PutItem(d, o, p, i).value)
  {
    hide Consistent, ConstraintsHold, Priced, Owed, Cost, UpdateOrderTotal;
    var mid := d.(items := d.items[(o, p) := i]);
    PutMid(d, mid, o, p, i);
    Retotal(d, mid, o);
  }

  lemma RemoveIsDeleteThenTotal(d: Db, o: int, p: int)
    requires Consistent(d) && EditItem(d, o, p, 0).Ok?
    ensures EditItem(d, o, p, 0) == UpdateOrderTotal(d.(items := d.items - {(o, p)}), o)
    ensures Consistent(EditItem(d, o, p, 0).value)
  {
    hide Consistent, ConstraintsHold, Priced, Owed, Cost, UpdateOrderTotal;
    var mid := d.(items := d.items - {(o, p)});
    RemoveMid(d, mid, o, p);
    Retotal(d, mid, o);
  }

  lemma EditKeepsConsistent(d: Db, o: int, p: int, quantity: int4)
    requires Consistent(d) && EditItem(d, o, p, quantity).Ok?
    ensures Consistent(EditItem(d, o, p, quantity).value)
  {
    if quantity == 0 {
      RemoveIsDeleteThenTotal(d, o, p);
    } else {
      assert Int4(quantity);
      assert ItemValid(d, o, p);
      assert d.items[(o, p)].unitPrice == d.products[p];
      PutIsWriteThenTotal(d, o, p, d.items[(o, p)].(quantity := quantity));
    }
  }

  lemma CheckoutKeepsConsistent(d: Db, o: int)
    requires Consistent(d) && Checkout(d, o).Ok?
    ensures Consistent(Checkout(d, o).value)
  {
    hide Owed;
    var d' := Charge(d, o);
    OwedDependsOnItems(d, d');
    ItemsStayValid(d, d');
    forall p | p in d'.inventory ensures 0 <= d'.inventory[p] <= MAX_INT4 {
      assert p !in Shortage(d, o);
      assert (o, p) in d.items ==> ItemValid(d, o, p);
    }
  }

  lemma NewProductKeepsConsistent(d: Db, p: int, price: int, stock: int)
    requires Consistent(d) && NewProduct(d, p, price, stock).Ok?
    ensures Consistent(NewProduct(d, p, price, stock).value)
  {
    var d' := NewProduct(d, p, price, stock).value;
    OwedDependsOnItems(d, d');
    ItemsStayValid(d, d');
  }

  lemma ApplyKeepsConsistent(d: Db, op: Op)
    requires Consistent(d) && Apply(d, op).Ok?
    ensures Consistent(Apply(d, op).value)
  {
    match op {
      case Create(o, u, k) => CreateKeepsConsistent(d, o, u, k);
      case Add(o, p, q) => PutIsWriteThenTotal(d, o, p, Item(q, d.products[p]));
      case Edit(o, p, q) => EditKeepsConsistent(d, o, p, q);
      case Pay(o) => CheckoutKeepsConsistent(d, o);
      case Stock(p, price, stock) => NewProductKeepsConsistent(d, p, price, stock);
      case Refill(p, a) =>
        OwedDependsOnItems(d, Apply(d, op).value);
        ItemsStayValid(d, Apply(d, op).value);
    }
  }

  /** The first row that asks for more than its stock names the least product that runs short. */
  lemma FirstShortRow(d: Db, o: int, i: nat)
    requires Consistent(d)
    requires var rows := GetCheckoutItems(d, o);
             && i < |rows| && rows[i].stock < rows[i].quantity
             && forall j | 0 <= j < i :: rows[j].quantity <= rows[j].stock
    ensures Shortage(d, o) != {} && Min(Shortage(d, o)) == GetCheckoutItems(d, o)[i].product
  {
    hide GetCheckoutItems, Totalled;
    var rows := GetCheckoutItems(d, o);
    assert rows[i].product in Shortage(d, o);
    var least := Min(Shortage(d, o));
    assert (o, least) in d.items && ItemValid(d, o, least);
    var j :| 0 <= j < |rows| && rows[j].product == least;
    assert rows[j].stock < rows[j].quantity;
  }

  lemma DecrementOfProduct(d: Db, o: int, p: int)
    requires Consistent(d)
    ensures p in Decremented(GetCheckoutItems(d, o)) <==> (o, p) in d.items
    ensures (o, p) in d.items ==>
              && p in d.inventory
              && Decremented(GetCheckoutItems(d, o))[p] == d.inventory[p] - Quantity(d, o, p)
  {
    var rows := GetCheckoutItems(d, o);
    DecrementedAt(rows);
    if (o, p) in d.items {
      assert ItemValid(d, o, p);
      var i :| 0 <= i < |rows| && rows[i].product == p;
    }
  }

  lemma NoShortRow(d: Db, o: int)
    requires Consistent(d)
    requires forall r | r in GetCheckoutItems(d, o) :: r.quantity <= r.stock
    ensures Shortage(d, o) == {}
  {
    var rows := GetCheckoutItems(d, o);
    forall p | p in d.inventory ensures Quantity(d, o, p) <= d.inventory[p] {
      if (o, p) in d.items {
        var i :| 0 <= i < |rows| && rows[i].product == p;
        assert rows[i] in rows;
      }
    }
  }

  lemma MergeIsCharge(d: Db, o: int, left: map<int, int>)
    requires o in d.orders
    requires forall p :: p in left <==> (o, p) in d.items
    requires forall p | p in left :: p in d.inventory && left[p] == d.inventory[p] - Quantity(d, o, p)
    ensures d.inventory + left == Charge(d, o).inventory
  {
    assert forall p | p in d.inventory && p !in left :: Quantity(d, o, p) == 0;
  }

  /** The rows' decrements together are exactly the charge. */
  lemma DecrementsAreCharge(d: Db, o: int)
    requires Consistent(d) && o in d.orders
    ensures d.inventory + Decremented(GetCheckoutItems(d, o)) == Charge(d, o).inventory
  {
    forall p
      ensures p in Decremented(GetCheckoutItems(d, o)) <==> (o, p) in d.items
      ensures (o, p) in d.items ==>
                && p in d.inventory
                && Decremented(GetCheckoutItems(d, o))[p] == d.inventory[p] - Quantity(d, o, p)
    {
      DecrementOfProduct(d, o, p);
    }
    MergeIsCharge(d, o, Decremented(GetCheckoutItems(d, o)));
  }

  /** The tables once the first `i` rows of an order have been taken out of stock. */
  function Taken(d: Db, o: int, i: nat): Db
    requires i <= |GetCheckoutItems(d, o)|
  {
    d.(inventory := d.inventory + Decremented(GetCheckoutItems(d, o)[..i]))
  }

  lemma TakenNone(d: Db, o: int)
    ensures Taken(d, o, 0) == d
  {
    hide GetCheckoutItems;
    assert d.inventory + Decremented(GetCheckoutItems(d, o)[..0]) == d.inventory;
  }

  lemma RowInRange(d: Db, o: int, i: nat)
    requires Consistent(d) && i < |GetCheckoutItems(d, o)|
    ensures var row := GetCheckoutItems(d, o)[i]; 0 < row.quantity <= MAX_INT4 && 0 <= row.stock <= MAX_INT4
  {
    var row := GetCheckoutItems(d, o)[i];
    assert ItemValid(d, o, row.product);
  }

  /** Rows name distinct products, so the stock a row read is still there when its turn comes. */
  lemma TakeRow(d: Db, o: int, i: nat)
    requires Consistent(d) && i < |GetCheckoutItems(d, o)|
    ensures var row := GetCheckoutItems(d, o)[i];
            && row.product in d.inventory && row.product !in Decremented(GetCheckoutItems(d, o)[..i])
            && (row.quantity <= row.stock ==>
                  DecreaseInventoryStock(Taken(d, o, i), row.product, row.quantity) == Ok(Taken(d, o, i + 1)))
  {
    hide Consistent, GetCheckoutItems;
    var rows := GetCheckoutItems(d, o);
    DecrementedAt(rows[..i]);
    assert rows[..i + 1][..i] == rows[..i];
    var row := rows[i];
    RowInRange(d, o, i);
    if row.quantity <= row.stock {
      MergeThenPut(d.inventory, Decremented(rows[..i]), row.product, row.stock - row.quantity);
    }
  }

  /** Taking every row and closing the order is checking it out. */
  lemma TakenAll(d: Db, o: int)
    requires Consistent(d) && o in d.orders && d.orders[o].status == Started
    requires GetCheckoutItems(d, o) != []
    requires forall r | r in GetCheckoutItems(d, o) :: r.quantity <= r.stock
    ensures UpdateOrderStatus(Taken(d, o, |GetCheckoutItems(d, o)|), o) == Checkout(d, o)
    ensures Checkout(d, o).Ok?
  {
    hide Consistent, GetCheckoutItems, Decremented, Quantity, Basket;
    var rows := GetCheckoutItems(d, o);
    assert rows[..|rows|] == rows;
    JoinEmptyIffBasketEmpty(d, o);
    NoShortRow(d, o);
    DecrementsAreCharge(d, o);
    assert Taken(d, o, |rows|).inventory == Charge(d, o).inventory;
  }

  /** After a conflict the fallback read finds the one order with the key. */
  lemma FallbackFinds(d: Db, user: int, key: string, o: int)
    requires KeysUnique(d.orders)
    requires o in d.orders && d.orders[o].user == user && d.orders[o].key == key
    ensures GetOrderByUserIdAndIdempotencyKey(d, user, key) == Ok(o)
  {
    var found := set x | x in d.orders && d.orders[x].user == user && d.orders[x].key == key;
    assert o in found;
    assert SameKey(d.orders[Min(found)], d.orders[o]);
  }

  lemma NewProductIsTwoInserts(d: Db, p: int, price: int, stock: int)
    requires Consistent(d) && stock >= 0 && p !in d.products
    ensures var priced := AddProduct(d, p, Int32(price));
            NewProduct(d, p, price, stock) ==
              if priced.Err? then priced else InsertInventory(priced.value, p, Int32(stock))
  {}

  lemma JoinEmptyIffBasketEmpty(d: Db, o: int)
    requires Consistent(d)
    ensures GetCheckoutItems(d, o) == [] <==> Basket(d.items, o) == map[]
  {
    JoinIsBasket(d, o);
  }
}
