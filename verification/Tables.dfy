/** The order service's tables, with the constraints its migrations put on them. */
module Tables {
  import opened Collections

  const MAX_INT4 := 0x7FFF_FFFF

  predicate Int4(x: int) { -MAX_INT4 - 1 <= x <= MAX_INT4 }

  type int4 = x: int | Int4(x)

  datatype Status = Started | Pending | Completed | Cancelled

  datatype Order = Order(user: int, key: string, status: Status, total: int)

  datatype Item = Item(quantity: int, unitPrice: int)

  /** `products` maps an id to its price, `inventory` to its stock; `items` has the key (order, product). */
  datatype Db = Db(users: set<int>,
                   products: map<int, int>,
                   inventory: map<int, int>,
                   orders: map<int, Order>,
                   items: map<(int, int), Item>)

  datatype Error =
    | NoRows | ForeignKey | UniqueViolation | CheckViolation | OutOfRange
    | InvalidItemQuantity | CannotEdit | CannotCheckout | EmptyOrder
    | InsufficientStock(product: int)
    | InvalidInventory | StockNotPositive
    | ConnectionLost

  datatype Result<+T> = Ok(value: T) | Err(error: Error)

  /** The items of one order, by product. */
  function Basket(items: map<(int, int), Item>, o: int): (b: map<int, Item>)
    ensures forall p :: p in b <==> (o, p) in items
    ensures forall p | p in b :: b[p] == items[(o, p)]
  {
    var ps := set k | k in items && k.0 == o :: k.1;
    assert forall p :: (o, p) in items ==> (o, p).1 in ps;
    map p | p in ps :: items[(o, p)]
  }

  function Cost(i: Item): int { i.quantity * i.unitPrice }

  /** What each item of a basket costs. */
  function Lines(b: map<int, Item>): map<int, int> {
    map p | p in b :: Cost(b[p])
  }

  function Owed(d: Db, o: int): int {
    Sum(Lines(Basket(d.items, o)))
  }

  predicate SameKey(a: Order, b: Order) {
    a.user == b.user && a.key == b.key
  }

  ghost predicate ProductsValid(d: Db) {
    && (forall p | p in d.products :: 0 <= d.products[p] <= MAX_INT4)
    && (forall p | p in d.inventory :: p in d.products && 0 <= d.inventory[p] <= MAX_INT4)
  }

  ghost predicate OrdersValid(d: Db) {
    forall o | o in d.orders :: d.orders[o].user in d.users && 0 <= d.orders[o].total <= MAX_INT4
  }

  ghost predicate KeysUnique(orders: map<int, Order>) {
    forall o, o' | o in orders && o' in orders && SameKey(orders[o], orders[o']) :: o == o'
  }

  ghost predicate ItemValid(d: Db, o: int, p: int)
    requires (o, p) in d.items
  {
    && o in d.orders && p in d.products
    && 0 < d.items[(o, p)].quantity <= MAX_INT4
    && 0 <= d.items[(o, p)].unitPrice <= MAX_INT4
  }

  ghost predicate ItemsValid(d: Db) {
    forall o, p | (o, p) in d.items :: ItemValid(d, o, p)
  }

  /** The foreign keys, the check and unique constraints. */
  ghost predicate ConstraintsHold(d: Db) {
    && ProductsValid(d)
    && OrdersValid(d)
    && KeysUnique(d.orders)
    && ItemsValid(d)
  }

  ghost predicate Priced(d: Db) {
    forall o, p | (o, p) in d.items :: p in d.products && d.items[(o, p)].unitPrice == d.products[p]
  }

  ghost predicate Totalled(d: Db) {
    forall o | o in d.orders :: d.orders[o].total == Owed(d, o)
  }

  /** What the service keeps on top of the constraints. */
  ghost predicate Consistent(d: Db) {
    && ConstraintsHold(d)
    && d.inventory.Keys == d.products.Keys
    && Priced(d)
    && Totalled(d)
  }

  /** New orders and products, and new totals and stock, do not hurt the items. */
  lemma ItemsStayValid(d: Db, d': Db)
    requires ItemsValid(d) && d'.items == d.items
    requires d.orders.Keys <= d'.orders.Keys && d.products.Keys <= d'.products.Keys
    ensures ItemsValid(d')
  {
    forall o, p | (o, p) in d'.items ensures ItemValid(d', o, p) {
      assert ItemValid(d, o, p);
    }
  }

  lemma LineBounds(d: Db, o: int)
    requires ConstraintsHold(d)
    ensures var ls := Lines(Basket(d.items, o));
            0 <= Sum(ls) && forall p | p in ls :: 0 <= ls[p] <= Sum(ls)
  {
    var b := Basket(d.items, o);
    var ls := Lines(b);
    forall p | p in ls ensures 0 <= ls[p] {
      assert (o, p) in d.items;
      assert 0 <= b[p].quantity && 0 <= b[p].unitPrice;
    }
    SumBounds(ls);
  }

  lemma NothingOwedWithoutItems(d: Db, o: int)
    requires forall p :: (o, p) !in d.items
    ensures Owed(d, o) == 0
  {
    var b := Basket(d.items, o);
    if b.Keys != {} {
      var p := Element(b.Keys);
    }
    assert Lines(b) == map[];
  }

  /** Only the items of an order decide what it owes. */
  lemma OwedDependsOnItems(d: Db, d': Db)
    requires d.items == d'.items
    ensures forall o :: Owed(d, o) == Owed(d', o)
  {}

  lemma BasketAfterPut(items: map<(int, int), Item>, o: int, p: int, i: Item)
    ensures Basket(items[(o, p) := i], o) == Basket(items, o)[p := i]
    ensures forall o' | o' != o :: Basket(items[(o, p) := i], o') == Basket(items, o')
  {
    forall o' | o' != o ensures Basket(items[(o, p) := i], o') == Basket(items, o') {}
  }

  lemma BasketAfterDelete(items: map<(int, int), Item>, o: int, p: int)
    ensures Basket(items - {(o, p)}, o) == Basket(items, o) - {p}
    ensures forall o' | o' != o :: Basket(items - {(o, p)}, o') == Basket(items, o')
  {
    forall o' | o' != o ensures Basket(items - {(o, p)}, o') == Basket(items, o') {}
  }

  /** Putting one item moves what its order owes by the difference, and what no other order owes. */
  lemma OwedAfterPut(d: Db, d': Db, o: int, p: int, i: Item)
    requires d'.items == d.items[(o, p) := i]
    ensures Owed(d', o) == Owed(d, o) - (if (o, p) in d.items then Cost(d.items[(o, p)]) else 0) + Cost(i)
    ensures forall o' | o' != o :: Owed(d', o') == Owed(d, o')
  {
    BasketAfterPut(d.items, o, p, i);
    var b := Basket(d.items, o);
    assert Lines(b[p := i]) == Lines(b)[p := Cost(i)];
    SumUpdate(Lines(b), p, Cost(i));
  }

  lemma OwedAfterDelete(d: Db, d': Db, o: int, p: int)
    requires (o, p) in d.items && d'.items == d.items - {(o, p)}
    ensures Owed(d', o) == Owed(d, o) - Cost(d.items[(o, p)])
    ensures forall o' | o' != o :: Owed(d', o') == Owed(d, o')
  {
    BasketAfterDelete(d.items, o, p);
    var b := Basket(d.items, o);
    assert Lines(b - {p}) == Lines(b) - {p};
    SumRemove(Lines(b), p);
  }
}
