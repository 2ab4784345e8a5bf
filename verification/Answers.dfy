/**
 When each operation of the order service succeeds, what it then leaves, and
 what it answers otherwise: told from consistent tables alone, condition by
 condition, in the order in which the conditions are looked at.
 */
module Answers {
  import opened Collections
  import opened Tables
  import opened Statements
  import opened Transactions

  /** Narrowing keeps what fits, and nothing else; what does not fit it moves by whole turns of 2^32. */
  lemma NarrowingIsExact(x: int)
    ensures Int32(x) == x <==> -0x8000_0000 <= x <= 0x7FFF_FFFF
    ensures (x - Int32(x)) % 0x1_0000_0000 == 0
    ensures -0x8000_0000 <= Int32(x) <= 0x7FFF_FFFF
  {
    var k := (x + 0x8000_0000) / 0x1_0000_0000;
    assert x - Int32(x) == k * 0x1_0000_0000;
  }

  lemma ItemsAreStocked(d: Db, o: int)
    requires Consistent(d)
    ensures forall p | (o, p) in d.items :: p in d.inventory
    ensures forall p :: p in Shortage(d, o) <==> (o, p) in d.items && p in d.inventory && d.items[(o, p)].quantity > d.inventory[p]
    ensures Basket(d.items, o) == map[] <==> forall p :: (o, p) !in d.items
  {
    hide Totalled;
    forall p | (o, p) in d.items ensures p in d.inventory { assert ItemValid(d, o, p); }
    var b := Basket(d.items, o);
    if b.Keys != {} {
      var p := Element(b.Keys);
      assert (o, p) in d.items;
    }
    assert b == map[] <==> b.Keys == {};
  }

  /** A checkout takes every item's quantity from stock and closes the order, if there is enough of everything. */
  ghost predicate CheckoutAnswered(d: Db, o: int, r: Result<Db>) {
    && (r.Ok? <==>
          && o in d.orders && d.orders[o].status == Started
          && (exists p :: (o, p) in d.items)
          && forall p | (o, p) in d.items :: p in d.inventory && d.items[(o, p)].quantity <= d.inventory[p])
    && (r.Ok? ==>
          && r.value == d.(inventory := r.value.inventory, orders := d.orders[o := d.orders[o].(status := Pending)])
          && r.value.inventory.Keys == d.inventory.Keys
          && forall p | p in d.inventory ::
               r.value.inventory[p] == d.inventory[p] - if (o, p) in d.items then d.items[(o, p)].quantity else 0)
    && (o !in d.orders ==> r == Err(NoRows))
    && (o in d.orders && d.orders[o].status != Started ==> r == Err(CannotCheckout))
    && (o in d.orders && d.orders[o].status == Started && (forall p :: (o, p) !in d.items) ==> r == Err(EmptyOrder))
    && (o in d.orders && d.orders[o].status == Started ==>
          forall p | IsShort(d, o, p) && (forall q | q < p :: !IsShort(d, o, q)) :: r == Err(InsufficientStock(p)))
  }

  /** The order asks for more of the product than there is. */
  predicate IsShort(d: Db, o: int, p: int) {
    (o, p) in d.items && p in d.inventory && d.items[(o, p)].quantity > d.inventory[p]
  }

  lemma CheckoutAnswers(d: Db, o: int)
    requires Consistent(d)
    ensures CheckoutAnswered(d, o, Checkout(d, o))
  {
    hide Consistent, Shortage, Basket;
    ItemsAreStocked(d, o);
    var short := Shortage(d, o);
    assert forall p :: p in short <==> IsShort(d, o, p);
    if short != {} {
      var p := Element(short);
      assert IsShort(d, o, p);
    }
  }

  /** An item is added at its product's price, once, while the order is started and its total still fits. */
  ghost predicate AddAnswered(d: Db, o: int, p: int, quantity: int, r: Result<Db>) {
    && (r.Ok? <==>
          && quantity > 0 && o in d.orders && d.orders[o].status == Started
          && p in d.products && (o, p) !in d.items
          && Owed(d, o) + quantity * d.products[p] <= 0x7FFF_FFFF)
    && (r.Ok? ==>
          var total := Owed(d, o) + quantity * d.products[p];
          r.value == d.(items := d.items[(o, p) := Item(quantity, d.products[p])],
                        orders := d.orders[o := d.orders[o].(total := total)]))
    && (quantity <= 0 ==> r == Err(InvalidItemQuantity))
    && (quantity > 0 && o !in d.orders ==> r == Err(NoRows))
    && (quantity > 0 && o in d.orders && d.orders[o].status != Started ==> r == Err(CannotEdit))
    && (quantity > 0 && o in d.orders && d.orders[o].status == Started ==>
          && (p !in d.products ==> r == Err(NoRows))
          && ((o, p) in d.items ==> r == Err(UniqueViolation))
          && (p in d.products && (o, p) !in d.items && Owed(d, o) + quantity * d.products[p] > 0x7FFF_FFFF ==>
                r == Err(OutOfRange)))
  }

  lemma AddAnswers(d: Db, o: int, p: int, quantity: int)
    requires Consistent(d)
    ensures AddAnswered(d, o, p, quantity, AddItem(d, o, p, quantity))
  {
    hide Owed;
    assert (o, p) in d.items ==> ItemValid(d, o, p);
  }

  /** An item's quantity is changed, at 0 the item removed, while the order is started and its total still fits. */
  ghost predicate EditAnswered(d: Db, o: int, p: int, quantity: int, r: Result<Db>) {
    && (r.Ok? <==>
          && quantity >= 0 && o in d.orders && d.orders[o].status == Started
          && (o, p) in d.items && p in d.products
          && Owed(d, o) + (quantity - d.items[(o, p)].quantity) * d.products[p] <= 0x7FFF_FFFF)
    && (r.Ok? ==>
          var total := Owed(d, o) + (quantity - d.items[(o, p)].quantity) * d.products[p];
          r.value == d.(items := if quantity == 0 then d.items - {(o, p)} else d.items[(o, p) := Item(quantity, d.products[p])],
                        orders := d.orders[o := d.orders[o].(total := total)]))
    && (quantity < 0 ==> r == Err(InvalidItemQuantity))
    && (quantity >= 0 && o !in d.orders ==> r == Err(NoRows))
    && (quantity >= 0 && o in d.orders && d.orders[o].status != Started ==> r == Err(CannotEdit))
    && (quantity >= 0 && o in d.orders && d.orders[o].status == Started ==>
          && ((o, p) !in d.items ==> r == Err(NoRows))
          && ((o, p) in d.items ==> p in d.products)
          && ((o, p) in d.items && Owed(d, o) + (quantity - d.items[(o, p)].quantity) * d.products[p] > 0x7FFF_FFFF ==>
                r == Err(OutOfRange)))
  }

  lemma EditAnswers(d: Db, o: int, p: int, quantity: int)
    requires Consistent(d)
    ensures EditAnswered(d, o, p, quantity, EditItem(d, o, p, quantity))
  {
    hide Owed;
    if (o, p) in d.items {
      assert ItemValid(d, o, p);
      var i := d.items[(o, p)];
      assert (quantity - i.quantity) * d.products[p] == quantity * i.unitPrice - Cost(i);
      if o in d.orders && quantity == 0 {
        ItemWithinTotal(d, o, p);
      }
    }
  }

  lemma ItemWithinTotal(d: Db, o: int, p: int)
    requires Consistent(d) && o in d.orders && (o, p) in d.items
    ensures Owed(d, o) <= 0x7FFF_FFFF && 0 <= Cost(d.items[(o, p)])
  {
    LineBounds(d, o);
    assert p in Lines(Basket(d.items, o));
  }

  /** A product and its stock row appear together, with the numbers given if they fit their columns. */
  ghost predicate ProductAnswered(d: Db, id: int, price: int, stock: int, r: Result<Db>) {
    && (stock < 0 ==> r == Err(InvalidInventory))
    && (stock >= 0 && (Int32(price) < 0 || Int32(stock) < 0) ==> r == Err(CheckViolation))
    && (stock >= 0 && Int32(price) >= 0 && Int32(stock) >= 0 ==>
          r == Ok(d.(products := d.products[id := Int32(price)], inventory := d.inventory[id := Int32(stock)])))
    && (0 <= price <= 0x7FFF_FFFF && 0 <= stock <= 0x7FFF_FFFF ==>
          r == Ok(d.(products := d.products[id := price], inventory := d.inventory[id := stock])))
  }

  lemma ProductAnswers(d: Db, id: int, price: int, stock: int)
    requires Consistent(d) && id !in d.products
    ensures ProductAnswered(d, id, price, stock, NewProduct(d, id, price, stock))
  {
    hide Int32;
    NarrowingIsExact(price);
    NarrowingIsExact(stock);
  }

  /** A positive number of units is added to a product's stock if the sum fits. */
  ghost predicate RestockAnswered(d: Db, p: int, amount: int, r: Result<Db>) {
    && (amount <= 0 ==> r == Err(StockNotPositive))
    && (amount > 0 && p !in d.inventory ==> r == Err(NoRows))
    && (amount > 0 && p in d.inventory && d.inventory[p] + amount > 0x7FFF_FFFF ==> r == Err(OutOfRange))
    && (amount > 0 && p in d.inventory && d.inventory[p] + amount <= 0x7FFF_FFFF ==>
          r == Ok(d.(inventory := d.inventory[p := d.inventory[p] + amount])))
  }

  lemma RestockAnswers(d: Db, p: int, amount: int)
    ensures RestockAnswered(d, p, amount, Restock(d, p, amount))
  {}
}
