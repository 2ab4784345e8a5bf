/** The SQL statements of the order service, each as a function of the tables it runs against. */
module Statements {
  import opened Collections
  import opened Tables

  /** One row of the checkout join. */
  datatype Row = Row(product: int, stock: int, quantity: int)

  /** The id comes from a sequence, so it is an input; a conflict inserts nothing and returns no row. */
  function AddOrder(d: Db, id: int, user: int, key: string, total: int): Result<Db> {
    if exists o | o in d.orders :: d.orders[o].user == user && d.orders[o].key == key then Err(NoRows)
    else if user !in d.users then Err(ForeignKey)
    else if total < 0 then Err(CheckViolation)
    else if id in d.orders then Err(UniqueViolation)
    else Ok(d.(orders := d.orders[id := Order(user, key, Started, total)]))
  }

  function GetOrderByUserIdAndIdempotencyKey(d: Db, user: int, key: string): Result<int> {
    var found := set o | o in d.orders && d.orders[o].user == user && d.orders[o].key == key;
    if found == {} then Err(NoRows) else Ok(Min(found))
  }

  /** Copies the product's price into the new item. */
  function AddProductOrderItem(d: Db, p: int, o: int, quantity: int): Result<Db> {
    if p !in d.products then Err(NoRows)
    else if quantity <= 0 then Err(CheckViolation)
    else if (o, p) in d.items then Err(UniqueViolation)
    else if o !in d.orders then Err(ForeignKey)
    else Ok(d.(items := d.items[(o, p) := Item(quantity, d.products[p])]))
  }

  function EditProductQuantityOrderItem(d: Db, quantity: int, p: int, o: int): Result<Db> {
    if (o, p) !in d.items then Err(NoRows)
    else if quantity <= 0 then Err(CheckViolation)
    else Ok(d.(items := d.items[(o, p) := d.items[(o, p)].(quantity := quantity)]))
  }

  function RemoveProductQuantityOrderItem(d: Db, p: int, o: int): Result<Db> {
    if (o, p) !in d.items then Err(NoRows)
    else Ok(d.(items := d.items - {(o, p)}))
  }

  function GetOrderStatus(d: Db, o: int): Result<Status> {
    if o !in d.orders then Err(NoRows) else Ok(d.orders[o].status)
  }

  function CheckoutRow(d: Db, o: int, p: int): Row
    requires (o, p) in d.items && p in d.inventory
  {
    Row(p, d.inventory[p], d.items[(o, p)].quantity)
  }

  /** The inventory of each product of the order, with the quantity asked for, by ascending product. */
  function GetCheckoutItems(d: Db, o: int): (rows: seq<Row>)
    ensures forall i, j | 0 <= i < j < |rows| :: rows[i].product < rows[j].product
    ensures forall i | 0 <= i < |rows| ::
              && (o, rows[i].product) in d.items && rows[i].product in d.inventory
              && rows[i] == CheckoutRow(d, o, rows[i].product)
    ensures forall p | (o, p) in d.items && p in d.inventory :: exists i :: 0 <= i < |rows| && rows[i].product == p
  {
    RowsOf(d, o, CheckoutProducts(d, o))
  }

  function RowsOf(d: Db, o: int, ps: seq<int>): (rows: seq<Row>)
    requires forall i | 0 <= i < |ps| :: (o, ps[i]) in d.items && ps[i] in d.inventory
    ensures |rows| == |ps|
    ensures forall i | 0 <= i < |ps| :: rows[i].product == ps[i] && rows[i] == CheckoutRow(d, o, ps[i])
  {
    seq(|ps|, i requires 0 <= i < |ps| => CheckoutRow(d, o, ps[i]))
  }

  /** The products of an order that have an inventory row. */
  function CheckoutProducts(d: Db, o: int): (ps: seq<int>)
    ensures forall i, j | 0 <= i < j < |ps| :: ps[i] < ps[j]
    ensures forall i | 0 <= i < |ps| :: (o, ps[i]) in d.items && ps[i] in d.inventory
    ensures forall p | (o, p) in d.items && p in d.inventory :: exists i :: 0 <= i < |ps| && ps[i] == p
  {
    var stocked := Basket(d.items, o).Keys * d.inventory.Keys;
    var ps := Sorted(stocked);
    assert forall i | 0 <= i < |ps| :: ps[i] in ps;
    assert forall p | (o, p) in d.items && p in d.inventory :: p in ps;
    ps
  }

  function DecreaseInventoryStock(d: Db, p: int, quantity: int): Result<Db> {
    if p !in d.inventory then Err(NoRows)
    else if !Int4(d.inventory[p] - quantity) then Err(OutOfRange)
    else if d.inventory[p] - quantity < 0 then Err(CheckViolation)
    else Ok(d.(inventory := d.inventory[p := d.inventory[p] - quantity]))
  }

  function IncreaseProductStock(d: Db, p: int, amount: int): Result<Db> {
    if p !in d.inventory then Err(NoRows)
    else if !Int4(d.inventory[p] + amount) then Err(OutOfRange)
    else if d.inventory[p] + amount < 0 then Err(CheckViolation)
    else Ok(d.(inventory := d.inventory[p := d.inventory[p] + amount]))
  }

  /** The guard: no row unless the order is still started. */
  function UpdateOrderStatus(d: Db, o: int): Result<Db> {
    if o !in d.orders || d.orders[o].status != Started then Err(NoRows)
    else Ok(d.(orders := d.orders[o := d.orders[o].(status := Pending)]))
  }

  /** Recomputes the total; each product and the sum must fit the column type. */
  function UpdateOrderTotal(d: Db, o: int): Result<Db> {
    var ls := Lines(Basket(d.items, o));
    if o !in d.orders then Ok(d)
    else if exists p | p in ls :: !Int4(ls[p]) then Err(OutOfRange)
    else if !Int4(Sum(ls)) then Err(OutOfRange)
    else if Sum(ls) < 0 then Err(CheckViolation)
    else Ok(d.(orders := d.orders[o := d.orders[o].(total := Sum(ls))]))
  }

  function AddProduct(d: Db, id: int, price: int): Result<Db> {
    if price < 0 then Err(CheckViolation)
    else if id in d.products then Err(UniqueViolation)
    else Ok(d.(products := d.products[id := price]))
  }

  function InsertInventory(d: Db, p: int, stock: int): Result<Db> {
    if stock < 0 then Err(CheckViolation)
    else if p in d.inventory then Err(UniqueViolation)
    else if p !in d.products then Err(ForeignKey)
    else Ok(d.(inventory := d.inventory[p := stock]))
  }

  /** In a consistent database the join is the order's basket, one row an item, and nothing else. */
  lemma JoinIsBasket(d: Db, o: int)
    requires Consistent(d)
    ensures var rows := GetCheckoutItems(d, o);
            && |rows| == |Basket(d.items, o)|
            && forall p :: (o, p) in d.items <==> exists i :: 0 <= i < |rows| && rows[i].product == p
  {
    var b := Basket(d.items, o);
    assert b.Keys <= d.inventory.Keys by {
      forall p | p in b ensures p in d.inventory { assert (o, p) in d.items; }
    }
    assert b.Keys * d.inventory.Keys == b.Keys;
    assert |b| == |b.Keys|;
    assert |CheckoutProducts(d, o)| == |b.Keys|;
  }

  /** The stock that a prefix of the join's rows leaves behind. */
  function Decremented(rows: seq<Row>): map<int, int> {
    if rows == [] then map[] else
    var last := rows[|rows| - 1];
    Decremented(rows[..|rows| - 1])[last.product := last.stock - last.quantity]
  }

  lemma {:induction false} DecrementedAt(rows: seq<Row>)
    requires forall i, j | 0 <= i < j < |rows| :: rows[i].product < rows[j].product
    ensures forall i | 0 <= i < |rows| ::
              && rows[i].product in Decremented(rows)
              && Decremented(rows)[rows[i].product] == rows[i].stock - rows[i].quantity
    ensures forall p | p in Decremented(rows) :: exists i :: 0 <= i < |rows| && rows[i].product == p
  {
    if rows != [] {
      var front := rows[..|rows| - 1];
      DecrementedAt(front);
      forall p | p in Decremented(rows) ensures exists i :: 0 <= i < |rows| && rows[i].product == p {
        if p in Decremented(front) {
          var i :| 0 <= i < |front| && front[i].product == p;
          assert rows[i].product == p;
        }
      }
    }
  }

  lemma SameProducts(d: Db, d': Db, o: int)
    requires Basket(d.items, o) == Basket(d'.items, o)
    requires forall p | (o, p) in d.items :: p in d.inventory && p in d'.inventory
    ensures CheckoutProducts(d, o) == CheckoutProducts(d', o)
  {
    var b := Basket(d.items, o);
    forall p | p in b.Keys ensures p in d.inventory.Keys && p in d'.inventory.Keys {
      assert (o, p) in d.items;
    }
    assert b.Keys * d.inventory.Keys == b.Keys;
    assert b.Keys * d'.inventory.Keys == b.Keys;
  }

  /** The rows an order would get do not move while its basket does not, save for the stock column. */
  lemma RowsFollowStock(d: Db, d': Db, o: int)
    requires Basket(d.items, o) == Basket(d'.items, o)
    requires forall p | (o, p) in d.items :: p in d.inventory && p in d'.inventory
    ensures var rows, rows' := GetCheckoutItems(d, o), GetCheckoutItems(d', o);
            && |rows| == |rows'|
            && forall i | 0 <= i < |rows| ::
                 && rows'[i].product in d'.inventory
                 && rows'[i] == rows[i].(stock := d'.inventory[rows'[i].product])
  {
    SameProducts(d, d', o);
    hide CheckoutProducts, RowsOf, Basket;
    var ps := CheckoutProducts(d, o);
    forall i | 0 <= i < |ps| ensures d'.items[(o, ps[i])] == d.items[(o, ps[i])] {
      assert ps[i] in Basket(d.items, o) && ps[i] in Basket(d'.items, o);
    }
  }
}
