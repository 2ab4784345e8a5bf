/**
 Any number of checkouts, restocks and order creations running at once against
 one PostgreSQL database at READ COMMITTED, one statement or one row-lock
 grant a step. Item edits and new products are whole transactions; an edit of
 an order waits while a checkout of that order is between its item read and its end.
 */
module Interleaving {
  import opened Collections
  import opened Tables
  import opened Statements
  import T = Transactions

  datatype Job =
    | CheckoutJob(order: int)
    | RestockJob(product: int, amount: int4)
    | CreateJob(user: int, key: string)

  datatype Answer = Committed | Created(order: int) | Failed(error: Error)

  /** Where a transaction is, with what it has read and what it has written but not committed. */
  datatype Pc =
    | Begun
    | StatusRead
    | Locking(wanted: seq<Row>, got: seq<Row>)
    | Charging(rows: seq<Row>, next: nat, writes: map<int, int>)
    | Closing(rows: seq<Row>, writes: map<int, int>)
    | Restocked(stock: int)
    | Conflicted
    | Finished(answer: Answer)

  datatype Txn = Txn(job: Job, pc: Pc)

  datatype RowLock = Inventory(product: int) | OrderRow(order: int)

  /** The committed tables, the transactions, and the operations committed so far, in commit order. */
  datatype State = State(db: Db, txns: map<nat, Txn>, log: seq<T.Op>, nextOrder: int, nextProduct: int)

  predicate Has(rows: seq<Row>, p: int) {
    exists i :: 0 <= i < |rows| && rows[i].product == p
  }

  /** Locks are kept from their grant to the end of the transaction. */
  predicate Holds(txn: Txn, l: RowLock) {
    match txn
    case Txn(CheckoutJob(_), Locking(_, got)) => l.Inventory? && Has(got, l.product)
    case Txn(CheckoutJob(_), Charging(rows, _, _)) => l.Inventory? && Has(rows, l.product)
    case Txn(CheckoutJob(o), Closing(rows, _)) => if l.Inventory? then Has(rows, l.product) else l.order == o
    case Txn(RestockJob(p, _), Restocked(_)) => l == Inventory(p)
    case _ => false
  }

  /** The lock that the next statement, or the rest of the current one, has to wait for. */
  function Wants(txn: Txn): Option<RowLock> {
    match txn
    case Txn(CheckoutJob(_), Locking(wanted, got)) =>
      if |got| < |wanted| then Some(Inventory(wanted[|got|].product)) else None
    case Txn(CheckoutJob(o), Charging(rows, next, _)) => if next < |rows| then None else Some(OrderRow(o))
    case Txn(RestockJob(p, amount), Begun) => if amount > 0 then Some(Inventory(p)) else None
    case _ => None
  }

  predicate WaitsFor(s: State, t: nat, u: nat) {
    && t in s.txns && u in s.txns && t != u
    && Wants(s.txns[t]).Some? && Holds(s.txns[u], Wants(s.txns[t]).value)
  }

  predicate Live(s: State, t: nat) {
    t in s.txns && !s.txns[t].pc.Finished?
  }

  predicate CanRun(s: State, t: nat) {
    Live(s, t) && forall u | u in s.txns :: !WaitsFor(s, t, u)
  }

  /** The steps that commit nothing. */
  function Advance(d: Db, txn: Txn): Pc {
    match txn
    case Txn(CheckoutJob(o), Begun) =>
      var status := GetOrderStatus(d, o);
      if status.Err? then Finished(Failed(status.error))
      else if status.value != Started then Finished(Failed(CannotCheckout))
      else StatusRead
    case Txn(CheckoutJob(o), StatusRead) => Locking(GetCheckoutItems(d, o), [])
    case Txn(CheckoutJob(_), Locking(wanted, got)) =>
      if |got| < |wanted| then
        var row := wanted[|got|];
        // The row is read again when its lock is granted.
        Locking(wanted, got + [row.(stock := if row.product in d.inventory then d.inventory[row.product] else 0)])
      else if got == [] then Finished(Failed(EmptyOrder))
      else Charging(got, 0, map[])
    case Txn(CheckoutJob(o), Charging(rows, next, writes)) =>
      if next < |rows| then
        var row := rows[next];
        var own := d.(inventory := d.inventory + writes);
        var left := DecreaseInventoryStock(own, row.product, row.quantity);
        if row.quantity > row.stock then Finished(Failed(InsufficientStock(row.product)))
        else if left.Err? then Finished(Failed(left.error))
        else Charging(rows, next + 1, writes[row.product := own.inventory[row.product] - row.quantity])
      else if UpdateOrderStatus(d, o).Err? then Finished(Failed(UpdateOrderStatus(d, o).error))
      else Closing(rows, writes)
    case Txn(RestockJob(p, amount), Begun) =>
      var added := IncreaseProductStock(d, p, amount);
      if amount <= 0 then Finished(Failed(StockNotPositive))
      else if added.Err? then Finished(Failed(added.error))
      else Restocked(added.value.inventory[p])
    case Txn(CreateJob(user, key), Conflicted) =>
      var found := GetOrderByUserIdAndIdempotencyKey(d, user, key);
      if found.Err? then Finished(Failed(found.error)) else Finished(Created(found.value))
    case Txn(_, pc) => pc
  }

  function Goto(s: State, t: nat, pc: Pc): State
    requires t in s.txns
  {
    s.(txns := s.txns[t := s.txns[t].(pc := pc)])
  }

  /** Commits `op`: the tables become `d` for everyone. */
  function Publish(s: State, t: nat, d: Db, op: T.Op, answer: Answer): State
    requires t in s.txns
  {
    Goto(s, t, Finished(answer)).(db := d, log := s.log + [op])
  }

  /** What the tables become when a checkout's own writes are published. */
  function WithWrites(d: Db, o: int, writes: map<int, int>): Db {
    d.(inventory := d.inventory + writes,
       orders := if o in d.orders then d.orders[o := d.orders[o].(status := Pending)] else d.orders)
  }

  function RunTxn(s: State, t: nat): State
    requires t in s.txns
  {
    match s.txns[t]
    case Txn(CheckoutJob(o), Closing(_, writes)) =>
      Publish(s, t, WithWrites(s.db, o, writes), T.Pay(o), Committed)
    case Txn(RestockJob(p, amount), Restocked(stock)) =>
      Publish(s, t, s.db.(inventory := s.db.inventory[p := stock]), T.Refill(p, amount), Committed)
    case Txn(CreateJob(user, key), Begun) =>
      var inserted := AddOrder(s.db, s.nextOrder, user, key, 0);
      // The sequence moves on even when nothing is inserted.
      var s' := s.(nextOrder := s.nextOrder + 1);
      if inserted.Ok? then Publish(s', t, inserted.value, T.Create(s.nextOrder, user, key), Created(s.nextOrder))
      else if inserted.error == NoRows then Goto(s', t, Conflicted)
      else Goto(s', t, Finished(Failed(inserted.error)))
    case txn => Goto(s, t, Advance(s.db, txn))
  }

  datatype Event =
    | Begin(t: nat, job: Job)
    | Run(t: nat)
    | Fault(t: nat)
    | AddProduct(price: int, stock: int)
    | AddItem(order: int, product: int, quantity: int4)
    | EditItem(order: int, product: int, quantity: int4)

  /** A checkout of `o` that has read the items and is not over. */
  predicate PastItemRead(txn: Txn, o: int) {
    txn.job == CheckoutJob(o) && (txn.pc.Locking? || txn.pc.Charging? || txn.pc.Closing?)
  }

  predicate EditMayRun(s: State, o: int) {
    forall t | t in s.txns :: !PastItemRead(s.txns[t], o)
  }

  function Whole(s: State, op: T.Op): State {
    var r := T.Apply(s.db, op);
    if r.Ok? then s.(db := r.value, log := s.log + [op]) else s
  }

  /** One step of the whole system. An event that cannot happen now changes nothing. */
  function Step(s: State, e: Event): State {
    match e
    case Begin(t, job) => if t in s.txns then s else s.(txns := s.txns[t := Txn(job, Begun)])
    case Run(t) => if CanRun(s, t) then RunTxn(s, t) else s
    case Fault(t) => if Live(s, t) then Goto(s, t, Finished(Failed(ConnectionLost))) else s
    case AddProduct(price, stock) =>
      if stock < 0 then s
      else Whole(s, T.Stock(s.nextProduct, price, stock)).(nextProduct := s.nextProduct + 1)
    case AddItem(o, p, q) => if EditMayRun(s, o) then Whole(s, T.Add(o, p, q)) else s
    case EditItem(o, p, q) => if EditMayRun(s, o) then Whole(s, T.Edit(o, p, q)) else s
  }

  function Exec(s: State, es: seq<Event>): State {
    if es == [] then s else Step(Exec(s, es[..|es| - 1]), es[|es| - 1])
  }

  /** A database nobody is using yet. */
  ghost predicate Initial(s: State) {
    && Consistent(s.db) && T.Sequenced(s.db, s.nextOrder, s.nextProduct)
    && s.txns == map[] && s.log == []
  }
}
