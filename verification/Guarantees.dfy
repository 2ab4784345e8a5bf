/** What the order service promises of every interleaved run. */
module Guarantees {
  import opened Collections
  import opened Tables
  import opened Statements
  import T = Transactions
  import A = Answers
  import H = History
  import opened Interleaving
  import opened Serializability

  /** The answer that transaction `t` has in `s`, if it has one. */
  predicate Answered(s: State, t: nat, a: Answer) {
    t in s.txns && s.txns[t].pc == Finished(a)
  }

  /** A step changes the tables only as one more operation, which it logs. */
  lemma StepIsOperation(d0: Db, s: State, e: Event)
    requires Inv(d0, s)
    ensures var s' := Step(s, e);
            || (s'.db == s.db && s'.log == s.log)
            || exists op :: s'.log == s.log + [op] && T.Apply(s.db, op) == Ok(s'.db)
  {
    hide Consistent, T.Apply, AddOrder, Fits, CanRun;
    var s' := Step(s, e);
    StepKeeps(d0, s, e);
    if s'.log != s.log {
      var op := s'.log[|s.log|];
      assert s'.log == s.log + [op];
      assert s'.log[..|s.log|] == s.log;
      assert T.Apply(s.db, op) == Ok(s'.db);
    }
  }

  /** What a transaction commits when it succeeds. */
  predicate CommitOf(job: Job, a: Answer, op: T.Op) {
    match job
    case CheckoutJob(o) => a == Committed && op == T.Pay(o)
    case RestockJob(p, amount) => a == Committed && op == T.Refill(p, amount)
    case CreateJob(user, key) => a.Created? && op == T.Create(a.order, user, key)
  }

  /** The step from `s` to `s'` gives `t` an answer that is no failure. */
  predicate Succeeds(s: State, s': State, t: nat)
    requires t in s.txns && t in s'.txns
  {
    !s.txns[t].pc.Finished? && s'.txns[t].pc.Finished? && !s'.txns[t].pc.answer.Failed?
  }

  /**
   All or nothing: the step that gives a transaction its success commits its
   whole operation, once; every other step of it, and its abort, leaves the
   committed tables and the log alone. Only a create that found its key taken
   succeeds without committing anything.
   */
  lemma OnlySuccessCommits(d0: Db, s: State, t: nat)
    requires Inv(d0, s) && t in s.txns
    ensures var s' := Step(s, Run(t));
            if Succeeds(s, s', t) && !s.txns[t].pc.Conflicted? then
              exists op :: CommitOf(s.txns[t].job, s'.txns[t].pc.answer, op)
                           && s'.log == s.log + [op] && T.Apply(s.db, op) == Ok(s'.db)
            else s'.db == s.db && s'.log == s.log
    ensures var s' := Step(s, Fault(t)); s'.db == s.db && s'.log == s.log
  {
    hide Consistent, T.Apply, GetCheckoutItems, CanRun, AddOrder;
    var s' := Step(s, Run(t));
    StepIsOperation(d0, s, Run(t));
    assert Fits(s.db, s.txns[t]);
    if Succeeds(s, s', t) && !s.txns[t].pc.Conflicted? {
      var op := s'.log[|s.log|];
      assert s'.log == s.log + [op];
      assert CommitOf(s.txns[t].job, s'.txns[t].pc.answer, op);
    }
  }

  /** Conservation, for every product and every run, together with the bounds of the stock column. */
  lemma StockConserved(s: State, es: seq<Event>, p: int)
    requires Initial(s)
    ensures var s' := Exec(s, es);
            && H.OnHand(s'.db, p) + H.Sold(s'.db, p) == H.OnHand(s.db, p) + H.Sold(s.db, p) + H.Supplied(s'.log, p)
            && 0 <= H.OnHand(s'.db, p) <= MAX_INT4
  {
    hide Exec;
    InitialInv(s);
    ExecKeeps(s.db, s, es);
    H.ReplayConserves(s.db, Exec(s, es).log, p);
  }

  /** The log of any run pays for each order at most once. */
  lemma LoggedAtMostOnce(s: State, es: seq<Event>)
    requires Initial(s)
    ensures var log := Exec(s, es).log;
            forall i, j | 0 <= i < j < |log| && log[i].Pay? && log[j].Pay? :: log[i].order != log[j].order
  {
    hide Exec, Initial;
    InitialInv(s);
    ExecKeeps(s.db, s, es);
    H.PaidAtMostOnce(s.db, Exec(s, es).log);
  }

  /** However many checkouts of one order run at once, at most one commits. */
  lemma ChargedAtMostOnce(s: State, es: seq<Event>, t: nat, u: nat, o: int)
    requires Initial(s)
    requires var s' := Exec(s, es);
             && t in s'.txns && u in s'.txns && s'.txns[t].job == s'.txns[u].job == CheckoutJob(o)
             && Answered(s', t, Committed) && Answered(s', u, Committed)
    ensures t == u
  {
    hide Exec, Initial;
    InitialInv(s);
    ExecKeeps(s.db, s, es);
    assert Paid(Exec(s, es).txns[t], o) && Paid(Exec(s, es).txns[u], o);
  }

  /** In every reachable state each order's total is what its items cost, at the products' prices, and fits its column. */
  lemma TotalsAreRight(s: State, es: seq<Event>, o: int)
    requires Initial(s) && o in Exec(s, es).db.orders
    ensures var d := Exec(s, es).db;
            && d.orders[o].total == Owed(d, o) && 0 <= d.orders[o].total <= MAX_INT4
            && forall p | (o, p) in d.items :: p in d.products && d.items[(o, p)].unitPrice == d.products[p]
  {
    hide Exec;
    InitialInv(s);
    ExecKeeps(s.db, s, es);
  }

  lemma {:induction false} NothingThaws(d0: Db, s: State, es: seq<Event>, o: int)
    requires Inv(d0, s) && o in s.db.orders && s.db.orders[o].status != Started
    ensures H.SameOrder(s.db, Exec(s, es).db, o)
  {
    hide Inv, Step, T.Apply;
    if es != [] {
      var front := es[..|es| - 1];
      var mid := Exec(s, front);
      NothingThaws(d0, s, front, o);
      ExecKeeps(d0, s, front);
      StepIsOperation(d0, mid, es[|es| - 1]);
      var s' := Step(mid, es[|es| - 1]);
      if s'.db != mid.db {
        var op :| s'.log == mid.log + [op] && T.Apply(mid.db, op) == Ok(s'.db);
        H.ApplyFreezes(mid.db, op, o);
      }
    }
  }

  /** Once an order has left `started`, no later step of any transaction changes its record or its items. */
  lemma PendingOrdersAreFrozen(s: State, before: seq<Event>, after: seq<Event>, o: int)
    requires Initial(s)
    requires var mid := Exec(s, before); o in mid.db.orders && mid.db.orders[o].status != Started
    ensures var mid := Exec(s, before); H.SameOrder(mid.db, Exec(mid, after).db, o)
  {
    hide Exec, Initial;
    InitialInv(s);
    ExecKeeps(s.db, s, before);
    NothingThaws(s.db, Exec(s, before), after, o);
  }

  lemma {:induction false} AnswersStand(s: State, es: seq<Event>, t: nat)
    requires t in s.txns && s.txns[t].pc.Finished?
    ensures t in Exec(s, es).txns && Exec(s, es).txns[t] == s.txns[t]
  {
    hide RunTxn;
    if es != [] {
      AnswersStand(s, es[..|es| - 1], t);
      StepLeavesFinished(Exec(s, es[..|es| - 1]), es[|es| - 1], t);
    }
  }

  lemma StepLeavesFinished(s: State, e: Event, t: nat)
    requires t in s.txns && s.txns[t].pc.Finished?
    ensures t in Step(s, e).txns && Step(s, e).txns[t] == s.txns[t]
  {
    hide T.Apply, AddOrder, Advance;
  }

  /**
   Idempotent creation. Two creates that were answered, the second possibly
   much later than the first, were given the same order exactly when they came
   from the same user with the same key; and the first one's order is still there.
   */
  lemma CreatesAgree(s: State, before: seq<Event>, after: seq<Event>, t: nat, u: nat, o: int, o': int)
    requires Initial(s)
    requires Answered(Exec(s, before), t, Created(o)) && Exec(s, before).txns[t].job.CreateJob?
    requires var end := Exec(Exec(s, before), after); Answered(end, u, Created(o')) && end.txns[u].job.CreateJob?
    ensures var end := Exec(Exec(s, before), after);
            && o in end.db.orders
            && (o == o' <==> Exec(s, before).txns[t].job == end.txns[u].job)
  {
    hide Exec, Initial, Consistent;
    InitialInv(s);
    ExecKeeps(s.db, s, before);
    var mid := Exec(s, before);
    ExecKeeps(s.db, mid, after);
    AnswersStand(mid, after, t);
    var end := Exec(mid, after);
    KeysAreUnique(end.db);
    assert Fits(end.db, end.txns[t]) && Fits(end.db, end.txns[u]);
    assert o == o' || !SameKey(end.db.orders[o], end.db.orders[o']);
  }

  /** After a conflict the fallback read always finds the order. */
  lemma FallbackNeverMisses(s: State, es: seq<Event>, t: nat)
    requires Initial(s)
    requires t in Exec(s, es).txns && Exec(s, es).txns[t].job.CreateJob? && Exec(s, es).txns[t].pc.Conflicted?
    ensures var s' := Exec(s, es);
            exists o :: Answered(Step(s', Run(t)), t, Created(o))
                        && HasKey(s'.db, o, s'.txns[t].job.user, s'.txns[t].job.key)
  {
    hide Exec, Initial, Consistent;
    InitialInv(s);
    ExecKeeps(s.db, s, es);
    var s' := Exec(s, es);
    var job := s'.txns[t].job;
    assert Fits(s'.db, s'.txns[t]);
    var o :| HasKey(s'.db, o, job.user, job.key);
    KeysAreUnique(s'.db);
    T.FallbackFinds(s'.db, job.user, job.key, o);
    assert CanRun(s', t);
    assert Answered(Step(s', Run(t)), t, Created(o));
  }

  /** A statement of the checkout of `o` has just refused it with `e`. */
  predicate Refuses(s: State, t: nat, o: int, e: Error) {
    && Live(s, t) && s.txns[t].job == CheckoutJob(o)
    && Answered(Step(s, Run(t)), t, Failed(e))
  }

  /** The tables as they would be if the order had never been closed. */
  function Reopened(d: Db, o: int): Db {
    if o in d.orders then d.(orders := d.orders[o := d.orders[o].(status := Started)]) else d
  }

  lemma ShortRowRefuses(d: Db, o: int, i: nat)
    requires Consistent(d) && o in d.orders
    requires var rows := GetCheckoutItems(d, o);
             && i < |rows| && rows[i].stock < rows[i].quantity
             && forall j | 0 <= j < i :: rows[j].quantity <= rows[j].stock
    ensures T.Checkout(Reopened(d, o), o) == Err(InsufficientStock(GetCheckoutItems(d, o)[i].product))
  {
    hide Consistent, GetCheckoutItems, T.Shortage, Basket;
    ReopenedIsTheSame(d, o);
    T.JoinEmptyIffBasketEmpty(d, o);
    T.FirstShortRow(d, o, i);
  }

  lemma AmpleRowPasses(d: Db, o: int, rows: seq<Row>, next: nat, writes: map<int, int>)
    requires Consistent(d) && Fits(d, Txn(CheckoutJob(o), Charging(rows, next, writes)))
    requires next < |rows| && rows[next].quantity <= rows[next].stock
    ensures Advance(d, Txn(CheckoutJob(o), Charging(rows, next, writes))).Charging?
  {
    hide Consistent, GetCheckoutItems, Decremented;
    T.TakeRow(d, o, next);
  }

  /** A checkout turned away at a row is turned away for what the whole operation says of the open order. */
  lemma RowRefuses(d: Db, o: int, rows: seq<Row>, next: nat, writes: map<int, int>, e: Error)
    requires Consistent(d) && Fits(d, Txn(CheckoutJob(o), Charging(rows, next, writes))) && next < |rows|
    requires Advance(d, Txn(CheckoutJob(o), Charging(rows, next, writes))) == Finished(Failed(e))
    ensures T.Checkout(Reopened(d, o), o) == Err(e)
  {
    hide Consistent, GetCheckoutItems, T.Checkout, Reopened, DecreaseInventoryStock;
    if rows[next].quantity > rows[next].stock {
      ShortRowRefuses(d, o, next);
    } else {
      AmpleRowPasses(d, o, rows, next, writes);
    }
  }

  lemma NothingRefuses(d: Db, o: int)
    requires Consistent(d) && o in d.orders && GetCheckoutItems(d, o) == []
    ensures T.Checkout(Reopened(d, o), o) == Err(EmptyOrder)
  {
    hide Consistent, GetCheckoutItems;
    T.JoinEmptyIffBasketEmpty(d, o);
  }

  lemma GuardRefuses(d: Db, o: int, rows: seq<Row>, writes: map<int, int>)
    requires Consistent(d) && Fits(d, Txn(CheckoutJob(o), Charging(rows, |rows|, writes)))
    ensures T.Checkout(Reopened(d, o), o).Ok?
  {
    hide Consistent, GetCheckoutItems, T.Shortage;
    ReopenedIsTheSame(d, o);
    T.JoinEmptyIffBasketEmpty(d, o);
    T.NoShortRow(d, o);
  }

  lemma StatusRefuses(d: Db, o: int)
    ensures GetOrderStatus(d, o).Err? ==> T.Checkout(d, o) == Err(GetOrderStatus(d, o).error)
    ensures GetOrderStatus(d, o).Ok? && GetOrderStatus(d, o).value != Started ==> T.Checkout(d, o) == Err(CannotCheckout)
  {}

  /**
   A refusal is the truth of its moment: it is what checking the order out in
   one piece would answer just then. Only if another checkout has closed the
   order since its status was read is it different: it is then what the same
   order would be refused for if it were still open, and no rows if for nothing.
   */
  lemma RefusalsAreTrue(d0: Db, s: State, t: nat, o: int, e: Error)
    requires Inv(d0, s) && Refuses(s, t, o, e)
    ensures s.txns[t].pc.Begun? ==> T.Checkout(s.db, o) == Err(e)
    ensures A.CheckoutAnswered(s.db, o, T.Checkout(s.db, o))
    ensures !s.txns[t].pc.Begun? ==>
              && o in s.db.orders
              && (s.db.orders[o].status == Started ==> T.Checkout(s.db, o) == Err(e))
              && (s.db.orders[o].status != Started ==>
                    if T.Checkout(Reopened(s.db, o), o).Err? then T.Checkout(Reopened(s.db, o), o) == Err(e) else e == NoRows)
  {
    hide Consistent, GetCheckoutItems, CanRun, AddOrder, T.Checkout, DecreaseInventoryStock, A.CheckoutAnswered;
    A.CheckoutAnswers(s.db, o);
    assert Fits(s.db, s.txns[t]);
    assert o in s.db.orders && s.db.orders[o].status == Started ==> Reopened(s.db, o) == s.db;
    match s.txns[t]
    case Txn(CheckoutJob(o), Begun) => StatusRefuses(s.db, o);
    case Txn(CheckoutJob(o), Locking(wanted, got)) => NothingRefuses(s.db, o);
    case Txn(CheckoutJob(o), Charging(rows, next, writes)) =>
      if next < |rows| { RowRefuses(s.db, o, rows, next, writes, e); } else { GuardRefuses(s.db, o, rows, writes); }
    case _ =>
  }

  lemma ReopenedIsTheSame(d: Db, o: int)
    ensures var d' := Reopened(d, o);
            d'.items == d.items && T.Shortage(d', o) == T.Shortage(d, o)
  {}

  // ------------------------------------------------ what restocks and creates are answered

  /** The row is locked and the sum computed: the next step of the restock, whenever it comes, commits it. */
  lemma RestockCommits(d0: Db, s: State, t: nat, p: int, amount: int4)
    requires Inv(d0, s) && t in s.txns && s.txns[t].job == RestockJob(p, amount) && s.txns[t].pc.Restocked?
    ensures p in s.db.inventory && 0 < amount
    ensures var s' := Step(s, Run(t));
            && Answered(s', t, Committed)
            && s'.db == s.db.(inventory := s.db.inventory[p := s.db.inventory[p] + amount])
  {
    hide Consistent, T.Replay;
    assert Fits(s.db, s.txns[t]);
    assert CanRun(s, t);
  }

  /**
   A restock that has its row, or asks for none, is refused exactly for a number
   that is not positive, for a product that has no stock row, and for a sum that
   does not fit; any other goes on, and commits with its next step.
   */
  lemma RestockIsAnswered(d0: Db, s: State, t: nat, p: int, amount: int4)
    requires Inv(d0, s) && CanRun(s, t) && s.txns[t] == Txn(RestockJob(p, amount), Begun)
    ensures var s' := Step(s, Run(t));
            && t in s'.txns && s'.db == s.db
            && (amount <= 0 ==> Answered(s', t, Failed(StockNotPositive)))
            && (amount > 0 && p !in s.db.inventory ==> Answered(s', t, Failed(NoRows)))
            && (amount > 0 && p in s.db.inventory && s.db.inventory[p] + amount > 0x7FFF_FFFF ==>
                  Answered(s', t, Failed(OutOfRange)))
            && (amount > 0 && p in s.db.inventory && s.db.inventory[p] + amount <= 0x7FFF_FFFF ==>
                  && !s'.txns[t].pc.Finished?
                  && var s2 := Step(s', Run(t));
                     && Answered(s2, t, Committed)
                     && s2.db == s.db.(inventory := s.db.inventory[p := s.db.inventory[p] + amount]))
  {
    hide Inv;
    var s' := Step(s, Run(t));
    StepKeeps(d0, s, Run(t));
    RestockStarts(d0, s, t, p, amount);
    if s'.txns[t].pc.Restocked? {
      RestockCommits(d0, s', t, p, amount);
    }
  }

  lemma RestockStarts(d0: Db, s: State, t: nat, p: int, amount: int4)
    requires Inv(d0, s) && CanRun(s, t) && s.txns[t] == Txn(RestockJob(p, amount), Begun)
    ensures var s' := Step(s, Run(t));
            && t in s'.txns && s'.db == s.db && s'.txns[t].job == RestockJob(p, amount)
            && (amount <= 0 ==> Answered(s', t, Failed(StockNotPositive)))
            && (amount > 0 && p !in s.db.inventory ==> Answered(s', t, Failed(NoRows)))
            && (amount > 0 && p in s.db.inventory ==>
                  if s.db.inventory[p] + amount > 0x7FFF_FFFF then Answered(s', t, Failed(OutOfRange))
                  else s'.txns[t].pc.Restocked?)
  {
    hide CanRun, T.Replay, T.Sequenced;
    assert p in s.db.inventory ==> 0 <= s.db.inventory[p];
  }

  /**
   A create is answered at its first step: with a new order of its own if its
   user is known and has no order under the key, with a refusal exactly if its
   user is unknown, and otherwise it goes on to read the order that is there.
   */
  lemma CreateIsAnswered(d0: Db, s: State, t: nat, user: int, key: string)
    requires Inv(d0, s) && t in s.txns && s.txns[t] == Txn(CreateJob(user, key), Begun)
    ensures var s' := Step(s, Run(t));
            && t in s'.txns
            && ((exists o :: HasKey(s.db, o, user, key)) ==> s'.txns[t].pc == Conflicted && s'.db == s.db)
            && ((forall o :: !HasKey(s.db, o, user, key)) && user in s.db.users ==>
                  exists o :: && o !in s.db.orders && Answered(s', t, Created(o))
                              && s'.db == s.db.(orders := s.db.orders[o := Order(user, key, Started, 0)]))
            && ((forall o :: !HasKey(s.db, o, user, key)) && user !in s.db.users ==>
                  Answered(s', t, Failed(ForeignKey)) && s'.db == s.db)
  {
    hide Consistent, T.Replay;
    assert CanRun(s, t);
    T.SequencedAfterCreate(s.db, s.nextOrder, s.nextProduct, user, key);
    forall o | o in s.db.orders && s.db.orders[o].user == user && s.db.orders[o].key == key ensures HasKey(s.db, o, user, key) {}
    if (forall o :: !HasKey(s.db, o, user, key)) && user in s.db.users {
      assert Answered(Step(s, Run(t)), t, Created(s.nextOrder));
    }
  }

  /** Edits and new products take place, all of them: an edit unless a checkout of its order is past its item read. */
  lemma EditsTakePlace(s: State, o: int, p: int, quantity: int4)
    requires Consistent(s.db)
    requires forall t | t in s.txns :: !PastItemRead(s.txns[t], o)
    ensures var r := T.AddItem(s.db, o, p, quantity);
            && A.AddAnswered(s.db, o, p, quantity, r)
            && Step(s, AddItem(o, p, quantity)).db == if r.Ok? then r.value else s.db
    ensures var r := T.EditItem(s.db, o, p, quantity);
            && A.EditAnswered(s.db, o, p, quantity, r)
            && Step(s, EditItem(o, p, quantity)).db == if r.Ok? then r.value else s.db
  {
    hide Consistent, T.AddItem, T.EditItem, A.AddAnswered, A.EditAnswered;
    A.AddAnswers(s.db, o, p, quantity);
    A.EditAnswers(s.db, o, p, quantity);
  }

  lemma ProductsTakePlace(s: State, price: int, stock: int)
    requires Consistent(s.db) && T.Sequenced(s.db, s.nextOrder, s.nextProduct)
    requires 0 <= price <= 0x7FFF_FFFF && 0 <= stock <= 0x7FFF_FFFF
    ensures var s' := Step(s, AddProduct(price, stock)); var id := s.nextProduct;
            && id !in s.db.products
            && s'.db == s.db.(products := s.db.products[id := price], inventory := s.db.inventory[id := stock])
  {
    hide Consistent;
    A.ProductAnswers(s.db, s.nextProduct, price, stock);
  }

  /** Any job may begin at any time, next to all that are under way, and a lost connection ends any that is not over. */
  lemma JobsBeginAndBreak(s: State, t: nat, job: Job)
    ensures t !in s.txns ==> Step(s, Begin(t, job)) == s.(txns := s.txns[t := Txn(job, Begun)])
    ensures t in s.txns && !s.txns[t].pc.Finished? ==>
              Step(s, Fault(t)) == s.(txns := s.txns[t := Txn(s.txns[t].job, Finished(Failed(ConnectionLost)))])
  {}
}
