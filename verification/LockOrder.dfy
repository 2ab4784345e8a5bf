/**
 The order in which the order service's transactions take their row locks,
 item edits included, one grant a step and whatever the locks guard left out:
 any transaction may also end at any moment, by commit or by rollback.
 */
module LockOrder {
  import opened Collections
  import Tables
  import S = Statements
  import I = Interleaving
  import Serializability

  /** An item's key is locked by inserting, changing or deleting the item. */
  datatype Lock = ItemKey(order: int, product: int) | Inventory(product: int) | OrderRow(order: int)

  datatype Job = Checkout(order: int, products: seq<int>) | Restock(product: int) | Edit(order: int, product: int)

  /** The locks a job takes, in the order its statements ask for them. */
  function Script(job: Job): seq<Lock> {
    match job
    case Checkout(o, ps) => seq(|ps|, i requires 0 <= i < |ps| => Inventory(ps[i])) + [OrderRow(o)]
    case Restock(p) => [Inventory(p)]
    case Edit(o, p) => [ItemKey(o, p), OrderRow(o)]
  }

  /** The checkout join comes sorted by product, one row a product. */
  predicate Ascends(job: Job) {
    job.Checkout? ==> forall i, j | 0 <= i < j < |job.products| :: job.products[i] < job.products[j]
  }

  datatype Txn = Txn(job: Job, granted: nat, over: bool)

  predicate Holds(txn: Txn, l: Lock) {
    !txn.over && exists i :: 0 <= i < |Script(txn.job)| && i < txn.granted && Script(txn.job)[i] == l
  }

  function Wants(txn: Txn): Option<Lock> {
    if !txn.over && txn.granted < |Script(txn.job)| then Some(Script(txn.job)[txn.granted]) else None
  }

  type State = map<nat, Txn>

  predicate WaitsFor(s: State, t: nat, u: nat) {
    t in s && u in s && t != u && Wants(s[t]).Some? && Holds(s[u], Wants(s[t]).value)
  }

  predicate Blocked(s: State, t: nat) {
    exists u | u in s :: WaitsFor(s, t, u)
  }

  datatype Event = Begin(t: nat, job: Job) | Grant(t: nat) | End(t: nat)

  function Step(s: State, e: Event): State {
    match e
    case Begin(t, job) => if t in s || !Ascends(job) then s else s[t := Txn(job, 0, false)]
    case Grant(t) =>
      if t in s && Wants(s[t]).Some? && !Blocked(s, t) then s[t := s[t].(granted := s[t].granted + 1)] else s
    case End(t) => if t in s then s[t := s[t].(over := true)] else s
  }

  function Exec(es: seq<Event>): State {
    if es == [] then map[] else Step(Exec(es[..|es| - 1]), es[|es| - 1])
  }

  ghost predicate Inv(s: State) {
    && (forall t | t in s :: Ascends(s[t].job))
    && (forall t, u, l | t in s && u in s && t != u && Holds(s[t], l) :: !Holds(s[u], l))
  }

  lemma GrantsOne(txn: Txn, l: Lock)
    requires Holds(txn.(granted := txn.granted + 1), l)
    ensures Holds(txn, l) || Wants(txn) == Some(l)
  {}

  lemma StepKeeps(s: State, e: Event)
    requires Inv(s)
    ensures Inv(Step(s, e))
  {
    hide Ascends, Wants;
    var s' := Step(s, e);
    forall t, u, l | t in s' && u in s' && t != u && Holds(s'[t], l) ensures !Holds(s'[u], l) {
      if e.Grant? && s' != s {
        if t == e.t { GrantsOne(s[t], l); assert !WaitsFor(s, t, u); }
        if u == e.t && Holds(s'[u], l) { GrantsOne(s[u], l); }
      }
    }
  }

  /** No two transactions ever hold the same lock, and every one of them keeps to its script. */
  lemma {:induction false} ExecKeeps(es: seq<Event>)
    ensures Inv(Exec(es))
  {
    if es != [] {
      ExecKeeps(es[..|es| - 1]);
      StepKeeps(Exec(es[..|es| - 1]), es[|es| - 1]);
    }
  }

  /** Inventory by product, and order rows after everything else. */
  predicate Before(a: Lock, b: Lock) {
    || (a.Inventory? && b.Inventory? && a.product < b.product)
    || (!a.OrderRow? && b.OrderRow?)
  }

  lemma ScriptsAscend(txn: Txn, l: Lock)
    requires Ascends(txn.job) && Holds(txn, l) && Wants(txn).Some?
    ensures Before(l, Wants(txn).value)
  {}

  /** A walk along the waits that comes back to where it began. */
  predicate IsCycle(s: State, c: seq<nat>) {
    && |c| >= 2 && c[0] == c[|c| - 1]
    && forall i | 0 < i < |c| :: WaitsFor(s, c[i - 1], c[i])
  }

  lemma {:induction false} WantsClimb(s: State, c: seq<nat>, n: nat)
    requires Inv(s) && IsCycle(s, c) && 0 < n < |c|
    ensures c[0] in s && c[n] in s && Wants(s[c[0]]).Some?
    ensures Wants(s[c[n]]).Some? ==> Before(Wants(s[c[0]]).value, Wants(s[c[n]]).value)
  {
    hide Holds, Wants, Ascends;
    assert WaitsFor(s, c[0], c[1]) && WaitsFor(s, c[n - 1], c[n]);
    if Wants(s[c[n]]).Some? {
      ScriptsAscend(s[c[n]], Wants(s[c[n - 1]]).value);
    }
    if n > 1 {
      WantsClimb(s, c, n - 1);
    }
  }

  /** No deadlock among checkouts, restocks and edits, of the same orders or of different ones. */
  lemma NoDeadlockWithEdits(es: seq<Event>, c: seq<nat>)
    ensures !IsCycle(Exec(es), c)
  {
    hide Exec, Inv;
    ExecKeeps(es);
    if IsCycle(Exec(es), c) {
      WantsClimb(Exec(es), c, |c| - 1);
    }
  }

  lemma BlockerOf(s: State, t: nat) returns (u: nat)
    requires t in s && Blocked(s, t)
    ensures WaitsFor(s, t, u) && !s[u].over
  {
    u :| u in s && WaitsFor(s, t, u);
  }

  /**
   While anyone is unfinished, someone unfinished waits for nobody: the one who
   holds what the highest wanted inventory row's holder wants, at the latest.
   */
  lemma SomeoneCanGoOn(es: seq<Event>, t: nat)
    requires t in Exec(es) && !Exec(es)[t].over
    ensures exists u :: && u in Exec(es) && !Exec(es)[u].over && !Blocked(Exec(es), u)
                        && (Wants(Exec(es)[u]).Some? ==>
                              u in Step(Exec(es), Grant(u)) && Holds(Step(Exec(es), Grant(u))[u], Wants(Exec(es)[u]).value))
  {
    hide Exec, Inv, Holds, Wants, Ascends, Blocked;
    ExecKeeps(es);
    InvParts(Exec(es));
    var s := Exec(es);
    if forall u | u in s && !s[u].over :: Blocked(s, u) {
      var heights := set u | u in s && !s[u].over && Wants(s[u]).Some? && Wants(s[u]).value.Inventory?
                         :: -Wants(s[u]).value.product;
      var a := t;
      if heights != {} {
        var top := Min(heights);
        a :| a in s && !s[a].over && Wants(s[a]).Some? && Wants(s[a]).value.Inventory?
             && -Wants(s[a]).value.product == top;
      }
      var b := BlockerOf(s, a);
      var c := BlockerOf(s, b);
      var d := BlockerOf(s, c);
      assert Wants(s[b]).value.Inventory? ==> -Wants(s[b]).value.product in heights;
      ScriptsAscend(s[b], Wants(s[a]).value);
      ScriptsAscend(s[c], Wants(s[b]).value);
      assert false;
    }
    var u :| u in s && !s[u].over && !Blocked(s, u);
    if Wants(s[u]).Some? { GrantIsTaken(s, u); }
  }

  lemma GrantIsTaken(s: State, u: nat)
    requires u in s && Wants(s[u]).Some? && !Blocked(s, u)
    ensures u in Step(s, Grant(u)) && Holds(Step(s, Grant(u))[u], Wants(s[u]).value)
  {
    hide Blocked;
    var txn := Step(s, Grant(u))[u];
    assert Script(txn.job)[s[u].granted] == Wants(s[u]).value;
  }

  lemma InvParts(s: State)
    requires Inv(s)
    ensures forall t | t in s :: Ascends(s[t].job)
  {}

  // ------------------------------------------------ the scripts are the code's

  function Translated(l: I.RowLock): Lock {
    match l
    case Inventory(p) => Inventory(p)
    case OrderRow(o) => OrderRow(o)
  }

  /** The script of a checkout is read off its join. */
  function CheckoutOf(d: Tables.Db, o: int): Job {
    hide S.GetCheckoutItems;
    var rows := S.GetCheckoutItems(d, o);
    Checkout(o, seq(|rows|, i requires 0 <= i < |rows| => rows[i].product))
  }

  /** How far a checkout has come in its script. */
  function Granted(pc: I.Pc): nat {
    match pc
    case Locking(_, got) => |got|
    case Charging(rows, _, _) => |rows|
    case Closing(rows, _) => |rows| + 1
    case _ => 0
  }

  /**
   Checkouts and restocks, statement by statement, hold exactly what their
   scripts say and want nothing else next; and checkouts' scripts ascend.
   */
  lemma ScriptsAreFollowed(d: Tables.Db, txn: I.Txn)
    requires Serializability.Fits(d, txn)
    requires (txn.job.CheckoutJob? && (txn.pc.Locking? || txn.pc.Charging? || txn.pc.Closing?))
             || (txn.job.RestockJob? && (txn.pc.Begun? || txn.pc.Restocked?))
    ensures var mine := if txn.job.CheckoutJob? then Txn(CheckoutOf(d, txn.job.order), Granted(txn.pc), false)
                        else Txn(Restock(txn.job.product), if txn.pc.Restocked? then 1 else 0, false);
            && Ascends(mine.job)
            && (forall l :: I.Holds(txn, l) <==> Holds(mine, Translated(l)))
            && (I.Wants(txn).Some? ==> Wants(mine) == Some(Translated(I.Wants(txn).value)))
  {
    hide S.GetCheckoutItems;
    if txn.job.CheckoutJob? {
      CheckoutFollows(d, txn);
    } else {
      var mine := Txn(Restock(txn.job.product), if txn.pc.Restocked? then 1 else 0, false);
      assert |Script(mine.job)| == 1 && Script(mine.job)[0] == Inventory(txn.job.product);
      forall l ensures I.Holds(txn, l) <==> Holds(mine, Translated(l)) {
        if I.Holds(txn, l) { assert Script(mine.job)[0] == Translated(l); }
      }
    }
  }

  lemma CheckoutScript(d: Tables.Db, o: int)
    ensures var rows, script := S.GetCheckoutItems(d, o), Script(CheckoutOf(d, o));
            && Ascends(CheckoutOf(d, o))
            && |script| == |rows| + 1 && script[|rows|] == OrderRow(o)
            && forall i | 0 <= i < |rows| :: script[i] == Inventory(rows[i].product)
  {
    hide S.GetCheckoutItems;
  }

  /** The first `k` locks of a script that names the rows and then the order. */
  lemma HeldByScript(job: Job, rows: seq<S.Row>, o: int, k: nat)
    requires |Script(job)| == |rows| + 1 && Script(job)[|rows|] == OrderRow(o) && k <= |rows| + 1
    requires forall i | 0 <= i < |rows| :: Script(job)[i] == Inventory(rows[i].product)
    ensures forall p :: Holds(Txn(job, k, false), Inventory(p)) <==> exists i :: 0 <= i < |rows| && i < k && rows[i].product == p
    ensures forall x :: Holds(Txn(job, k, false), OrderRow(x)) <==> x == o && k == |rows| + 1
  {
    hide Script;
    forall p ensures Holds(Txn(job, k, false), Inventory(p)) <==> exists i :: 0 <= i < |rows| && i < k && rows[i].product == p {
      if i :| 0 <= i < |rows| && i < k && rows[i].product == p {
        assert Script(job)[i] == Inventory(p);
      }
    }
    assert k == |rows| + 1 ==> Script(job)[|rows|] == OrderRow(o);
  }

  /** The rows a checkout has locked. */
  function Locked(pc: I.Pc): seq<S.Row> {
    match pc
    case Locking(_, got) => got
    case Charging(rows, _, _) => rows
    case Closing(rows, _) => rows
    case _ => []
  }

  lemma LockedAreRows(d: Tables.Db, txn: I.Txn)
    requires Serializability.Fits(d, txn)
    requires txn.job.CheckoutJob? && (txn.pc.Locking? || txn.pc.Charging? || txn.pc.Closing?)
    ensures var rows, held, k := S.GetCheckoutItems(d, txn.job.order), Locked(txn.pc), Granted(txn.pc);
            && |held| <= |rows| && (forall i | 0 <= i < |held| :: held[i] == rows[i])
            && k == (if txn.pc.Closing? then |held| + 1 else |held|)
            && (!txn.pc.Locking? ==> |held| == |rows|)
            && (txn.pc.Locking? ==> |txn.pc.wanted| == |rows|
                                    && (k < |rows| ==> txn.pc.wanted[k].product == rows[k].product))
  {
    hide S.GetCheckoutItems, S.Decremented;
    if txn.pc.Locking? && Granted(txn.pc) < |txn.pc.wanted| {
      assert Serializability.SameButStock(txn.pc.wanted[Granted(txn.pc)], S.GetCheckoutItems(d, txn.job.order)[Granted(txn.pc)]);
    }
  }

  lemma CheckoutHolds(txn: I.Txn, l: I.RowLock)
    requires txn.job.CheckoutJob? && (txn.pc.Locking? || txn.pc.Charging? || txn.pc.Closing?)
    ensures I.Holds(txn, l) <==>
              if l.Inventory? then I.Has(Locked(txn.pc), l.product) else txn.pc.Closing? && l.order == txn.job.order
  {
    hide I.Has;
  }

  lemma CheckoutFollows(d: Tables.Db, txn: I.Txn)
    requires Serializability.Fits(d, txn)
    requires txn.job.CheckoutJob? && (txn.pc.Locking? || txn.pc.Charging? || txn.pc.Closing?)
    ensures var mine := Txn(CheckoutOf(d, txn.job.order), Granted(txn.pc), false);
            && Ascends(mine.job)
            && (forall l :: I.Holds(txn, l) <==> Holds(mine, Translated(l)))
            && (I.Wants(txn).Some? ==> Wants(mine) == Some(Translated(I.Wants(txn).value)))
  {
    hide S.GetCheckoutItems, Script, CheckoutOf, Holds, Ascends, Serializability.Fits, I.Holds, Granted, Locked;
    var o, rows := txn.job.order, S.GetCheckoutItems(d, txn.job.order);
    var job, k := CheckoutOf(d, o), Granted(txn.pc);
    CheckoutScript(d, o);
    LockedAreRows(d, txn);
    HeldByScript(job, rows, o, k);
    forall l ensures I.Holds(txn, l) <==> Holds(Txn(job, k, false), Translated(l)) {
      CheckoutHolds(txn, l);
      if l.Inventory? {
        SameRows(Locked(txn.pc), rows, k, l.product);
      }
    }
    WantsNext(txn, rows, o, k, job);
  }

  lemma WantsNext(txn: I.Txn, rows: seq<S.Row>, o: int, k: nat, job: Job)
    requires txn.job == I.CheckoutJob(o) && (txn.pc.Locking? || txn.pc.Charging? || txn.pc.Closing?)
    requires |Script(job)| == |rows| + 1 && Script(job)[|rows|] == OrderRow(o)
    requires forall i | 0 <= i < |rows| :: Script(job)[i] == Inventory(rows[i].product)
    requires k == Granted(txn.pc)
    requires txn.pc.Locking? ==> |txn.pc.wanted| == |rows| && (k < |rows| ==> txn.pc.wanted[k].product == rows[k].product)
    requires txn.pc.Charging? ==> k == |rows|
    ensures I.Wants(txn).Some? ==> Wants(Txn(job, k, false)) == Some(Translated(I.Wants(txn).value))
  {
    hide Script;
  }

  lemma SameRows(held: seq<S.Row>, rows: seq<S.Row>, k: nat, p: int)
    requires |held| <= |rows| && (k == |held| || (k == |rows| + 1 && |held| == |rows|))
    requires forall i | 0 <= i < |held| :: held[i] == rows[i]
    ensures I.Has(held, p) <==> exists i :: 0 <= i < |rows| && i < k && rows[i].product == p
  {
    if I.Has(held, p) {
      var i :| 0 <= i < |held| && held[i].product == p;
      assert rows[i].product == p;
    }
  }

  /** An edit alone takes its item's key first and its order's row second. */
  lemma EditsLockKeyThenRow(s: State, t: nat, o: int, p: int)
    requires t !in s && forall u, l | u in s && (l == ItemKey(o, p) || l == OrderRow(o)) :: !Holds(s[u], l)
    ensures var s1 := Step(Step(s, Begin(t, Edit(o, p))), Grant(t));
            var s2 := Step(s1, Grant(t));
            && t in s1 && (forall l :: Holds(s1[t], l) <==> l == ItemKey(o, p))
            && t in s2 && (forall l :: Holds(s2[t], l) <==> l == ItemKey(o, p) || l == OrderRow(o))
  {
    var s0 := Step(s, Begin(t, Edit(o, p)));
    assert Script(Edit(o, p)) == [ItemKey(o, p), OrderRow(o)];
    assert !Blocked(s0, t);
    var s1 := Step(s0, Grant(t));
    assert s1[t] == Txn(Edit(o, p), 1, false);
    assert !Blocked(s1, t);
  }

  /** Transaction `t` begins its job and is granted `k` locks, one after another. */
  function Begun(s: State, t: nat, job: Job, k: nat): State {
    if k == 0 then Step(s, Begin(t, job)) else Step(Begun(s, t, job, k - 1), Grant(t))
  }

  /** A job of any kind whose locks nobody holds gets them all, in the order of its script. */
  lemma {:induction false} JobsRunTheirScripts(s: State, t: nat, job: Job, k: nat)
    requires t !in s && Ascends(job) && k <= |Script(job)|
    requires forall u, l | u in s && l in Script(job) :: !Holds(s[u], l)
    ensures Begun(s, t, job, k) == s[t := Txn(job, k, false)]
  {
    hide Holds, Ascends, Script;
    if k > 0 {
      JobsRunTheirScripts(s, t, job, k - 1);
      var s' := Begun(s, t, job, k - 1);
      var l := Script(job)[k - 1];
      assert l in Script(job);
      assert Wants(s'[t]) == Some(l);
      assert !Blocked(s', t);
    }
  }
}
