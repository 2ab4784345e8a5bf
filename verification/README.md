# load-dancer: a model of its order transactions and of its balancer

load-dancer has two parts that are hard to get right, and this project models both and proves what they promise.

**The order service** takes orders, fills them with items and checks them out against a stock that many customers share. Its safety does not sit in any one function: it comes from the order in which a checkout locks inventory rows, from the status guard of one `UPDATE`, from two unique constraints and from reading stock again once a row is locked.

* `Tables`, `Statements`: the tables with the migrations' constraints, and each SQL statement as a function of them, with its errors.
* `Transactions`: what each operation does when it runs by itself, stated without statements or loops.
* `Answers`: when each of them succeeds and what it answers otherwise, condition by condition, from the tables alone.
* `OrderService`: the service's code, statement by statement over tables that change in place, proved to do exactly that and to roll back otherwise.
* `Interleaving`: any number of checkouts, restocks and order creations running at once, one statement or one row-lock grant a step; a step may also be a lost connection. `Serializability`, `Guarantees`, `Liveness` and `Race` say what holds of every run. `LockOrder` adds item edits to the question of deadlock. `Overlaps` and `StrayEdits` are about the edits that no lock keeps apart from a checkout or from each other.

**The balancer** hands requests out in turn, but asking a server's circuit breaker whether it is available already spends the breaker's trial.

* `CircuitBreakers`, `BreakerHistory`: the breaker, and what its four fields amount to over a whole history.
* `Fleets`, `Fairness`: selection as a function of what it finds, and how it shares requests out.
* `Registry`: the register of backends under concurrent registrations and removals.
* `Retry`: one request's attempts. `InFlight`: any number of requests at once, with the probes of a selection as steps of their own that records and health checks may fall between. `Trials`: who carries a half-open breaker's trial, and exactly when nobody does. `Starvation`: fairness among all that.
* `Balancer`, `Transport`, `Health`: the objects themselves, changed in place, proved against the above. `Backoff` is the limit of the wait between attempts in 64-bit arithmetic.

`Collections` and `Arithmetic` hold what any project would need.

## What the database is taken to do

PostgreSQL at READ COMMITTED is an assumption, in these words. A statement sees what was committed when it began, and its own transaction's writes. `SELECT ... FOR UPDATE` takes its items from that snapshot and reads each inventory row again when the row's lock is granted. A row lock is exclusive and kept to commit or rollback. A statement that breaks a constraint, or whose result does not fit `integer`, fails, and its transaction rolls back. An insert that meets a row being inserted under the same key waits for it. Sequences are never rolled back.

An item edit is one step of the interleaved machine. It may fall anywhere except between a checkout's reading of the same order's items and that checkout's end. Nothing in the code keeps an edit out of there, and `Overlaps` and `StrayEdits` say what happens when one slips in, or when the statements of two edits cross: a witness for each of three promises that then breaks (conservation, a closed order's peace, the total), and the exact condition, on what the caller asks for, under which it does not.

## Where the code and its words part

* The repository's `README.md:56` says that a breaker reacts to retryable failures. The code counts every outcome that is not a response below 500, for every method (`internal/balancer/retry.go:62-66`). A POST answered 503 is counted and not retryable (`Retry.UnavailableIsCounted`); `Retry.CountsRetryableExactly` says for which outcomes the two agree.
* The repository's `README.md:12` says that a retry goes to a different backend. A backend that is alone is asked three times for the same GET (`Retry.AloneIsAskedAgain`). `Retry.RepeatsExactly` says when a retry goes back to the backend that has just failed: exactly when no other is ready at that moment. `Retry.FirstSendsAreDistinct` says how long sends keep going to new ones.
* The repository's `README.md:11` says that an open breaker gets a trial request. Two probes spend the trial and send nothing. `GetServers` looks like an observer and asks every breaker. And a scan that has found nobody asks its start once more, by a clock that has gone on: if the start's cooldown ends in between, the trial is spent and the request is told that there is no backend (`internal/balancer/round_robin.go:42-48`). `Trials.WedgesExactly` says that these two, when the trial is due and nobody is waiting for the server, are exactly what leaves a breaker half open for good; `Trials.PollsCanWedge` and `Trials.SelectionsCanWedge` are runs from the empty balancer in which they do.
* The registration handler adds a backend and starts its checker under two locks. If the id is removed and registered again in between, a checker is left running that nothing can stop. `Registry.CheckersCanLeak` is such a run; `Registry.LeaksExactlyWhenNotClean` says exactly which steps do it.
* The limit of the wait wraps around from attempt 37 on and is then mostly not positive, which the random draw does not survive. `Backoff.PositiveExactly` lists the attempts for which it is. Three attempts, as configured, are far from it.
* `AddProduct` narrows its two numbers to 32 bits. The model narrows them too, so no input is excluded.

## Model

| member | source | states |
|---|---|---|
| Serializability.Serializable | internal/orderservice/service/order.go:177-229 | However the statements and lock grants of any number of checkouts, restocks and creations fall, with edits, new products and lost connections among them, the committed tables are those of the committed operations run one after another in commit order, each succeeding; what failed left no trace. |
| Serializability.StepKeeps | internal/orderservice/db/queries/orders.sql:28-37 | Every step of every transaction keeps the tables consistent, locks exclusive, each transaction's reads true of the committed tables and its writes what they imply. |
| Serializability.FitsStays | internal/orderservice/db/queries/orders.sql:28-31 | Rows read under their locks stay true through anything others commit meanwhile: stock cannot move under a held lock, and the item snapshot stands while the order's items do. |
| Serializability.AdvanceFits | internal/orderservice/service/order.go:186-220 | Every statement of a checkout that does not commit leaves it holding true reads, stock re-read at the grant, and writes that are exactly the decrements made so far. |
| Serializability.ClosingIsCheckout | internal/orderservice/service/order.go:199-225 | A checkout that got past its status guard publishes exactly what checking the order out in one piece would. |
| Serializability.AdvanceHolds | internal/orderservice/db/queries/orders.sql:28-37 | A step gains no lock but the one it had to wait for. |
| Guarantees.OnlySuccessCommits | internal/orderservice/service/order.go:178-228 | All or nothing: the step that answers success commits the whole operation, once; every other step of a transaction, and its abort, leaves the committed tables alone. |
| Guarantees.StockConserved | internal/orderservice/service/order.go:202-216 | In every reachable state, for each product, committed stock plus what pending orders were charged is what there was plus what came in; and stock is within 0..2^31-1. |
| Guarantees.ChargedAtMostOnce | internal/orderservice/db/queries/orders.sql:36-37 | However many checkouts of one order read `started`, at most one commits. |
| Guarantees.LoggedAtMostOnce | internal/orderservice/db/queries/orders.sql:36-37 | In every run the commit log pays for each order at most once. |
| Guarantees.RefusalsAreTrue | internal/orderservice/service/order.go:186-220 | What a checkout is refused for is what the whole operation would answer at that very moment; if another checkout has closed the order meanwhile, what it would answer if the order were still open, and no rows if that is nothing. |
| Guarantees.RestockIsAnswered | internal/orderservice/service/product.go:79-97 | Among whatever else runs, a restock is refused exactly for a count that is not positive, an unknown product or a sum that does not fit, each with its error; any other commits at its next step, with that product's stock up by the count and nothing else changed. |
| Guarantees.RestockCommits | internal/orderservice/db/queries/products.sql:90-91 | A restock that has its row commits at its next step, however late that comes. |
| Guarantees.CreateIsAnswered | internal/orderservice/service/order.go:32-54 | A create gets an order of its own at once if its user is known and has none under the key, is refused exactly if its user is unknown, and otherwise reads the order that is there. |
| Guarantees.EditsTakePlace | internal/orderservice/service/order.go:64-171 | Adds and edits that no checkout of their order is in the way of take place with the answers below. |
| Guarantees.TotalsAreRight | internal/orderservice/service/order.go:64-171 | In every reachable state each order's total is the sum of its items' quantity times the product's price, and fits its column. |
| Guarantees.PendingOrdersAreFrozen | internal/orderservice/service/order.go:81-84 | Once an order has left `started`, nothing that happens later changes its record, its total or its items. |
| Guarantees.CreatesAgree | internal/orderservice/service/order.go:32-54 | Two creates answered at any two moments of a run got the same order exactly when user and key are the same, and the order is there for ever. |
| Guarantees.FallbackNeverMisses | internal/orderservice/service/order.go:46-53 | The read after a conflicting insert, a statement of its own at any later moment, finds the order with that user and key. |
| StrayEdits.BooksAreOffExactly | internal/orderservice/service/order.go:186-225 | Let an edit run while checkouts of its order are between their item read and the order's row, and let any events follow but another edit of that order. Stock on hand plus units sold is then what there was plus what came in, unless one of those very checkouts has committed and the edit asked for another quantity of the product; then it is off by exactly the change. |
| Overlaps.EditDuringCheckout | internal/orderservice/service/order.go:186-220 | Such an edit neither keeps the checkout, going on alone, from committing nor makes it commit; stock is then conserved if and only if the edit asked for the quantity that was there. |
| Overlaps.BooksCanBeOff | internal/orderservice/service/order.go:186-225 | A run of the system in which such an edit makes it sell a unit that no stock was charged for. |
| Overlaps.LateEditsThaw | internal/orderservice/service/order.go:77-97 | An edit that read `started` and is overtaken by a whole checkout changes the closed order if and only if it would have succeeded before the checkout and asked for another quantity than was there. |
| Overlaps.ClosedOrdersCanChange | internal/orderservice/service/order.go:125-166 | A closed order whose items and total such an edit changes. |
| Overlaps.CrossedEditsLoseOne | internal/orderservice/db/queries/orders.sql:39-46 | Two edits of one order, the second beginning its sum before the first commits: the total is right afterwards if and only if one of them would fail by itself, or the first one's product is free, or its quantity is what it was. |
| Overlaps.TotalsInTurnAreRight | internal/orderservice/db/queries/orders.sql:39-46 | If the second begins its sum only after the first is over, the total is right whatever the edits, succeeding or failing. |
| Overlaps.TotalsCanBeWrong | internal/orderservice/db/queries/orders.sql:39-46 | Two crossed edits after which the total is not what the items cost. |
| Overlaps.SeeingTheSame | internal/orderservice/service/order.go:64-171 | The statements these overlaps are made of, with nothing in between, are the edit that the service makes. |
| Guarantees.StepIsOperation | internal/orderservice/service/order.go:222-227 | Every step of the system leaves tables and log alone or is one more logged operation that succeeds on the committed tables. |
| Liveness.NoWaitCycle | internal/orderservice/db/queries/orders.sql:28-31 | In no reachable state do transactions wait for each other in a circle of any length. |
| Liveness.LocksAscend | internal/orderservice/db/queries/orders.sql:31 | Whoever holds the inventory row another waits for wants, if any inventory, only a higher product. |
| Liveness.Progress | internal/orderservice/db/queries/orders.sql:28-37 | While a transaction is unfinished, some transaction can go on. |
| Liveness.RunCountsDown | internal/orderservice/service/order.go:202-225 | Every step of any transaction lowers the work left in the whole system, although commits of others change what a waiting one will read. |
| Liveness.SchedulesAreFinite | internal/orderservice/service/order.go:177-229 | No schedule of the transactions at hand is longer than the work there was at its start. |
| Liveness.CanAlwaysFinish | internal/orderservice/service/order.go:177-229 | Any schedule can be carried on to one that brings every transaction to its answer. |
| Liveness.EveryRunCanFinish | internal/orderservice/service/order.go:177-229 | In any reachable state, if nobody can go on everybody is done, and some schedule gets everybody done. |
| LockOrder.NoDeadlockWithEdits | internal/orderservice/db/queries/orders.sql:12-46 | Checkouts, restocks and item edits, which lock an item's key before the order row, never wait in a circle, of the same orders or of different ones. |
| LockOrder.SomeoneCanGoOn | internal/orderservice/db/queries/orders.sql:12-46 | While any of them is unfinished, one of them waits for nobody. |
| LockOrder.ExecKeeps | internal/orderservice/db/queries/orders.sql:28-46 | No row lock ever has two holders. |
| LockOrder.ScriptsAreFollowed | internal/orderservice/db/queries/orders.sql:28-37 | Checkouts and restocks, statement by statement, hold exactly the locks that their scripts have granted them and want the next one. |
| LockOrder.JobsRunTheirScripts | internal/orderservice/db/queries/orders.sql:12-46 | A job of any kind whose locks nobody holds gets all of them, in the order of its script. |
| Race.ExactlyAsManyAsStock | internal/orderservice/service/order_test.go:430-486 | When N checkouts of distinct orders for q > 0 units each of a product with stock S are over, in every interleaving exactly min(N, S / q) committed, all others failed for want of stock, and S less the units sold is left. |
| Race.RunsRace | internal/orderservice/service/order.go:202-220 | At every moment of the race the stock is what it was less q for each winner, and nobody is refused while q units are left. |
| Answers.CheckoutAnswers | internal/orderservice/service/order.go:177-229 | A checkout succeeds exactly if the order is there and started, has an item, and no item asks for more than there is; it then takes each item's quantity and closes the order; each other case has its error, a shortage that of the least short product. |
| Answers.AddAnswers | internal/orderservice/service/order.go:64-102 | An add succeeds exactly if the quantity is positive, the order there and started, the product known and not in the order, and the new total fits; each other case has its error. |
| Answers.EditAnswers | internal/orderservice/service/order.go:112-171 | An edit succeeds exactly if the quantity is not negative, the order there and started, the item in it, and the new total fits; each other case has its error; at 0 the item is gone. |
| Answers.ProductAnswers | internal/orderservice/service/product.go:34-75 | A new product has the price and the stock it was given, whatever fits the columns; what narrows to a negative number is refused. |
| Answers.RestockAnswers | internal/orderservice/service/product.go:79-97 | A restock succeeds exactly for a positive count, a known product and a sum that fits. |
| Answers.NarrowingIsExact | internal/orderservice/service/product.go:47-64 | Narrowing to 32 bits keeps exactly what fits and moves everything else by whole turns of 2^32. |
| Transactions.ApplyKeepsConsistent | internal/orderservice/service/order.go:32-229 | Every operation that succeeds keeps all constraints, one stock row a product, items at their product's price and totals equal to what the items cost. |
| Transactions.PutIsWriteThenTotal | internal/orderservice/db/queries/orders.sql:39-46 | Writing an item and summing the order anew moves the total by the difference, and fails exactly when the new total does not fit its column. |
| Transactions.RemoveIsDeleteThenTotal | internal/orderservice/service/order.go:134-151 | Deleting an item and summing anew takes its cost off the total and cannot fail. |
| Transactions.DecrementsAreCharge | internal/orderservice/service/order.go:202-216 | The join's rows lower each product of the order by exactly its quantity and no other product. |
| Transactions.TakeRow | internal/orderservice/service/order.go:202-216 | The stock a row read is still there when its turn in the loop comes, so the check made on it covers the decrement, which cannot fail. |
| Transactions.FirstShortRow | internal/orderservice/service/order.go:203-208 | The product named in the refusal is the least of those the order asks too much of. |
| Transactions.TakenAll | internal/orderservice/service/order.go:202-220 | All rows taken and the order closed is the order checked out: no shortage was missed and the guarded update cannot fail. |
| Transactions.FallbackFinds | internal/orderservice/db/queries/orders.sql:7-9 | The read by user and key answers the one order that has them. |
| Transactions.NewProductIsTwoInserts | internal/orderservice/service/product.go:34-75 | The two inserts come to a product with its stock row or to nothing, with each error in its place, for every pair of integers. |
| Statements.JoinIsBasket | internal/orderservice/db/queries/orders.sql:28-31 | The checkout join has one row for each item of the order and none besides: no item is lost, none is doubled. |
| Statements.GetCheckoutItems | internal/orderservice/db/queries/orders.sql:28-31 | Its rows are in strictly ascending product order, true of stock and items, and complete. |
| Statements.RowsFollowStock | internal/orderservice/db/queries/orders.sql:28-31 | While an order's items stand, the join's rows stand but for the stock column. |
| History.ReplayConserves | internal/orderservice/service/order.go:202-216 | Over any sequence of operations stock on hand plus units sold is what there was plus what was supplied. |
| History.ReplayFreezes | internal/orderservice/service/order.go:81-84 | Over any sequence of operations an order that is no longer started stays as it is, with its items. |
| History.PaidAtMostOnce | internal/orderservice/db/queries/orders.sql:36-37 | No sequence of successful operations pays for one order twice. |
| OrderService.OrderService.CheckoutOrder | internal/orderservice/service/order.go:177-229 | The loop over the joined rows takes every product's quantity out of stock and closes the order, or changes nothing and answers the right error, naming the least short product; and the tables stay consistent. |
| OrderService.OrderService.AddOrderItem | internal/orderservice/service/order.go:64-102 | Adds the item at the product's price and moves the total with it, or changes nothing at all: on a bad quantity, a missing or closed order, a missing product, a second item of it, or an overflow of product or sum. |
| OrderService.OrderService.EditOrderItemQuantity | internal/orderservice/service/order.go:112-171 | Sets the quantity and moves the total, at quantity 0 removes the item, exactly when `Answers.EditAnswers` says it can, or changes nothing; answers the item as it now is, or as it was before it was removed. |
| OrderService.OrderService.CreateOrder | internal/orderservice/service/order.go:32-54 | Answers the order that has the key and leaves the tables alone, or else creates exactly one, with a new id; for an unknown user neither. |
| OrderService.OrderService.AddProduct | internal/orderservice/service/product.go:34-75 | For a price and a stock from 0 to 2147483647 it succeeds and stores these very numbers under a new id; otherwise product and stock row come together, narrowed, or not at all. |
| OrderService.OrderService.IncreaseProductStock | internal/orderservice/service/product.go:79-97 | Adds to the one product's stock and answers the new count, or changes nothing: on a count that is not positive, an unknown product or an overflow. |
| OrderService.Database.AddOrder | internal/orderservice/db/queries/orders.sql:1-5 | Inserts with the next id of the sequence or, on a conflict, nothing; the sequence moves on either way. |
| OrderService.Database.UpdateOrderTotal | internal/orderservice/db/queries/orders.sql:39-46 | Sets the sum over the items, fails if a product or the sum does not fit, and takes an order that is not there for done. |
| OrderService.Database.UpdateOrderStatus | internal/orderservice/db/queries/orders.sql:36-37 | Moves a started order to pending and finds no row in any other. |
| CircuitBreakers.StaysSound | internal/balancer/circuit_breaker.go:34-74 | Half open is having the trial out, and closed is being below the threshold, through every operation at any clock reading. |
| CircuitBreakers.DenialLeavesNoTrace | internal/balancer/circuit_breaker.go:34-52 | A denied probe leaves the breaker as it was, so asking again at that instant is denied again. |
| CircuitBreakers.RecordSettles | internal/balancer/circuit_breaker.go:54-74 | A record ends a trial: success closes the breaker, failure opens it anew. |
| CircuitBreakers.CircuitBreaker.AllowRequest | internal/balancer/circuit_breaker.go:34-52 | The object answers and changes as the breaker's value does, and a denial changes nothing. |
| CircuitBreakers.CircuitBreaker.RecordSuccess | internal/balancer/circuit_breaker.go:54-62 | The object is closed, with no failures counted and no trial out. |
| CircuitBreakers.CircuitBreaker.RecordFailure | internal/balancer/circuit_breaker.go:64-74 | The object counts one more failure and trips at the threshold, timed at this failure. |
| BreakerHistory.RefinesHistory | internal/balancer/circuit_breaker.go:34-74 | Over any trace the breaker grants exactly while the failures since the last success are below the threshold, or when the last failure is at least the cooldown old and nothing has been granted since. |
| BreakerHistory.BackendsRefineHistory | internal/balancer/backend.go:19 | For a backend's breaker that means three failures, and then five seconds since the last. |
| BreakerHistory.TrialsAreSpaced | internal/balancer/circuit_breaker.go:37-49 | With no success between them, two granted trials are at least the cooldown apart, whatever stale failures arrive in between. |
| BreakerHistory.TrialsAreFew | internal/balancer/circuit_breaker.go:37-49 | A window of length W without a success holds at most W / cooldown + 1 trials. |
| Fleets.NoneWhenNoneEligible | internal/balancer/round_robin.go:42-48 | Nothing is selected exactly when no server is ready as its probe reads the clock; and that changes the fleet exactly when the start is healthy, its cooldown ends between its first probe and its last, and nobody else is ready: its trial is then spent. |
| Fleets.OneReadingLosesNothing | internal/balancer/round_robin.go:42-48 | If the clock reads the same throughout the scan, selecting nothing spends nothing. |
| Fleets.LastResort | internal/balancer/round_robin.go:42-50 | A scan from just past a server selects that server exactly when it is ready and no other is. |
| Fleets.SelectsTheNearest | internal/balancer/round_robin.go:39-50 | The selected server is ready when probed and no ready one comes before it in cyclic order from the cursor. |
| Fleets.SelectsTheFirstToGrant | internal/balancer/round_robin.go:39-50 | The selected position is `(current + k) % n` for the least k at which a healthy server's breaker grants the k-th probe, and `current` becomes `(current + k + 1) % n`. |
| Fleets.SelectTouchesOneBreaker | internal/balancer/round_robin.go:42-50 | The cursor ends just past the selected server, whose breaker has answered one probe; no other breaker is any different. With nothing selected the cursor stays and only the start's breaker can differ. |
| Fleets.PolledOnce | internal/balancer/round_robin.go:105-113 | A poll in which no server comes twice asks each breaker once, at its own reading of the clock, and leaves the others alone, in whatever order. |
| Fairness.NoStarvation | internal/balancer/round_robin.go:33-51 | A server ready at each of n consecutive selections among n servers is selected at one of them, however health and breakers of the others change. |
| Starvation.NobodyStarves | internal/balancer/round_robin.go:33-51 | A server that stays healthy with a closed breaker is selected by one of any n scans that begin and end among n servers, with records, health changes and polls falling between any two probes. |
| Starvation.SelectedIsSent | internal/balancer/round_robin.go:49-50 | The request whose scan selects the server is the one that is then waiting for it. |
| Fairness.HealthyAndClosedIsEligible | internal/balancer/round_robin.go:42 | A healthy server with a closed breaker is ready at any time, and a probe leaves its breaker as it is. |
| Fairness.EvenShares | internal/balancer/round_robin.go:39-50 | Two servers ready throughout a stretch of any length, from any cursor, are selected equally often but for one, however the others change. |
| Fairness.LeadIsNearness | internal/balancer/round_robin.go:39-50 | At every moment the lead of one such server over another is decided by which was nearer at the start and which is nearer now. |
| Fairness.NoShareForIneligible | internal/balancer/round_robin.go:42 | A server that is never ready is never selected. |
| Fairness.ExactBalance | internal/balancer/round_robin.go:39-50 | Left alone with closed breakers, healthy servers' counts differ by at most one over any number of selections, and the others get none. |
| Registry.ListAgreesWithMap | internal/balancer/round_robin.go:119-171 | After any steps of any handlers the list holds exactly the registered servers, with multiplicity: as many as ids, and each listed one registered. |
| Registry.NoCheckerLeaks | internal/control/backends.go:67-116 | If no id is being registered twice at once, every running checker belongs to a registered id and its current server, even when a removal lands between add and start. |
| Registry.EveryBackendIsChecked | internal/control/backends.go:67-94 | The converse: in such a run every registered id that nobody is still registering has exactly one checker running, of the server registered now. |
| Registry.RegistrationCompletes | internal/control/backends.go:81-92 | A registration under a free id that nobody interferes with ends with the backend listed last and one more checker, its own. |
| Registry.RemovalUndoesRegistration | internal/control/backends.go:96-115 | Removing it again restores list, map and cancel functions, and its checker has stopped. |
| Registry.LeaksExactlyWhenNotClean | internal/control/backends.go:81-86 | Of all steps, those that leave a running checker untended are exactly the starts for a server that is no longer the registered one, or under an id that has a checker already. |
| Registry.CheckersCanLeak | internal/control/backends.go:81-86 | A run of two registrations and a removal after which a checker watches a server no longer registered, and removing the id does not stop it. |
| Balancer.RoundRobin.SelectServer | internal/balancer/round_robin.go:33-51 | Returns the first server in cyclic order from `current` that is healthy and lets its probe through, each probe with its own reading of the clock, and leaves `current` just past it; null if there is none; and does to the breakers what selection specifies, the start probed once more at the end. |
| Balancer.RoundRobin.GetServers | internal/balancer/round_robin.go:100-115 | Fills its slice exactly, one status for each registered id: that server's address and health, and as availability what its breaker answers at that moment of the poll; afterwards the fleet is as those probes, one after another, leave it. |
| Balancer.StatusesAreExact | internal/balancer/round_robin.go:105-113 | If no server is registered twice, a status says available exactly if the breaker as it was before the poll would have granted at that reading of the clock. |
| Balancer.RoundRobin.AddServer | internal/balancer/round_robin.go:119-131 | Adds to map and end of list together exactly if the id is free, whoever else is listed; otherwise changes nothing. |
| Balancer.RoundRobin.StartHealthChecks | internal/balancer/round_robin.go:133-145 | Exactly if the id is registered, starts a checker of the server given and stores how to cancel it, overwriting what was stored; otherwise changes nothing. |
| Balancer.RoundRobin.RemoveServer | internal/balancer/round_robin.go:149-171 | Exactly if the id is registered, forgets it, cancels the checker it leads to and no other, and takes the server's first occurrence off the list, the others in their order; otherwise changes nothing. |
| Balancer.CreateBackendServer | internal/balancer/backend.go:14-23 | A backend starts healthy, with a breaker of its own that trips at 3 failures for 5 seconds; no address, no backend. |
| Balancer.ScanFound | internal/balancer/round_robin.go:42-50 | A scan that passed over d servers that were not ready and then stopped has found the selection; after n of them there is none, whatever the last probe of the start was granted. |
| Retry.RoundTripRules | internal/balancer/retry.go:33-88 | For any outcomes: at most the allowed sends, one for a method outside GET, HEAD, OPTIONS and TRACE, another only after a retryable error, and the answer is the last send's outcome, which is a retryable one only when the attempts are used up. |
| Retry.OneRecordPerSend | internal/balancer/retry.go:60-66 | Each send leaves exactly one grant and one record, on the breaker of the server it went to, and nothing else changes but by a last selection that finds nobody. |
| Retry.EachSendIsSelected | internal/balancer/retry.go:37-60 | Every send goes where a selection picks at that moment, in the fleet that the sends before it have left. |
| Retry.RepeatsExactly | internal/balancer/retry.go:37-75 | A retry goes to the backend that has just failed exactly when no other is ready at that moment. |
| Retry.AloneIsAskedAgain | internal/balancer/retry.go:37-75 | One healthy backend, alone, is sent the same GET three times and times out three times. |
| Retry.CountsRetryableExactly | internal/balancer/retry.go:61-88 | A breaker counts exactly what is not a response below 500; that is what would be retried exactly for responses below 500, and for timeouts and network errors of the four methods. |
| Retry.UnavailableIsCounted | internal/balancer/retry.go:61-88 | A POST answered 503 is counted as a failure and not retried. |
| Retry.FirstSendsAreDistinct | internal/balancer/retry.go:37-75 | In a run nothing else disturbs, with no backend listed twice, if k servers were eligible at its start the first k sends go to k different servers, and the balancer does not run out before. |
| Transport.RetryBalancerTransport.RoundTrip | internal/balancer/retry.go:33-78 | The loop of select, send, record and retry leaves fleet, sends and answer exactly as the attempts specify, for every behaviour of clock and network. |
| Transport.RetryBalancerTransport.RecordOutcome | internal/balancer/retry.go:61-66 | Only a response below 500 is a success; all else counts as a failure of the server that was sent to, and of no other. |
| InFlight.ScanIsSelect | internal/balancer/round_robin.go:33-51 | The probes of a scan, taken as single steps with nothing in between, come to what selection specifies for that clock. |
| InFlight.AloneIsAttempts | internal/balancer/retry.go:33-78 | A request that nothing comes between makes, step by step, exactly the attempts that the transport's loop is proved to make. |
| InFlight.GivesUpExactly | internal/balancer/retry.go:37-44 | With the lock free a request gives up exactly after three attempts or when no server is listed, and otherwise begins its scan at the cursor. |
| InFlight.SettlesExactly | internal/balancer/retry.go:60-75 | An answer sends the request to its next attempt exactly for a timeout or network error of a safe method, counts as a failure exactly unless it is a response below 500, and touches no other request or breaker. |
| InFlight.AnyFleetComesTogether | internal/balancer/round_robin.go:119-131 | Any servers in any order can be brought together, all healthy with closed breakers. |
| Trials.WedgesExactly | internal/balancer/round_robin.go:42-48 | Of all steps of any number of requests, scans, checks, removals and polls, what leaves a half-open breaker with no request to settle it is exactly a status poll's probe, or a scan's last probe of its start, when the cooldown is over and no request is waiting for the server. |
| Trials.RunWedgesExactly | internal/balancer/retry.go:37-70 | A run ends with a server wedged exactly if it began so or has such a step in it. |
| Trials.NoWedgedTrial | internal/balancer/retry.go:37-70 | In any run without status polls in which each selection has one reading of the clock, whenever a breaker is half open some request in flight is on its server. |
| Trials.RecordEndsTrial | internal/balancer/retry.go:62-66 | The record of any request in flight on that server closes or reopens the breaker. |
| Trials.WedgedForever | internal/balancer/circuit_breaker.go:43-48 | A breaker half open with no request on its server stays so, and no request is ever sent there again. |
| Trials.PollsCanWedge | internal/balancer/round_robin.go:105-113 | From the empty balancer: a backend registers, times out three times, is polled as its cooldown ends, and is wedged. |
| Trials.SelectionsCanWedge | internal/balancer/round_robin.go:42-48 | The same with a request for a poll: its scan's second probe spends the trial, it is told that there is no backend, and the only one is wedged. |
| InFlight.AttemptsAreBounded | internal/balancer/retry.go:37 | In every run each request stays within three attempts, and within one if its method is not safe. |
| Health.UnhealthyIffThreeInARow | internal/balancer/health.go:23-37 | A server is out exactly when its last three checks have all failed, two not being enough, or it was out to begin with and no check has passed yet. |
| Health.CheckServerHealth | internal/balancer/health.go:23-37 | One check sets health and count as the rule says: success restores at once, the third failure in a row takes out. |
| Health.Checker | internal/balancer/health.go:45-63 | The checker's loop over its ticks leaves the health and count of all its checks in order. |
| Backoff.PositiveExactly | internal/balancer/retry.go:90-97 | The limit of the wait, both operations wrapping in 64 bits, is positive exactly up to attempt 36 and at seven attempts beyond, and never above 2 s. |
| Backoff.DoublesUpToCap | internal/balancer/retry.go:90-97 | Up to attempt 36 the limit is 100 ms doubled with each attempt and capped at 2 s, without overflow. |
| Backoff.WaitsOfThreeAttempts | internal/balancer/retry.go:72-74 | With three attempts there are two waits, drawn from below 100 ms and from below 200 ms. |

## Left out

- HTTP servers, handlers and their decoding, middleware, the reverse proxy, sockets, signals, shutdown, configuration and the registration client: the outcome of a send or a check, and an address that does or does not parse, are inputs.
- Users, categories, product listing and the reading methods `GetUserOrders`, `GetOrder` and `GetOrderItems`: PostgreSQL does their work.
- PostgreSQL itself: see above for what is assumed of it. Key-share locks of foreign keys never conflict with the updates here.
- Statements of an item edit as steps of the interleaved machine: the code takes no lock where it reads the status. `Overlaps` covers three such overlaps, `LockOrder` the locks of all; others are not modelled.
- A commit whose acknowledgement is lost: here a transaction that loses its connection has not committed.
- Exhausted sequences, and a failure count that overflows.
- Completed and cancelled orders: no operation makes them; units sold are those of pending orders.
- Product names and descriptions, creation times, and the text of errors.
- The random wait itself: any value below the limit would do, and nothing depends on it. Sleeping between attempts shows only in the clock's readings.
- Clock readings are whole nanoseconds, and a cooldown is compared exactly, where the code compares seconds as floating-point numbers.
- Cancellation of checkers by the process ending, and checks in progress while a checker is being cancelled.
- Sharing of the server slice's array: lists are values here. Only `RoundRobin` holds the slice.
- Overlaps.EditDuringCheckout: after the edit only the checkout in question goes on, so that it can be compared with itself; `StrayEdits.BooksAreOffExactly` lets everything else go on too.
- StrayEdits.BooksAreOffExactly: the edit is one step, made while no checkout holds its order's row, and no second edit of the order follows.
- Balancer.RoundRobin.SelectServer: nothing else touches health and breakers during the scan, only the clock goes on; so too wherever a selection is one step (`Fleets`, `Fairness`, `Retry`). In `InFlight`, `Trials` and `Starvation` both may change between any two probes.
- Balancer.RoundRobin.GetServers: likewise, and likewise in `InFlight`.
- Trials.NoWedgedTrial: needs the clock to stand still during a selection, since the property is false otherwise; `Trials.RunWedgesExactly` is what holds without.
- LockOrder.NoDeadlockWithEdits: knows only which locks are taken in which order, not the data they guard; the machine with the data has no statement-level edits.
- OrderService.Database.GetCheckoutItems: a transaction by itself needs no locks, so none are taken here; they are in the interleaved machine.
