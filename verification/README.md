# A model of the shop backend's state machines

The backend sells from one stock to its own storefront and to three marketplaces. Its content is a
set of protocols over a Postgres database: orders, stock and payment events; renewal of single-use
marketplace tokens; session token families; the rule that somebody can always manage staff; removal
and ordering of product sizes; freight. This project models those protocols and proves what every
run of them keeps. `dafny verify dfyconfig.toml` checks it all.

## How it is built

**Orders and stock.** `Rows` holds the tables and the single-row SQL statements, `Shop` the
transactions as the statements that take effect in them, from checkout to the removal of a variant
with its cart lines. `Isolation` interleaves those transactions
statement by statement, with row locks held to commit and writes undone on abort, and proves that
the result is always the serial run of the commit log; from there on a run is a list of
transactions. `Effects`, `Conservation`, `Lifecycle` and `Checkouts` prove what such runs keep.
`Money` says what a subtotal sums. `OrdersService` is the services as an object over the tables, with their loops and rollbacks, each
method proved to be one of the transactions; `CartService` is the cart, and `CheckoutService` puts
cart, quote and checkout together.

**Payments.** `PaymentEvents` gives every webhook delivery and every route a program counter; events
may be redelivered, handled twice at once, or die at any step, while the rest of the shop commits.
`Redelivery` says what one delivery comes to, `PaymentEventsService` is the handler as code, tied to
that machine. `PaymentSessions` does the same for the ways to pay one order, and `SessionAnswers`
says what each call is answered.

**Tokens and staff.** `TokenRenewal`, `RefreshTokens` and `VerificationTokens` are a machine each in
which calls overlap between their read and their write, with an object whose methods are the code's
and a lemma that a call nobody overlaps does what the object does; `TokenFamilies` says what runs of
such rotations and sweeps do to a family. `Staff` has the operations one at
a time; `StaffRaces` overlaps them, from the snapshot of the locking select to the write.

**Catalogue and freight.** `VariantRemoval` interleaves the statements of a removal with cart changes
and checkouts; `VariantOrder`, `ShippingTable`, `Freight` and `Slug` are the code with its loops;
`Printers` and `Decimal` are the texts others read back. `Seqs` and `Wrappers` are stock definitions.

## What is assumed

- READ COMMITTED with row locks: a statement that changes a row locks it to the end of its
  transaction, one that matches no row locks nothing, and a foreign key check takes FOR KEY SHARE. A
  commit log therefore lists the statements that took effect.
- The guarded decrement reads the product's status without locking that row, so what it saw is a
  parameter of the statement. `Shop` and `Isolation` do not rely on the unique index on cart and
  variant; `CartService` keeps it, and `OrdersService.Tables.Checkout` reads a cart that has it.
- No isolation level is set in the repository, so the token and staff transactions run under READ
  COMMITTED too. Their reads are steps of their own; their last statement stands for their commit,
  before which nobody sees what they wrote. A sweep, and the retirement of earlier links, updates the
  rows committed when it starts that still match when it writes.
- A locking select takes its EXISTS from the snapshot it starts on; once it has waited it judges a row
  again only if that row was updated, on the row as it is and on everything else as it was. A select
  that takes its locks one by one is modelled at the last of them: the rows it already holds cannot
  change meanwhile. A new grant checks two foreign keys into `users` and waits for rows locked FOR UPDATE.
- A checkout's effects are one step in `VariantRemoval`, because its decrements wait for a locked
  variant.
- Identifiers, tokens and references are naturals: only their equality (and, for variants and cart
  lines, their order) matters. Hashes are injective, fresh tokens are new, time is a parameter.
- A provider refuses to expire a completed session, and never reuses a session reference; it makes the
  mode asked for, or knows a single one and ignores the question. A session
  whose creation was not answered counts as left behind, like one whose expiry failed.
- A marketplace refuses a refresh token it has exchanged. A renewal whose answer or commit is lost is
  a step of its own, and so is the rollback of a transaction that outlasts its timeout: it frees the
  row, the request on its way still arrives, and the write behind it is refused.
- Adding and reordering sizes read, check and write in separate statements without a transaction;
  `VariantOrder` takes each call alone, but for its two lemmas on adds that others overlap.
- Unicode's decomposition and lowering are arbitrary maps that on ASCII do nothing and lower A to Z; a
  collation gives distinct codes distinct places, and the cipher opens what it sealed.
- Payment providers classify an event without an intent as ignored
  (src/payments/stripe-payment.provider.ts), so success and refund events always carry one.

## Where the code does less than its words

- Checkout compares the number of cart lines it deletes, not their contents (src/orders/orders.service.ts:341-346),
  so "double-submit produces exactly one order" needs that fewer lines are added than were read:
  `Checkouts.OneOrderPerCart`, `Checkouts.SecondSubmitIff` and `Checkouts.AddedLinesFeedASecondOrder`.
- A refund that names its order is stamped whatever it finds (src/orders/payment-events.service.ts:200-206):
  `Redelivery.NamedRefundLandsIff` and `Redelivery.OvertakingRefundIsLost`.
- `issueSession` loses a session when two calls overlap, and a cancel closes only the session it had
  read: `PaymentSessions.TwoCallsLoseASession`, `PaymentSessions.CancelledStaysPayableIff`,
  `PaymentSessions.LateSessionOutlivesCancel`.
- "Exactly one unconsumed token" per family (src/auth/refresh-token.service.ts:61-63): the update that
  consumes does not ask whether the row still is unconsumed, so two rotations that both read first fork
  the family: `TokenFamilies.OneUnconsumedIff`, `TokenFamilies.OverlappingRotationsFork`.
- A swept family, after a replay, a logout or a password reset, gets a live token from a rotation that
  read before the sweep: `TokenFamilies.SweptFamilyDeadIff`, `TokenFamilies.SweepMissesOpenRotation`.
- "Only the most recent link works" (src/auth/verification-token.service.ts:36-39) and a link is single-use:
  not for issues that overlap, nor for consumes that do: `VerificationTokens.TwoOpenIff`,
  `VerificationTokens.SpentTwiceOverlapped`, `VerificationTokens.OverlappingConsumesBothSucceed`.
- The lock against two holders renouncing at once (src/auth/staff/staff.service.ts:314-319) works for
  role changes and not for revocations, which delete rows the locking select does not re-read:
  `StaffRaces.RaceEmptiesIff`, `StaffRaces.RenouncingTogetherEmpties`, `StaffRaces.EmptiedOnlyWhenOvertaken`.
- A charge for an order that does not exist, or is neither CREATED nor PAID, is reported by a line that
  names the order and not the intent (src/orders/payment-events.service.ts:159-163 and :241-244), and
  the event's row stores no payload: `PaymentEventsService.ChargeTraceableIff`,
  `PaymentEventsService.CancelledChargeIsUntraced`.
- The single-use token is safe only if every rotation reaches the row and the lock outlasts the request,
  which has no timeout of its own inside a transaction that has one (src/integrations/mercadolivre/mercadolivre-connector.ts:140-240):
  `TokenRenewal.ReplayFollowsIff`, `TokenRenewal.ExpiredLockReplays`, `TokenRenewal.LostCommitStrands`.
- A size added while another is being added, or while a reorder runs, need not be shown last:
  `VariantOrder.OverlappingAddLastIff`, `VariantOrder.ReorderedAddLastIff`.
- "The impact confirmed is the impact applied" (src/catalog/products.service.ts:842-845) holds for lines
  added, which wait for the lock, and not for lines removed, which do not: `VariantRemoval.DeletesExactlyIff`,
  `VariantRemoval.FewerThanConfirmed`.
- Imports create their order even when stock is short, so conservation carries a term for refused
  units; the guard on the last variant counts archived ones.

## Model

| member | source | states |
|---|---|---|
| Isolation.InterleavingIsSerial | src/orders/orders.service.ts:337-415 | whatever interleaving of the transactions' statements under row locks, with waits, commits and aborts, the committed rows are the serial run of the commit log, and every entry of the log commits in that serial run |
| Isolation.CommitIsAtomic | src/orders/orders.service.ts:337-415 | committing publishes exactly what the transaction does on its own, undo of the others included |
| Isolation.UndisturbedCommits | src/orders/orders.service.ts:337-415 | and it does publish: after any run that leaves nothing open, a transaction that would commit on the rows as they stand, begun, issued statement by statement and committed by itself, ends with its rows published and its entry in the log |
| Isolation.QuietMeansCommitted | src/orders/orders.service.ts:337-415 | once no transaction is open the rows hold no trace of an aborted one |
| Isolation.StepConsistent | src/catalog/stock.service.ts:75-99 | the invariant behind it: open transactions lock apart, each replays on the committed rows, unlocked rows are the committed ones |
| Effects.CommitEffect | src/orders/orders.service.ts:337-415 | what every committed transaction does to stock, orders and cart lines as one change of state; shelves stay non-negative |
| Effects.TakesEffect | src/orders/orders.service.ts:348-360 | a run of guarded decrements takes exactly the units of the lines flagged as taken, variant by variant |
| Effects.UnitsCountPieces | src/orders/orders.service.ts:348-360 | the units of a variant are how often it stands among the pieces of the lines, written out one by one |
| Effects.RestocksEffect | src/orders/orders.service.ts:690-698 | a restocking loop gives back exactly the units of its lines and touches nothing else |
| Effects.DeletesEffect | src/orders/orders.service.ts:341-346 | deleting a cart's rows one by one succeeds exactly for distinct rows of that user and removes exactly those |
| Effects.RemovalCommitsIff | src/catalog/products.service.ts:516-576 | a variant's removal commits exactly on a listed variant nobody bought together with all the cart lines on it, and then leaves neither row nor line |
| Conservation.StockIsConserved | src/orders/orders.service.ts:337-415 | for every variant and every run, removals of variants included and however early a cancellation or refund read its order: shelf stock plus units on CREATED, PAID, SHIPPED and DELIVERED orders is the starting amount plus corrections plus import units whose decrement was refused |
| Conservation.StockStaysNonNegative | src/catalog/stock.service.ts:75-99 | shelf stock is never negative in any run |
| Conservation.HeldSplit | src/orders/orders.service.ts:681-699 | the units held on orders can be summed in any order |
| Lifecycle.HistoryIsPath | src/orders/orders.service.ts:1145-1176 | every order's history over every run is a path of CREATED, PAID, SHIPPED, DELIVERED with exits CREATED to CANCELLED and PAID to REFUNDED |
| Lifecycle.NoStateTwice | src/orders/orders.service.ts:1155-1158 | no state is entered twice and nothing follows DELIVERED, CANCELLED or REFUNDED |
| Lifecycle.StampsAreTheHistory | src/orders/orders.service.ts:1109-1116 | for an order born in the run, a timestamp is set exactly when its state was visited |
| Lifecycle.OrdersSoundInEveryRun | src/orders/orders.service.ts:370-380 | in every run the timestamps set are those of the status (REFUNDED never shipped, CANCELLED never paid), an intent is stored only on an order that was paid, and the amounts pass the table's checks |
| Lifecycle.OrdersChargeTheirPieces | src/orders/orders.service.ts:370-380 | in every run an order has some pieces at a positive price, one line per variant and freight that is not negative, and its total less its freight is the sum of the prices of its pieces, each line's unit price repeated as often as its quantity |
| Lifecycle.ChecksPassIff | prisma/migrations/20260717150000_add_orders_tables/migration.sql:97-101 | the constraints on the row let an order in exactly if it has lines, one per variant, each of at least one piece at a positive price, and freight that is not negative |
| Lifecycle.OrderStep | src/orders/orders.service.ts:685-688 | one transaction leaves an order alone or moves it along one edge, stamping that move only |
| Lifecycle.MovesWrite | src/orders/orders.service.ts:1145-1176 | each move asks for its status, writes its own status, its own timestamp at the time given and the reference it came with, if one did, and leaves every other column and every other order as it was |
| Lifecycle.OrderBirth | src/integrations/mercadolivre/mercadolivre-webhook.service.ts:232-250 | an order is born CREATED, or PAID by an import at the time it gives, for the user, lines and freight of its transaction, with no intent and exactly that state's timestamps |
| Lifecycle.ContentsAreFrozen | src/orders/orders.service.ts:370-412 | no later transaction changes an order's lines, subtotal, freight or total, and no order disappears |
| Lifecycle.CancelCommitsIff | src/orders/orders.service.ts:681-699 | a cancellation commits exactly on a CREATED order: its restock never misses a row |
| Lifecycle.RefundCommitsIff | src/orders/orders.service.ts:1107-1136 | a refund is recorded exactly on a PAID order |
| Lifecycle.RestockedAtMostOnce | src/orders/orders.service.ts:1107-1136 | over cancel and refund together an order is restocked once if it ends CANCELLED or REFUNDED and never otherwise |
| Lifecycle.PaidAtMostOnce | src/orders/orders.service.ts:800-824 | an order enters PAID at most once in any run |
| Lifecycle.ReferencesStayLive | src/catalog/stock.service.ts:112-134 | no transaction, the removal of a variant included, leaves an order item or a cart line pointing at a variant without a shelf |
| Lifecycle.ReferencesLiveInEveryRun | src/catalog/products.service.ts:551-576 | so in every run that mixes removals with orders, carts, cancellations and refunds every reference points at a shelf |
| Lifecycle.RestocksNeverMiss | src/orders/orders.service.ts:681-699 | after any run, removals included, cancelling an order commits exactly while it is CREATED and refunding it exactly while it is PAID: the restock behind either finds its row |
| Lifecycle.SoldVariantsStay | src/catalog/products.service.ts:551-554 | a variant somebody bought keeps its listing and shelf in every run, and no removal of it ever commits |
| Checkouts.CheckoutCommitsIff | src/orders/orders.service.ts:337-415 | a checkout whose products were active at their decrements, as every decrement in a log was, commits exactly when it found as many own cart lines as it read, the shelf covers every line, and the new row passes the table's checks (`OrdersService.Tables.Checkout` has the status in its condition) |
| Checkouts.TakesSucceedIff | src/orders/orders.service.ts:348-368 | with active products, all decrements of a cart match exactly when each line is covered on its own |
| Checkouts.LinesPayForOrders | src/orders/orders.service.ts:338-346 | every checkout that read n lines used up n lines, and no line is used twice, over any run |
| Checkouts.OneOrderPerCart | src/orders/orders.service.ts:276-283 | of any number of checkouts that read one cart of n lines, at most one creates an order while fewer than n lines are added |
| Checkouts.SecondSubmitIff | src/orders/orders.service.ts:341-346 | after a checkout of some items has committed, and whatever happened since, a second submit of them commits exactly when the cart again has that many lines, whichever they are, the shelf covers the items and the order is new |
| Checkouts.AddedLinesFeedASecondOrder | src/orders/orders.service.ts:341-346 | the bound is reached by every cart of any number n of lines: with n lines added after the first checkout, for whatever variants, and stock for the items twice, two submits both create an order of the same items |
| OrdersService.Tables.Decrement | src/catalog/stock.service.ts:75-99 | the conditional UPDATE hits exactly when the product is active, the variant is there, unarchived and covers the quantity, and then takes that quantity |
| OrdersService.Tables.Restock | src/catalog/stock.service.ts:112-134 | adds the quantity to the row, and fails when there is no row or the quantity is not positive |
| OrdersService.Tables.SetQuantity | src/catalog/stock.service.ts:38-56 | sets the count as the stock-correction transaction does, and misses exactly on a missing variant |
| OrdersService.Tables.TakeLines | src/orders/orders.service.ts:348-360 | the decrement loop performs the decrements of the lines it reports taken, each judged against the shelf the earlier ones left, and names the variants of the others in order |
| OrdersService.Tables.RestockLines | src/orders/orders.service.ts:690-698 | the restocking loop performs every restock or reports that one threw |
| OrdersService.Tables.ConsumeCart | src/orders/orders.service.ts:338-368 | empties the cart and takes every line's units, or refuses: an empty or changed cart, or exactly the lines that are not active, live and covered |
| OrdersService.Tables.Checkout | src/orders/orders.service.ts:337-415 | all or nothing: created exactly when the cart has as many lines as were read, every line is of an active product, live and covered, and the row passes the checks; otherwise every row is as before and the refusal names exactly the lines not sellable |
| OrdersService.Tables.ImportOrder | src/integrations/mercadolivre/mercadolivre-webhook.service.ts:214-262 | the import commits the order whatever decrements were refused, with the flags of the lines taken, and is refused exactly when the row would break a constraint |
| OrdersService.Tables.Cancel | src/orders/orders.service.ts:681-699 | cancels and restocks exactly as the cancellation transaction, or changes nothing |
| OrdersService.Tables.ApplyRefund | src/orders/orders.service.ts:1107-1136 | refunds and restocks the order's own lines exactly when the refund transaction commits, or changes nothing |
| OrdersService.Tables.MoveAndRestock | src/orders/orders.service.ts:1107-1136 | the status update and the restocks behind it happen together or not at all |
| OrdersService.Tables.Transition | src/orders/orders.service.ts:1145-1176 | moves the order exactly when the conditional update matches; NotFound exactly without the order, and a conflict names the current status |
| OrdersService.LosersAreTheUntaken | src/orders/orders.service.ts:348-368 | the variants a refused checkout names are those of the lines not taken |
| OrdersService.TakenByCover | src/orders/orders.service.ts:348-360 | with one line per variant, whether a line is taken depends on no other line |
| Money.SubtotalIsPieceByPiece | src/orders/money.ts:19-35 | written out piece by piece, each line's unit price as often as its quantity: the subtotal is the sum of that list and the item count its length |
| Money.OneMorePiece | src/orders/money.ts:19-35 | one more piece of a line raises the subtotal by exactly that line's unit price and the count by one, whatever else is in the cart |
| CartService.Carts.AddItem | src/orders/cart.service.ts:146-183 | a repeat add of one size sums into its one line; no other quantity in any cart moves; each refusal has its exact cause and writes nothing |
| CartService.Carts.SetQuantity | src/orders/cart.service.ts:185-204 | replaces that one quantity, and misses exactly when the cart has no such line |
| CartService.Carts.RemoveItem | src/orders/cart.service.ts:206-218 | removes that one line, and misses exactly when there is none |
| CartService.Carts.Clear | src/orders/cart.service.ts:220-233 | leaves the user no line and every other cart as it was |
| CartService.Carts.GetCart | src/orders/cart.service.ts:95-144 | the user's lines in id order, each one's variant and quantity at its live price, of pairwise different variants; the subtotal is the sum of the prices of the pieces, the item count how many there are |
| CartService.OneLineWritten | src/orders/cart.service.ts:170-180 | writing the slot of one user and variant keeps lines unique and every other quantity |
| CheckoutService.Storefront.QuoteForCart | src/orders/shipping-quote.service.ts:103-118 | shows the sum of the prices of the pieces in the user's cart, and the table's options for it, each with that sum plus its freight; changes nothing |
| CheckoutService.Storefront.PlaceOrder | src/orders/orders.service.ts:274-412 | reads the cart, quotes it again, accepts the option only at the code and price asserted and checks out: placed exactly when that can be; then the user's order is CREATED with the cart's lines, its freight is the price asserted, its total less that the sum of the prices of the pieces, and the total is the one shown beside that option; every refusal has its exact cause and leaves the tables as they were |
| CheckoutService.CartIsOffered | src/orders/shipping-quote.service.ts:85-118 | what a cart is offered, in the terms of the configuration: on the weight and the price of its pieces, with its products' weights and its variants' dimensions |
| CheckoutService.PlacedPriceHolds | src/orders/orders.service.ts:370-412 | the freight and total of an order placed stay what they were through every later run |
| CheckoutService.ReadingIsTheCart | src/orders/cart.service.ts:95-144 | the lines read in id order are a function of the tables: two readings of one state agree |
| PaymentEvents.EachMailAtMostOnce | src/orders/payment-events.service.ts:46-62 | with duplicate deliveries, concurrent handlers, routes and crashes, an order gets at most one paid and at most one refunded mail |
| PaymentEvents.EachMailGoesOut | src/orders/orders.service.ts:800-830 | and it gets it: once every call has ended, each order that a payment or a refund moved in the run has had its mail, unless the call that owed it died before sending |
| PaymentEvents.EachEffectAtMostOnce | src/orders/payment-events.service.ts:46-113 | in every such run an order enters PAID at most once and is restocked at most once, cancel and refund together |
| PaymentEvents.StockConservedThroughout | src/orders/orders.service.ts:1107-1136 | stock is conserved in every such run, with what each restock read proved instead of assumed |
| PaymentEvents.StampedRefundHasLanded | src/orders/payment-events.service.ts:180-207 | a refund resolved by its intent is stamped processed only when an order holds that intent and is REFUNDED, SHIPPED or DELIVERED |
| PaymentEvents.StampedChargeIsAccounted | src/orders/payment-events.service.ts:144-245 | over every run a success event stamped processed has its intent stored on an order or named in a log line, or else the order it names is flagged in one; a flag says which order, not which charge |
| PaymentEvents.ObtainedRefundIsAccounted | src/orders/orders.service.ts:749-768 | every refund the route obtained is on its order, logged for reconciliation, being written, or lost with a call that died in between |
| PaymentEvents.InvInEveryRun | src/orders/payment-events.service.ts:46-142 | the invariant of the interleaving: the database is the serial run of its log, and every actor's local knowledge holds |
| PaymentEvents.DispatchKnows | src/orders/payment-events.service.ts:115-142 | no event leaves the dispatch towards its stamp unfinished |
| PaymentEvents.WritingSettles | src/orders/orders.service.ts:749-768 | the write after the provider refunded ends on the order or in the reconciliation log |
| Redelivery.RefundDeliveryStampsIff | src/orders/payment-events.service.ts:180-207 | delivering an intent-only refund ends stamped exactly when some order holds the intent or it was stamped before, and then it has landed |
| Redelivery.NamedRefundLandsIff | src/orders/payment-events.service.ts:200-206 | a refund naming its order is always stamped, and the order is settled afterwards exactly when it was past CREATED and not CANCELLED |
| Redelivery.PaymentDeliveryStamps | src/orders/payment-events.service.ts:144-178 | a success event handled to the end is always stamped: no state conflict reaches the provider |
| Redelivery.PaymentDeliveryPays | src/orders/payment-events.service.ts:144-156 | a success event that names a CREATED order leaves it PAID holding that intent, and its buyer thanked |
| Redelivery.RefundDeliveryRefunds | src/orders/payment-events.service.ts:180-207 | a refund event for a PAID order, named or found by its intent, leaves it REFUNDED under the event's reference, every unit back on the shelf, and its buyer told |
| Redelivery.OvertakingRefundIsLost | src/orders/payment-events.service.ts:200-206 | for every CREATED order: a refund that names it and overtakes its payment is stamped and lost, and the order ends PAID |
| Redelivery.DeliveryReachesDispatch | src/orders/payment-events.service.ts:86-113 | claim answers exactly the events stamped before at once; any other reaches the dispatch |
| PaymentEventsService.Handler.Handle | src/orders/payment-events.service.ts:46-62 | the handler as code, left alone, ends in the state of the interleaved machine's handler; duplicate exactly for events stamped before; refused only for refunds, left unstamped and with the tables unchanged |
| PaymentEventsService.Handler.ResolveOrderId | src/orders/payment-events.service.ts:68-83 | the order the event names, else some holder of its intent exactly when there is one |
| PaymentEventsService.Handler.Claim | src/orders/payment-events.service.ts:86-113 | claims exactly the events not stamped before and records them as seen |
| PaymentEventsService.Handler.ApplyPayment | src/orders/payment-events.service.ts:144-178 | pays and thanks when the update matches; names the intent when no order was resolved, flags only the order when it does not exist, and reports every other refusal as below |
| PaymentEventsService.Handler.ReportUnpayableOrder | src/orders/payment-events.service.ts:209-245 | silent on the same payment of a PAID order, names the intent of a second one, and for an order in any other state flags the order without the intent |
| PaymentEventsService.Handler.ApplyRefund | src/orders/payment-events.service.ts:180-207 | refunds and apologises on a PAID order, accepts any other order, refuses an unresolved refund |
| PaymentEventsService.HandledAlone | src/orders/payment-events.service.ts:46-62 | seven steps of the machine's handler come to one case analysis over the event and the order it finds |
| PaymentEventsService.PayRouteAlone | src/orders/orders.service.ts:805-827 | the pay route nobody overlaps pays exactly a CREATED order and thanks for it, and otherwise changes nothing |
| PaymentEventsService.RefundRouteAlone | src/orders/orders.service.ts:726-790 | the refund route nobody overlaps, once the provider has given the money back, refunds exactly a PAID order with a payment, restocks its lines and apologises; without the provider's answer nothing changes |
| PaymentEventsService.ChargeTraceableIff | src/orders/payment-events.service.ts:144-245 | one delivery of a success event leaves its intent on an order or named in the log exactly when it was so before, the event names no order, or the order it names is CREATED or PAID; otherwise it is stamped all the same and only the order is flagged |
| PaymentEventsService.CancelledChargeIsUntraced | src/orders/payment-events.service.ts:238-244 | for every CREATED order: cancelled before its success event arrives, the event is stamped and its intent is on no order and in no log line |
| PaymentSessions.OpenSessionsAreKnown | src/orders/orders.service.ts:1019-1090 | with one pay or checkout call in flight at a time, every session still open at the provider is the stored one, the one the call just created, or one whose expiry failed or whose call died |
| PaymentSessions.CompletedAtMostOnce | src/orders/orders.service.ts:1019-1090 | the buyer can complete only one session of an order, those left behind by failures aside |
| SessionAnswers.HandedBackSuits | src/orders/orders.service.ts:1029-1090 | in every run, overlapping calls included, a session handed back was open at the provider in the mode the answer says, which is the mode wanted, if one was, or the only one its provider knows |
| SessionAnswers.PayAloneReuses | src/orders/orders.service.ts:1042-1045 | a call nobody overlaps, on an open session of the mode wanted or with no mode, hands back that session and changes nothing at the provider or in the store |
| SessionAnswers.PayAloneReplaces | src/orders/orders.service.ts:1042-1090 | on an open session of another mode it ends with the old one gone and a new one of the mode wanted stored and handed back |
| SessionAnswers.PayAloneAborts | src/orders/orders.service.ts:1046-1049 | when the old one cannot be expired the call fails and nothing has changed |
| SessionAnswers.PayAloneRefusesPaid | src/orders/orders.service.ts:1032-1040 | on a completed session it is refused and nothing changes |
| SessionAnswers.PayAloneCreates | src/orders/orders.service.ts:1052-1090 | with no session stored, or one that has run out, a new one is stored and handed back |
| SessionAnswers.CancelAloneCloses | src/orders/orders.service.ts:680-705 | a cancel nobody overlaps expires the stored open session with the order |
| SessionAnswers.LateStoreCloses | src/orders/orders.service.ts:1060-1087 | a call that finds the order no longer awaiting payment when it stores expires the session it made and answers so |
| SessionAnswers.EndedForGood | src/orders/orders.service.ts:1032-1041 | a session the buyer has paid, or that has run out, stays so whatever calls and cancels follow |
| SessionAnswers.SettledForGood | src/orders/orders.service.ts:1060-1087 | once the order is no longer awaiting payment, no continuation stores a session on it and every pay call is told so |
| PaymentSessions.TwoCallsLoseASession | src/orders/orders.service.ts:1019-1090 | two calls at once do leave a payable session the store does not know |
| PaymentSessions.CancelledStaysPayableIff | src/orders/orders.service.ts:653-718 | over every run with one pay or checkout call in flight at a time, once calls and cancels are over, a cancelled order has no open session that no failure explains unless one was stored between the cancel's read and its commit; if one was, the one stored is the only candidate and is left unless it has ended |
| PaymentSessions.LateSessionIsLeft | src/orders/orders.service.ts:653-718 | and nothing the shop does ends it: in every continuation it stays open until the buyer pays it or the provider times it out |
| PaymentSessions.LateCommitLeaves | src/orders/orders.service.ts:653-718 | which is the state the commit of any overtaken cancel brings about |
| PaymentSessions.LateMeansStored | src/orders/orders.service.ts:653-718 | what `stored between` means: the mark is set exactly by a store while the cancel has read and not committed |
| PaymentSessions.LateSessionOutlivesCancel | src/orders/orders.service.ts:653-718 | such a run exists: a session stored between a cancel's read and its write outlives the cancelled order |
| PaymentSessions.InvInEveryRun | src/orders/orders.service.ts:1019-1100 | what each call in flight has established about the stored session survives every move of the others |
| TokenRenewal.NeverReplayed | src/integrations/mercadolivre/mercadolivre-connector.ts:114-209 | in every run of any number of callers, no refresh token is presented after the marketplace has exchanged it, as long as every rotation reaches its row and no transaction expires while its exchange is on the way |
| TokenRenewal.ReplayFollowsIff | src/integrations/mercadolivre/mercadolivre-connector.ts:162-208 | and nothing less will do: after any run without mishap, one more step opens the way to a replay by steps that all go well if and only if it is a rotation lost on its way back or at its commit, or a lock expiring under an exchange |
| TokenRenewal.ExpiredLockReplays | src/integrations/mercadolivre/mercadolivre-connector.ts:140-209 | in any world where a call exchanges under the lock: its transaction expires, another call renews in full, and the first request arrives with a used token, nothing having been lost |
| TokenRenewal.ReplaysIffStranded | src/integrations/mercadolivre/mercadolivre-connector.ts:162-208 | the next renewal replays a token exactly when the row asks for renewal and holds a used one, which only such a mishap can cause |
| TokenRenewal.LostCommitStrands | src/integrations/mercadolivre/mercadolivre-connector.ts:174-206 | such a run exists: the exchange succeeds and the commit behind it is lost |
| TokenRenewal.RenewalsAreSpaced | src/integrations/mercadolivre/mercadolivre-connector.ts:162-173 | two grants in a row are a renewal apart only once the earlier one is within five minutes of its expiry |
| TokenRenewal.ReturnsTheLastGrant | src/integrations/mercadolivre/mercadolivre-connector.ts:114-209 | in every run whoever is returned a token gets the last one granted: by its own renewal, or off the row, at arrival or after waiting, and then good for more than five minutes |
| TokenRenewal.WaiterReusesRenewal | src/integrations/mercadolivre/mercadolivre-connector.ts:162-173 | a caller that waited behind a renewal valid beyond the margin returns the token that renewal was granted and presents nothing |
| TokenRenewal.RenewalNeverReconnects | src/integrations/integrations.service.ts:92-110 | a disconnected row stays disconnected in every run until somebody authorises it again |
| TokenRenewal.DisconnectedAnswersNobody | src/integrations/integrations.service.ts:92-110 | once disconnected with its row free, an integration answers no caller, whatever renewals do, until it is authorised again |
| TokenRenewal.InvInEveryRun | src/integrations/mercadolivre/mercadolivre-connector.ts:114-209 | the lock holder's row cannot move under it, and without mishap an unlocked active row holds a token not yet used |
| TokenRenewal.UndisturbedCall | src/integrations/mercadolivre/mercadolivre-connector.ts:114-209 | the interleaved machine left alone does what the row object does |
| TokenRenewal.TenantIntegration.RenewUnderLock | src/integrations/shopee/shopee-connector.ts:129-228 | checks again under the lock; after a successful exchange every later check hands out the new access token until five minutes before its end and then asks to renew with the rotated refresh token, or the old one if none came; in every other case the row stays as it was |
| TokenRenewal.TenantIntegration.Disconnect | src/integrations/integrations.service.ts:92-110 | blanks the row, if there is one, so that every check refuses |
| TokenRenewal.TenantIntegration.Reauthorise | src/integrations/mercadolivre/mercadolivre-auth.service.ts:202-232 | whatever the row was, a disconnected or missing one included, from then on every check hands out the new access token until five minutes before it ends and asks to renew with the new refresh token afterwards |
| TokenFamilies.OneUnconsumedIff | src/auth/refresh-token.service.ts:72-122 | over every run of overlapping logins, rotations and sweeps, a family has one unconsumed token plus one for each exchange of a token already exchanged; so exactly one, the comment's claim, if and only if no two rotations of one of its tokens both read it before either wrote and both wrote |
| TokenFamilies.OverlappingRotationsFork | src/auth/refresh-token.service.ts:72-104 | two refreshes of any usable token that both read before either writes both succeed, and the family has two tokens that rotate |
| TokenFamilies.ExchangedTwiceOverlapped | src/auth/refresh-token.service.ts:80-101 | a token exchanged twice in a run was exchanged by rotations each of which read it before the other wrote |
| TokenFamilies.ConsumedForGood | src/auth/refresh-token.service.ts:82-90 | read after it was exchanged, a token is a replay in every continuation |
| TokenFamilies.RotatesIff | src/auth/refresh-token.service.ts:74-92 | in every run a token rotates exactly when nobody has exchanged it, no sweep that started after it came has finished over it, and it has not expired |
| TokenFamilies.RevokedIff | src/auth/refresh-token.service.ts:168-180 | a row is revoked exactly when a sweep that covers it started after it came and has finished |
| TokenFamilies.SweptFamilyDeadIff | src/auth/refresh-token.service.ts:172-180 | after the last sweep to start for a family has finished, no token in it is live if and only if no rotation in it was open across the sweep: none read before it finished and wrote after it started |
| TokenFamilies.SweepMissesOpenRotation | src/auth/refresh-token.service.ts:72-122 | for every usable token: a refresh that read before a sweep of its family and writes after it leaves the swept family a token that rotates |
| TokenFamilies.RevivesIff | src/auth/refresh-token.service.ts:172-180 | a dead family can have a token rotate again, in some continuation, exactly when a rotation in it is still open |
| TokenFamilies.DeadForGood | src/auth/refresh-token.service.ts:172-180 | a dead family in which no rotation is open never changes again in any run: no exchange, no new token, no lifted revocation |
| TokenFamilies.SweepKills | src/auth/auth.service.ts:180-198 | a sweep after a replay or a password reset that starts with no rotation of the family open and finishes before any other step kills it in every continuation |
| TokenFamilies.SweepsStayInTheirScope | src/auth/refresh-token.service.ts:168-180 | a sweep revokes exactly the rows of its family, or of its user, that were there when it started, keeps earlier revocation times, and changes no other row |
| TokenFamilies.OneUserPerFamily | src/auth/refresh-token.service.ts:45-47 | in every run a family has one user |
| RefreshTokens.InvInEveryRun | src/auth/refresh-token.service.ts:72-180 | the invariant over overlapping logins, rotations, logouts, sweeps run late, lost or never, and resets |
| RefreshTokens.RotationAlone | src/auth/refresh-token.service.ts:72-122 | a rotation nobody overlaps is the one of the object below |
| RefreshTokens.ReplayCallsForASweep | src/auth/refresh-token.service.ts:84-112 | an exchanged token presented again, or its logout, calls for one more sweep of its family and changes nothing else |
| RefreshTokens.RefreshTokenService.RotateToken | src/auth/refresh-token.service.ts:72-122 | rejects, sweeps the family of a consumed token, or consumes and reissues, in the order the code checks; the new token rotates for its user, in the same family, for exactly seven days, the old one is a replay from then on, and no other row moves; a hash collision rolls the consumption back |
| RefreshTokens.RefreshTokenService.IssueForNewSession | src/auth/refresh-token.service.ts:45-47 | one new unconsumed row, which rotates for exactly seven days |
| RefreshTokens.RefreshTokenService.RevokeSession | src/auth/refresh-token.service.ts:129-139 | sweeps the token's family exactly when the token is the caller's own |
| RefreshTokens.RefreshTokenService.RevokeAllSessions | src/auth/refresh-token.service.ts:142-147 | no token of the user rotates any more at any time; earlier revocation times are kept, nothing else in those rows moves, and no other user's row does |
| RefreshTokens.RefreshTokenService.RevokeFamily | src/auth/refresh-token.service.ts:172-180 | no token of the family rotates any more at any time; earlier revocation times are kept, nothing else in those rows moves, and no other family's row does |
| VerificationTokens.TwoOpenIff | src/auth/verification-token.service.ts:44-67 | over every run of overlapping issues and consumes, two links work for one user and purpose if and only if two issues for them overlapped and since then nobody has spent either link and no later issue has retired either |
| VerificationTokens.OverlappingIssuesLeaveTwo | src/auth/verification-token.service.ts:44-67 | any two issues for one user and purpose, the second started before the first has finished, leave two links that both work |
| VerificationTokens.OpenIff | src/auth/verification-token.service.ts:44-107 | in every run a link is open exactly while nobody has spent it and no issue for its user and purpose, started since it came, has finished |
| VerificationTokens.IssuingRetiresTheRest | src/auth/verification-token.service.ts:44-67 | an issue that finishes leaves its own link working, retires every link of its user and purpose that was there when it started, and changes no other |
| VerificationTokens.ConsumedForGood | src/auth/verification-token.service.ts:82-107 | presented after it was spent or retired, a link is refused for any purpose in every continuation |
| VerificationTokens.SpentTwiceOverlapped | src/auth/verification-token.service.ts:82-107 | a link spent twice in a run was spent by calls each of which read it before the other stamped it |
| VerificationTokens.OverlappingConsumesBothSucceed | src/auth/verification-token.service.ts:82-107 | and any two such calls both succeed |
| VerificationTokens.PurposesNeverMix | src/auth/verification-token.service.ts:91-98 | in every continuation a link is accepted only for the purpose it was issued for, before it expires, and names the user it was issued to |
| VerificationTokens.InvInEveryRun | src/auth/verification-token.service.ts:44-107 | the invariant over overlapping issues and consumes |
| VerificationTokens.IssuingAlone | src/auth/verification-token.service.ts:44-67 | an issue nobody overlaps is the one of the object below |
| VerificationTokens.ConsumingAlone | src/auth/verification-token.service.ts:82-107 | and so is a consume |
| VerificationTokens.VerificationTokenService.IssueToken | src/auth/verification-token.service.ts:15-67 | retires and creates in one transaction: the new link is the only open one for the user and purpose, accepted for exactly a day to verify an address and an hour to reset a password, and no other slot moves; a hash collision changes nothing |
| VerificationTokens.VerificationTokenService.ConsumeToken | src/auth/verification-token.service.ts:82-107 | answers whose the token was exactly when it is known, for this purpose, unconsumed and unexpired, and spends it: presented again it is refused |
| Staff.NeverRunsOutOfHolders | src/auth/staff/staff.service.ts:195-311 | run one at a time, role changes, grants and revocations never empty the set of accounts holding staff.manage |
| Staff.RefusedIffItWouldEmpty | src/auth/staff/staff.service.ts:425-443 | judged on the holders as they are, the last-holder refusal comes exactly when the write would leave nobody |
| Staff.HoldersAreResolved | src/auth/staff/staff.service.ts:321-344 | the two EXISTS select exactly the accounts whose resolved permissions contain staff.manage |
| Staff.ResolveEffectivePermissions | src/auth/authz/role-permissions.ts:42-55 | the loop yields exactly the keys of role and grants that the catalogue knows |
| Staff.StaffService.LockHolders | src/auth/staff/staff.service.ts:321-344 | returns exactly the accounts for which the access token would resolve staff.manage |
| Staff.StaffService.AssertStoreKeepsAnAdministrator | src/auth/staff/staff.service.ts:425-443 | passes exactly when the target is no holder or somebody is left: the other holders, and the target if what it keeps still has the permission |
| Staff.StaffService.ChangeRole | src/auth/staff/staff.service.ts:195-228 | each refusal has its exact cause; else the account has the role, its grants are as they were, it can do exactly what that role and those grants let it, and no other account moved |
| Staff.StaffService.Grant | src/auth/staff/staff.service.ts:237-261 | each refusal has its exact cause; else the key is granted, by whoever granted it first, no other grant, role or account moved, and the account can do that if the code knows the key |
| Staff.StaffService.Revoke | src/auth/staff/staff.service.ts:269-311 | each refusal has its exact cause; else the key is not among the account's grants, every other grant keeps its grantor, no role or other account moved, and the account can no longer do that unless its role lets it |
| StaffRaces.EmptiedOnlyWhenOvertaken | src/auth/staff/staff.service.ts:313-344 | over every run of overlapping operations, with the snapshot of the select, its row locks and its re-reading, nobody is left only through a write that was overtaken: since its snapshot its target was given staff.manage or lost a grant of it, or every other account it counted lost its grant |
| StaffRaces.DemotionsKeepAHolder | src/auth/staff/staff.service.ts:313-344 | however many role changes and other operations overlap, the locks keep a holder as long as none revokes a grant of staff.manage or gives it |
| StaffRaces.LockedSetTells | src/auth/staff/staff.service.ts:321-344 | in every run an account in the locked set holds unless its grant was revoked since the snapshot, and a holder is in it unless given the permission since |
| StaffRaces.RoleChangesAreReread | src/auth/staff/staff.service.ts:321-344 | a call that waited behind role changes giving nobody the permission has the holders as they are |
| StaffRaces.WriteEmptiesIff | src/auth/staff/staff.service.ts:195-311 | a write that takes its target out leaves nobody only if every other account its call counted has had its grant revoked since the snapshot; exactly then, where those held by grant alone and nobody else was given the permission since; and in general when also none of them holds through anything else |
| StaffRaces.RaceEmptiesIff | src/auth/staff/staff.service.ts:313-344 | for any two operations that selected on one store: they leave nobody if and only if the one that runs first is a revocation, each takes its own target out, and those two were all; behind a role change the second re-reads and refuses |
| StaffRaces.RenouncingTogetherEmpties | src/auth/staff/staff.service.ts:313-344 | whenever two accounts hold by grant only and are all there are, both renouncing at once pass the guard and nobody is left, FOR UPDATE notwithstanding |
| StaffRaces.NewHolderMissed | src/auth/staff/staff.service.ts:313-344 | role changes alone can do it when the target was promoted behind the snapshot, for any such accounts and roles |
| StaffRaces.InvInEveryRun | src/auth/staff/staff.service.ts:195-344 | what a snapshot, a locked set and a judgement are still worth after every step of the others |
| StaffRaces.UndisturbedIsSerial | src/auth/staff/staff.service.ts:195-311 | a call that nobody overlaps is the serial operation |
| StaffRaces.CommittedMeans | src/auth/staff/staff.service.ts:195-311 | in every run a committed role change or revocation means what it means alone, whatever it overlapped |
| StaffRaces.GrantedMeans | src/auth/staff/staff.service.ts:237-261 | and so does a grant |
| StaffRaces.NoSelfEscalation | src/auth/staff/staff.service.ts:195-311 | over any overlapping run of operations an account makes, or that are aimed at others, its own effective permissions never grow |
| StaffRaces.FirstGrantIsTheFact | src/auth/staff/staff.service.ts:248-257 | whoever made a grant first stays on record through every overlapping repeat until a revocation of it begins |
| VariantRemoval.EveryProductKeepsAVariant | src/catalog/products.service.ts:516-576 | over any interleaving of removals, cart changes and checkouts every product keeps a variant, and every cart line and order item points at one that is there |
| VariantRemoval.SoldForGood | src/catalog/products.service.ts:526-534 | a checkout takes its cart lines, and what it sold stays a variant in every continuation |
| VariantRemoval.DeletesAtMostWhatWasConfirmed | src/catalog/products.service.ts:848-870 | a committed removal deleted only lines it had counted, having counted exactly the number confirmed, and none when nothing was confirmed |
| VariantRemoval.DeletesExactlyIff | src/catalog/products.service.ts:556-565 | over every run a committed removal deleted exactly the lines it counted less those customers took away between its count and its deleteMany; so exactly the number confirmed if and only if none of them was taken |
| VariantRemoval.FewerThanConfirmed | src/catalog/products.service.ts:556-565 | a run in which it deletes fewer: a line's owner empties the cart between the count and the delete |
| VariantRemoval.CascadeFindsNothing | src/catalog/products.service.ts:564-565 | from the deleteMany to the commit no line of the variant can come or go, so the cascade never deletes anything |
| VariantRemoval.RemovalWritesOnlyAtCommit | src/catalog/products.service.ts:516-576 | a removal writes nothing until it commits, and then exactly the variant and its lines |
| VariantRemoval.CommitKeepsProducts | src/catalog/products.service.ts:528-549 | another variant of the product remains, because the same removal holds its lock |
| VariantRemoval.InvInEveryRun | src/catalog/products.service.ts:516-576 | locks are exclusive, and each phase of each removal still knows its lines |
| VariantRemoval.UndisturbedOutcome | src/catalog/products.service.ts:516-576 | a removal left alone gives the first refusal that applies, in the code's order, or removes the variant and all its lines |
| VariantRemoval.ProductsService.RemoveVariant | src/catalog/products.service.ts:516-576 | the code as written reaches the outcome and state of the machine left alone: removed exactly when the confirmation is whole, the variant is the product's, unsold and not its last, and its cart lines are as many as confirmed, or none when nothing was |
| VariantOrder.ProductVariants.ReorderVariants | src/catalog/products.service.ts:471-495 | with nobody writing between its statements, accepts exactly the permutations of the product's variants, and afterwards the only display order is the list sent; a refusal changes nothing |
| VariantOrder.ProductVariants.AddVariant | src/catalog/products.service.ts:264-310 | with nobody writing between its statements, refuses exactly a missing product and a label in use; with no position given the new size is shown last, whatever its id and whatever gaps exist |
| VariantOrder.OverlappingAddLastIff | src/catalog/products.service.ts:264-310 | two adds that both read the positions before either inserts take the same one, and the second is shown last exactly when its id is the larger |
| VariantOrder.ReorderedAddLastIff | src/catalog/products.service.ts:264-310 | an add that read the positions before a reorder wrote them is shown last exactly when its position clears the last place, or ties with it by a larger id |
| VariantOrder.AssertIsExactVariantSet | src/catalog/products.service.ts:795-813 | accepts exactly the lists equal to the product's variants as multisets, and tells repeats apart |
| VariantOrder.NextPosition | src/catalog/products.service.ts:784-789 | zero, or one past the highest position in use |
| VariantOrder.VariantRows | src/catalog/products.service.ts:894-917 | refuses exactly repeated labels; no sizes means the single size, others keep label, position, stock and dimensions with the index as default position |
| VariantOrder.DisplayIsUnique | src/catalog/products.service.ts:161-164 | position then id leaves one display order |
| VariantOrder.DisplayExists | src/catalog/products.service.ts:161-164 | and there always is one |
| VariantOrder.CreatedInOrder | src/catalog/products.service.ts:909-917 | a product created without positions shows its sizes in the order they were sent, whatever ids they get |
| ShippingTable.ParseRates | src/shipping/shipping-table.ts:111-152 | accepted exactly when every entry is a bracket and the bounds strictly ascend |
| ShippingTable.ParseOption | src/shipping/shipping-table.ts:170-211 | accepted exactly when every field is well formed; the option is read field by field |
| ShippingTable.NonBlankIff | src/shipping/shipping-table.ts:99-101 | a code or label is taken exactly when something is left of it after trimming |
| ShippingTable.OptionReadsBack | src/shipping/shipping-table.ts:170-211 | an option written down as configuration is accepted and read back as it is, field by field |
| ShippingTable.ParseShippingTable | src/shipping/shipping-table.ts:220-250 | accepted exactly for a non-empty array of acceptable options with distinct codes, kept in order |
| ShippingTable.ParsePrefixes | src/shipping/shipping-table.ts:154-168 | every prefix kept has one to eight digits |
| Freight.FirstMatchIsLeast | src/shipping/table-shipping.provider.ts:80-86 | in an accepted table the first bracket that covers the parcel is the least that does, and one is found exactly up to the last bound |
| Freight.OfferedIff | src/shipping/table-shipping.provider.ts:69-95 | an option is offered exactly when a prefix matches and the weight is within its last bracket, at the least covering bracket's price, or zero past the threshold |
| Freight.QuotedAreOffers | src/shipping/table-shipping.provider.ts:35-98 | a quote contains exactly the offers of the table's options, and nothing for a malformed postal code |
| Freight.AddingUnitsNeverAddsAnOption | src/shipping/table-shipping.provider.ts:45-62 | putting more units or lines into the cart never adds an option |
| Freight.RowOrderNeverShows | src/shipping/table-shipping.provider.ts:97-124 | the quote does not depend on the order of the table's rows |
| Freight.SortedOptionsAreUnique | src/shipping/table-shipping.provider.ts:109-124 | price, days, code leave one order of the options |
| Freight.UnitWeighsTheGreater | src/shipping/table-shipping.provider.ts:45-62 | one piece weighs its own or the default weight, or a sixth of its box's volume rounded half up, whichever is more; without all three dimensions its own |
| Freight.ParcelIsPieceByPiece | src/shipping/table-shipping.provider.ts:45-62 | a parcel weighs what its pieces weigh together, written out one by one |
| Freight.TableShippingProvider.Quote | src/shipping/table-shipping.provider.ts:35-124 | the options are exactly those of the table with a matching prefix and a bracket for the weight of the pieces, at the first such bracket's price, or free from the threshold on; cheaper first, then faster, with no estimate last, then by code; nothing for a malformed postal code |
| Freight.PostalCodeIff | src/shipping/shipping-table.ts:80-84 | a postal code is accepted exactly with eight digits among its characters, and eight plain digits are taken as they are |
| Freight.PunctuationIsIgnored | src/shipping/shipping-table.ts:80-84 | a hyphen or any other character that is not a digit never changes the destination |
| Freight.OfferedIsAccepted | src/orders/shipping-quote.service.ts:167-205 | with cart, catalogue and table unchanged, an option shown is accepted at the price it was shown at |
| Freight.ChargedIsAsserted | src/orders/shipping-quote.service.ts:167-205 | the choice is accepted exactly when an option has that code and price, so the price charged is the one asserted; each refusal has its exact cause |
| Slug.NextAvailableSlug | src/catalog/slug.ts:26-42 | the base, or the least free suffix from 2, found within one more try than there are slugs taken |
| Slug.TriedAreTaken | src/catalog/slug.ts:36-39 | the pigeonhole behind termination: distinct suffixes tried are distinct slugs taken |
| Slug.NextAvailableIsUnique | src/catalog/slug.ts:26-42 | the answer is determined by the set of slugs taken |
| Slug.PrefixQueryIsEnough | src/catalog/products.service.ts:947-957 | asking only for slugs that start with the base gives the same answer as the whole table |
| Slug.SlugifyGivesASlug | src/catalog/slug.ts:6-15 | whatever the name, the slug fits the pattern of the DTO |
| Slug.SlugifyIsIdempotent | src/catalog/slug.ts:6-15 | slugify of a slug is that slug |
| Slug.SlugifyKeepsLetters | src/catalog/slug.ts:6-15 | an ASCII name, accented or not, keeps its letters, lowered, and its digits, in order, and nothing else but hyphens; without any it becomes the fallback |
| Slug.SeparatorsBecomeOneHyphen | src/catalog/slug.ts:11-12 | whatever stands between two words becomes one hyphen |
| Slug.SlugsAreHyphenated | src/catalog/dto/create-product.dto.ts:23 | the pattern means: alphanumerics and single hyphens, none at the ends |
| Slug.CandidateIsASlug | src/catalog/slug.ts:41 | a suffixed slug fits the pattern |
| Slug.ResolveSlug | src/catalog/products.service.ts:941-957 | a product named anything gets a slug nobody has, that fits the pattern, and is the next available one |
| Printers.DecryptUndoesEncrypt | src/integrations/crypto/encryption.service.ts:59-104 | decrypt undoes encrypt through the hexadecimal and colon framing, for every text and nonce, given a correct cipher |
| Printers.HexRoundTrip | src/integrations/crypto/encryption.service.ts:84-87 | hexadecimal reads back and never contains the separator |
| Printers.BadFormatIff | src/integrations/crypto/encryption.service.ts:76-82 | a payload is refused for its format exactly when it has not two colons |
| Printers.FivePassesAreOne | src/mail/order-email-templates.ts:39-46 | the five replacements are one character-wise map: nothing escaped twice, nothing missed |
| Printers.EscapedTextReadsBack | src/mail/order-email-templates.ts:39-46 | escaped text reads back as what was stored and contains no markup character |
| Printers.AmountsAreGrouped | src/mail/order-email-templates.ts:22-31 | units come in groups of three digits, the first of one to three |
| Printers.FormatBRLIsInjective | src/mail/order-email-templates.ts:22-31 | two different amounts in cents never read the same |
| Printers.AmountReadsBack | src/mail/order-email-templates.ts:22-31 | an amount is an optional minus, the currency, the units without their dots, a comma and two digits, and those read back as the cents |
| Decimal.ValueOfNumeral | src/mail/order-email-templates.ts:25-29 | a decimal numeral reads back as its number |

## Left out

- HTTP: controllers, DTO decorators, guards, throttling, logging and request context.
- Calls to payment providers, mail, the ERP, carriers and marketplaces, beyond the steps whose answers are parameters here.
- Cryptography: hashing, random tokens, AES-GCM and signatures.
- Stock pushes to marketplaces after a sale: fire and forget, working from a stale read.
- Whether a marketplace order is imported once: the code looks the external id up before its transaction and no unique index backs it, so the transaction is modelled and the lookup is not.
- Deadlock freedom of checkout: lines are locked in cart order, and the code claims none.
- Lazy creation of the cart row: a cart is the lines of its user.
- CRUD of categories and products, listing, renaming, archiving, reports, seeding and the admin command line.
- Floating point in carrier freight and marketplace prices: prices are integer cents already rounded, dimensions integers.
- Role contents: they change by seeding only and are constant in `Staff`.
- Deleting accounts: no operation of the repository does, so the models of staff and tokens have no such step.
- Error messages: a refusal is modelled by its kind and, where the code names lines or counts, by those.
- Tables.ImportOrder: the mapping of marketplace items to variants and the fallback variant are a parameter, so the lines are any lines.
- TableShippingProvider.Quote: the sort is an insertion sort on values, not the runtime's sort in place.
