/** The life of an order: the states it visits, what is stamped, and what never changes. */
module Lifecycle {
  import opened Wrappers
  import opened Rows
  import opened Money
  import opened Seqs
  import opened Shop
  import opened Effects

  /** CREATED to PAID to SHIPPED to DELIVERED, with exits CREATED to CANCELLED and PAID to REFUNDED. */
  predicate Edge(a: Status, b: Status) {
    || (a == CREATED && (b == PAID || b == CANCELLED))
    || (a == PAID && (b == SHIPPED || b == REFUNDED))
    || (a == SHIPPED && b == DELIVERED)
  }

  predicate Terminal(s: Status) {
    s == DELIVERED || s == CANCELLED || s == REFUNDED
  }

  function Stamp(stamps: Stamps, s: Status): Option<Time>
    requires s != CREATED
  {
    match s
    case PAID => stamps.paidAt
    case SHIPPED => stamps.shippedAt
    case DELIVERED => stamps.deliveredAt
    case CANCELLED => stamps.cancelledAt
    case REFUNDED => stamps.refundedAt
  }

  /** The part of an order that checkout froze. */
  predicate SameContents(a: Order, b: Order) {
    && a.user == b.user && a.items == b.items
    && a.itemsSubtotalCents == b.itemsSubtotalCents
    && a.shippingCents == b.shippingCents && a.totalCents == b.totalCents
  }

  /** The states `o` has been in over the run, in order, each listed once per visit. */
  ghost function History(db: Db, log: seq<Txn>, o: OrderId): seq<Status> {
    if log == [] then (if o in db.orders then [db.orders[o].status] else [])
    else
      var init := log[..|log| - 1];
      var h, end := History(db, init, o), ApplyAll(db, log);
      if o in end.orders && (h == [] || h[|h| - 1] != end.orders[o].status) then h + [end.orders[o].status] else h
  }

  ghost predicate Path(h: seq<Status>) {
    forall i :: 0 < i < |h| ==> Edge(h[i - 1], h[i])
  }

  /** One transaction leaves an order as it is, or moves it along one edge and stamps that move alone. */
  lemma OrderStep(db: Db, txn: Txn, o: OrderId)
    requires o in db.orders
    ensures var db' := Apply(db, txn);
      && o in db'.orders && SameContents(db.orders[o], db'.orders[o])
      && (db'.orders[o] == db.orders[o] ||
          (Edge(db.orders[o].status, db'.orders[o].status) &&
           forall s :: s != CREATED ==>
             Stamp(db'.orders[o].stamps, s).Some? ==
             (s == db'.orders[o].status || Stamp(db.orders[o].stamps, s).Some?)))
      && (db.orders[o].intent.Some? ==> db.orders[o].status != CREATED ==> db'.orders[o].intent == db.orders[o].intent)
  {
    ApplyOrders(db, txn);
    hide Apply, Commits, PassesChecks, ItemsSubtotalCents, NewOrder;
  }

  /** An order is born CREATED, or PAID by an import, with the stamps of that state. */
  lemma OrderBirth(db: Db, txn: Txn, o: OrderId)
    requires o !in db.orders && o in Apply(db, txn).orders
    ensures var row := Apply(db, txn).orders[o];
      && (row.status == CREATED || row.status == PAID)
      && (forall s :: s != CREATED ==> Stamp(row.stamps, s).Some? == (s == row.status))
      && row.itemsSubtotalCents == ItemsSubtotalCents(row.items) && PassesChecks(row)
      && row.intent == None && row.refundRef == None
      && (txn.Checkout? || txn.Import?) && txn.order == o
      && row.user == txn.user && row.items == txn.items && row.shippingCents == txn.shippingCents
      && row.stamps.paidAt == if txn.Import? then txn.paidAt else None
  {
    ApplyOrders(db, txn);
    hide Apply, Commits;
  }

  /** What each move writes: its status, its own timestamp, and the reference it came with; every other column is as it was. */
  lemma MovesWrite(db: Db, txn: Txn)
    requires Commits(db, txn) && (txn.MarkPaid? || txn.Ship? || txn.Deliver? || txn.Cancel? || txn.Refund?)
    ensures txn.order in db.orders && txn.order in Apply(db, txn).orders
    ensures var before, after := db.orders[txn.order], Apply(db, txn).orders[txn.order];
      && (forall o :: o in db.orders && o != txn.order ==> o in Apply(db, txn).orders && Apply(db, txn).orders[o] == db.orders[o])
      && match txn
         case MarkPaid(_, at, intent) =>
           && before.status == CREATED && after.intent == (if intent.Some? then intent else before.intent)
           && after == before.(status := PAID, stamps := after.stamps, intent := after.intent)
           && after.stamps == before.stamps.(paidAt := Some(at))
         case Ship(_, at) =>
           before.status == PAID && after == before.(status := SHIPPED, stamps := before.stamps.(shippedAt := Some(at)))
         case Deliver(_, at) =>
           before.status == SHIPPED && after == before.(status := DELIVERED, stamps := before.stamps.(deliveredAt := Some(at)))
         case Cancel(_, _, at) =>
           before.status == CREATED && after == before.(status := CANCELLED, stamps := before.stamps.(cancelledAt := Some(at)))
         case Refund(_, _, at, ref) =>
           && before.status == PAID && after.refundRef == (if ref.Some? then ref else before.refundRef)
           && after == before.(status := REFUNDED, stamps := after.stamps, refundRef := after.refundRef)
           && after.stamps == before.stamps.(refundedAt := Some(at))
  {
    ApplyOrders(db, txn);
    hide Apply, Commits, PassesChecks;
  }

  lemma {:induction false} HistoryEnds(db: Db, log: seq<Txn>, o: OrderId)
    ensures var h := History(db, log, o);
      if o in ApplyAll(db, log).orders then h != [] && h[|h| - 1] == ApplyAll(db, log).orders[o].status else h == []
    decreases |log|
  {
    if log != [] {
      var init := log[..|log| - 1];
      HistoryEnds(db, init, o);
      if o in ApplyAll(db, init).orders {
        OrderStep(ApplyAll(db, init), log[|log| - 1], o);
      }
    }
  }

  /** Every order's history, over every run, is a path of the lifecycle graph. */
  lemma {:induction false} HistoryIsPath(db: Db, log: seq<Txn>, o: OrderId)
    ensures Path(History(db, log, o))
    decreases |log|
  {
    if log != [] {
      var init := log[..|log| - 1];
      HistoryIsPath(db, init, o);
      HistoryEnds(db, init, o);
      if o in ApplyAll(db, init).orders {
        OrderStep(ApplyAll(db, init), log[|log| - 1], o);
      }
    }
  }

  function Rank(s: Status): nat {
    match s
    case CREATED => 0
    case PAID => 1
    case SHIPPED => 2
    case DELIVERED => 3
    case CANCELLED => 3
    case REFUNDED => 3
  }

  lemma {:induction false} PathClimbs(h: seq<Status>, i: nat, j: nat)
    requires Path(h) && i < j < |h|
    ensures Rank(h[i]) < Rank(h[j])
    decreases j
  {
    if i < j - 1 {
      PathClimbs(h, i, j - 1);
    }
    assert Edge(h[j - 1], h[j]);
  }

  /** No state is entered twice, and nothing follows a terminal state. */
  lemma NoStateTwice(db: Db, log: seq<Txn>, o: OrderId, i: nat, j: nat)
    requires i < j < |History(db, log, o)|
    ensures History(db, log, o)[i] != History(db, log, o)[j]
    ensures !Terminal(History(db, log, o)[i])
  {
    HistoryIsPath(db, log, o);
    PathClimbs(History(db, log, o), i, j);
    assert Edge(History(db, log, o)[i], History(db, log, o)[i + 1]);
  }

  /** For an order born in the run, a timestamp is set exactly when its state was visited. */
  lemma {:induction false} StampsAreTheHistory(db: Db, log: seq<Txn>, o: OrderId, s: Status)
    requires o !in db.orders && o in ApplyAll(db, log).orders && s != CREATED
    ensures Stamp(ApplyAll(db, log).orders[o].stamps, s).Some? <==> s in History(db, log, o)
    decreases |log|
  {
    var init, txn := log[..|log| - 1], log[|log| - 1];
    var before := ApplyAll(db, init);
    HistoryEnds(db, init, o);
    if o in before.orders {
      StampsAreTheHistory(db, init, o, s);
      OrderStep(before, txn, o);
    } else {
      OrderBirth(before, txn, o);
    }
  }

  /** The status alone tells which timestamps are set: REFUNDED never shipped, CANCELLED never paid. */
  ghost predicate StampsMatch(row: Order) {
    && (row.stamps.paidAt.Some? <==> row.status in {PAID, SHIPPED, DELIVERED, REFUNDED})
    && (row.stamps.shippedAt.Some? <==> row.status in {SHIPPED, DELIVERED})
    && (row.stamps.deliveredAt.Some? <==> row.status == DELIVERED)
    && (row.stamps.cancelledAt.Some? <==> row.status == CANCELLED)
    && (row.stamps.refundedAt.Some? <==> row.status == REFUNDED)
  }

  ghost predicate OrderSound(row: Order) {
    && PassesChecks(row) && row.itemsSubtotalCents == ItemsSubtotalCents(row.items)
    && StampsMatch(row)
    && (row.intent.Some? ==> row.status in {PAID, SHIPPED, DELIVERED, REFUNDED})
  }

  ghost predicate OrdersSound(db: Db) {
    forall o :: o in db.orders ==> OrderSound(db.orders[o])
  }

  /**
   * Every write keeps every order sound: its total is the sum of its frozen lines plus
   * freight, its timestamps are those of its status, and it names a payment intent only
   * once it has been paid.
   */
  lemma OrdersStaySound(db: Db, txn: Txn)
    requires OrdersSound(db)
    ensures OrdersSound(Apply(db, txn))
  {
    ApplyOrders(db, txn);
    hide Apply, Commits, PassesChecks;
    if Commits(db, txn) {
      match txn
      case Checkout(_, u, items, _, shipping) => NewOrderSound(u, items, shipping, None);
      case Import(_, u, items, _, shipping, paidAt) => NewOrderSound(u, items, shipping, paidAt);
      case Cancel(o, _, at) => AmendSound(db.orders[o], ToCancelled(at));
      case Refund(o, _, at, ref) => AmendSound(db.orders[o], ToRefunded(at, ref));
      case MarkPaid(o, at, intent) => AmendSound(db.orders[o], ToPaid(at, intent));
      case Ship(o, at) => AmendSound(db.orders[o], ToShipped(at));
      case Deliver(o, at) => AmendSound(db.orders[o], ToDelivered(at));
      case _ =>
    }
    hide OrderSound, NewOrder, Amend;
  }

  lemma {:induction false} NewOrderSound(user: UserId, items: seq<Item>, shippingCents: int, paidAt: Option<Time>)
    requires PassesChecks(NewOrder(user, items, shippingCents, paidAt))
    ensures OrderSound(NewOrder(user, items, shippingCents, paidAt))
  {
    hide ItemsSubtotalCents;
  }

  lemma {:induction false} AmendSound(o: Order, change: Change)
    requires OrderSound(o) && o.status == From(change)
    ensures OrderSound(Amend(o, change))
  {
    hide ItemsSubtotalCents;
  }

  lemma {:induction false} OrdersSoundInEveryRun(db: Db, log: seq<Txn>)
    requires OrdersSound(db)
    ensures OrdersSound(ApplyAll(db, log))
    decreases |log|
  {
    if log != [] {
      OrdersSoundInEveryRun(db, log[..|log| - 1]);
      OrdersStaySound(ApplyAll(db, log[..|log| - 1]), log[|log| - 1]);
    }
  }

  /** The table's constraints let an order in exactly if it has lines, one per variant, each of some pieces at some price, and freight that is not negative. */
  lemma {:induction false} ChecksPassIff(user: UserId, items: seq<Item>, shippingCents: int, paidAt: Option<Time>)
    ensures PassesChecks(NewOrder(user, items, shippingCents, paidAt)) <==>
            && items != [] && shippingCents >= 0
            && (forall i :: 0 <= i < |items| ==> 1 <= items[i].quantity && 1 <= items[i].unitPriceCents)
            && (forall i, j :: 0 <= i < |items| && 0 <= j < |items| && items[i].variant == items[j].variant ==> i == j)
  {
    if forall i :: 0 <= i < |items| ==> 1 <= items[i].quantity && 1 <= items[i].unitPriceCents {
      SubtotalIsPositive(items);
    }
    hide ItemsSubtotalCents;
  }

  lemma {:induction false} SubtotalIsPositive(items: seq<Item>)
    requires forall i :: 0 <= i < |items| ==> 1 <= items[i].quantity && 1 <= items[i].unitPriceCents
    ensures if items == [] then ItemsSubtotalCents(items) == 0 else ItemsSubtotalCents(items) > 0
    decreases |items|
  {
    if items != [] { SubtotalIsPositive(items[..|items| - 1]); }
  }

  /**
   * In every run an order has pieces, all of some price, one line per variant; its total less
   * its freight, which is not negative, is the sum of the prices of its pieces.
   */
  lemma {:induction false} OrdersChargeTheirPieces(db: Db, log: seq<Txn>, o: OrderId)
    requires OrdersSound(db) && o in ApplyAll(db, log).orders
    ensures var row := ApplyAll(db, log).orders[o];
      && row.totalCents - row.shippingCents == row.itemsSubtotalCents == Sum(PiecePrices(row.items))
      && row.itemsSubtotalCents > 0 && row.shippingCents >= 0
      && (forall i :: 0 <= i < |row.items| ==> row.items[i].quantity >= 1 && row.items[i].unitPriceCents >= 1)
      && (forall i, j :: 0 <= i < j < |row.items| ==> row.items[i].variant != row.items[j].variant)
  {
    OrdersSoundInEveryRun(db, log);
    assert OrderSound(ApplyAll(db, log).orders[o]);
    SubtotalIsPieceByPiece(ApplyAll(db, log).orders[o].items);
  }

  /** What checkout or an import froze, no later transaction changes, and no order disappears. */
  lemma {:induction false} ContentsAreFrozen(db: Db, log: seq<Txn>, o: OrderId)
    requires o in db.orders
    ensures o in ApplyAll(db, log).orders && SameContents(db.orders[o], ApplyAll(db, log).orders[o])
    decreases |log|
  {
    if log != [] {
      ContentsAreFrozen(db, log[..|log| - 1], o);
      OrderStep(ApplyAll(db, log[..|log| - 1]), log[|log| - 1], o);
    }
  }

  // ---------- Restocking ----------

  /** Every order item and cart line points at a variant that exists and has a shelf. */
  ghost predicate ReferencesLive(db: Db) {
    && db.listings == db.shelf.Keys
    && (forall o, i :: o in db.orders && 0 <= i < |db.orders[o].items| ==> db.orders[o].items[i].variant in db.listings)
    && (forall l :: l in db.lines ==> db.lines[l].variant in db.listings)
  }

  /**
   * RESTRICT and the locks at work: no transaction, the removal of a variant included,
   * leaves an order item or a cart line pointing at nothing.
   */
  lemma ReferencesStayLive(db: Db, txn: Txn)
    requires ReferencesLive(db)
    ensures ReferencesLive(Apply(db, txn))
  {
    if txn.RemoveVariant? {
      ApplyEffect(db, txn);
      if Commits(db, txn) { RemovalKeepsReferences(db, txn.variant, txn.cleared); }
    } else {
      OthersKeepReferences(db, txn);
    }
  }

  lemma OthersKeepReferences(db: Db, txn: Txn)
    requires ReferencesLive(db) && !txn.RemoveVariant?
    ensures ReferencesLive(Apply(db, txn))
  {
    ApplyEffect(db, txn);
    ApplyOrders(db, txn);
    hide Apply, Commits, Stock, NonNegative, PassesChecks, ItemsSubtotalCents, Sold, Names;
  }

  lemma RemovalKeepsReferences(db: Db, v: VariantId, cleared: seq<LineId>)
    requires ReferencesLive(db) && !Sold(db, v)
    requires forall l :: l in db.lines && db.lines[l].variant == v ==> l in cleared
    ensures ReferencesLive(Removed(db, v, cleared))
  {
    forall o, i | o in db.orders && 0 <= i < |db.orders[o].items|
      ensures db.orders[o].items[i].variant != v
    {
      assert !Names(db.orders[o], v);
    }
  }

  lemma {:induction false} ReferencesLiveInEveryRun(db: Db, log: seq<Txn>)
    requires ReferencesLive(db)
    ensures ReferencesLive(ApplyAll(db, log))
    decreases |log|
  {
    if log != [] {
      ReferencesLiveInEveryRun(db, log[..|log| - 1]);
      ReferencesStayLive(ApplyAll(db, log[..|log| - 1]), log[|log| - 1]);
    }
  }

  /** After any run, removals included, cancelling the order commits exactly while it is CREATED. */
  lemma RestocksNeverMiss(db: Db, log: seq<Txn>, o: OrderId, at: Time, ref: Option<Ref>)
    requires OrdersSound(db) && ReferencesLive(db) && o in ApplyAll(db, log).orders
    ensures var end := ApplyAll(db, log);
      && (Commits(end, Cancel(o, end.orders[o].items, at)) <==> end.orders[o].status == CREATED)
      && (Commits(end, Refund(o, end.orders[o].items, at, ref)) <==> end.orders[o].status == PAID)
  {
    OrdersSoundInEveryRun(db, log);
    ReferencesLiveInEveryRun(db, log);
    CancelCommitsIff(ApplyAll(db, log), o, at);
    RefundCommitsIff(ApplyAll(db, log), o, at, ref);
  }

  /** A variant somebody bought is there for good. */
  lemma SoldVariantsStay(db: Db, log: seq<Txn>, v: VariantId)
    requires ReferencesLive(db) && Sold(db, v)
    ensures var end := ApplyAll(db, log);
      Sold(end, v) && v in end.listings && v in end.shelf && forall cleared :: !Commits(end, RemoveVariant(v, cleared))
  {
    var end := ApplyAll(db, log);
    var o :| o in db.orders && Names(db.orders[o], v);
    ContentsAreFrozen(db, log, o);
    ReferencesLiveInEveryRun(db, log);
    assert Names(end.orders[o], v);
    var i :| 0 <= i < |end.orders[o].items| && end.orders[o].items[i].variant == v;
    forall cleared ensures !Commits(end, RemoveVariant(v, cleared)) {
      RemovalCommitsIff(end, v, cleared);
    }
  }

  /** A cancellation commits exactly on a CREATED order: the restock behind it never misses. */
  lemma CancelCommitsIff(db: Db, o: OrderId, at: Time)
    requires OrdersSound(db) && ReferencesLive(db) && o in db.orders
    ensures Commits(db, Cancel(o, db.orders[o].items, at)) <==> db.orders[o].status == CREATED
  {
    GivesBackIff(db, o, ToCancelled(at));
  }

  /** A refund is recorded exactly on a PAID order. */
  lemma RefundCommitsIff(db: Db, o: OrderId, at: Time, ref: Option<Ref>)
    requires OrdersSound(db) && ReferencesLive(db) && o in db.orders
    ensures Commits(db, Refund(o, db.orders[o].items, at, ref)) <==> db.orders[o].status == PAID
  {
    GivesBackIff(db, o, ToRefunded(at, ref));
  }

  lemma GivesBackIff(db: Db, o: OrderId, change: Change)
    requires OrdersSound(db) && ReferencesLive(db) && o in db.orders
    ensures Perform(db, [UpdateOrder(o, change)] + Restocks(db.orders[o].items)).Some? <==>
            db.orders[o].status == From(change)
  {
    var items := db.orders[o].items;
    PerformConcat(db, [UpdateOrder(o, change)], Restocks(items));
    PerformOne(db, UpdateOrder(o, change));
    if db.orders[o].status == From(change) {
      assert OrderSound(db.orders[o]);
      RestocksSucceed(db.(orders := db.orders[o := Amend(db.orders[o], change)]), items);
    }
  }

  /** How many committed cancellations and refunds of `o` the run contains: each restocks once. */
  ghost function Returned(db: Db, log: seq<Txn>, o: OrderId): nat {
    if log == [] then 0
    else
      var init, txn := log[..|log| - 1], log[|log| - 1];
      Returned(db, init, o) +
      (if GivesBack(txn, o) && Commits(ApplyAll(db, init), txn) then 1 else 0)
  }

  /** How many times the run moves, or imports, `o` into PAID. */
  ghost function PaidEntries(db: Db, log: seq<Txn>, o: OrderId): nat {
    if log == [] then 0
    else
      var init, txn := log[..|log| - 1], log[|log| - 1];
      var before, after := ApplyAll(db, init), ApplyAll(db, log);
      PaidEntries(db, init, o) +
      (if o in after.orders && after.orders[o].status == PAID &&
          (o !in before.orders || before.orders[o].status != PAID) then 1 else 0)
  }

  predicate GaveBack(db: Db, o: OrderId) {
    o in db.orders && (db.orders[o].status == CANCELLED || db.orders[o].status == REFUNDED)
  }

  predicate GivesBack(txn: Txn, o: OrderId) {
    (txn.Cancel? || txn.Refund?) && txn.order == o
  }

  /** Only a cancellation or a refund of `o` makes it an order that gave back, and none commits after. */
  lemma GivesBackOnce(db: Db, txn: Txn, o: OrderId)
    ensures GaveBack(Apply(db, txn), o) <==> GaveBack(db, o) || (GivesBack(txn, o) && Commits(db, txn))
    ensures GaveBack(db, o) && GivesBack(txn, o) ==> !Commits(db, txn)
  {
    ApplyOrders(db, txn);
    hide Apply, Commits, PassesChecks, ItemsSubtotalCents;
  }

  /** An order is restocked once when it ends CANCELLED or REFUNDED and never otherwise, cancel and refund together. */
  lemma {:induction false} RestockedAtMostOnce(db: Db, log: seq<Txn>, o: OrderId)
    requires !GaveBack(db, o)
    ensures Returned(db, log, o) == if GaveBack(ApplyAll(db, log), o) then 1 else 0
    decreases |log|
  {
    if log != [] {
      RestockedAtMostOnce(db, log[..|log| - 1], o);
      GivesBackOnce(ApplyAll(db, log[..|log| - 1]), log[|log| - 1], o);
      hide Apply, Commits, GaveBack, GivesBack;
    }
  }

  /** An order enters PAID at most once, however often the fact is delivered. */
  lemma {:induction false} PaidAtMostOnce(db: Db, log: seq<Txn>, o: OrderId)
    ensures var end := ApplyAll(db, log);
      && PaidEntries(db, log, o) <= 1
      && (PaidEntries(db, log, o) == 1 ==> o in end.orders && end.orders[o].status in {PAID, SHIPPED, DELIVERED, REFUNDED})
      && (o in db.orders && db.orders[o].status != CREATED ==>
            PaidEntries(db, log, o) == 0 && o in end.orders && end.orders[o].status != CREATED)
    decreases |log|
  {
    if log != [] {
      var init, txn := log[..|log| - 1], log[|log| - 1];
      var before := ApplyAll(db, init);
      PaidAtMostOnce(db, init, o);
      if o in db.orders { ContentsAreFrozen(db, log, o); ContentsAreFrozen(db, init, o); }
      if o in before.orders {
        OrderStep(before, txn, o);
      }
    }
  }
}
