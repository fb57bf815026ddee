/** Where the stock is: on the shelf, or on an order that has not given it back. */
module Conservation {
  import opened Wrappers
  import opened Rows
  import opened Shop
  import opened Effects
  import opened Lifecycle

  /** The states in which an order keeps its pieces off the shelf. */
  predicate Holding(s: Status) {
    s != CANCELLED && s != REFUNDED
  }

  function HeldBy(o: Order, v: VariantId): int {
    if Holding(o.status) then Units(o.items, v) else 0
  }

  ghost function Held(orders: map<OrderId, Order>, v: VariantId): int
    decreases |orders|
  {
    if orders == map[] then 0
    else var o :| o in orders; HeldBy(orders[o], v) + Held(orders - {o}, v)
  }

  /** The sum can be started from any order. */
  lemma {:induction false} HeldSplit(orders: map<OrderId, Order>, o: OrderId, v: VariantId)
    requires o in orders
    ensures Held(orders, v) == HeldBy(orders[o], v) + Held(orders - {o}, v)
    decreases |orders|
  {
    var p :| p in orders && Held(orders, v) == HeldBy(orders[p], v) + Held(orders - {p}, v);
    if p != o {
      HeldSplit(orders - {p}, o, v);
      HeldSplit(orders - {o}, p, v);
      assert orders - {p} - {o} == orders - {o} - {p};
    }
  }

  lemma HeldPut(orders: map<OrderId, Order>, o: OrderId, row: Order, v: VariantId)
    ensures Held(orders[o := row], v) ==
            Held(orders, v) + HeldBy(row, v) - (if o in orders then HeldBy(orders[o], v) else 0)
  {
    HeldSplit(orders[o := row], o, v);
    assert orders[o := row] - {o} == orders - {o};
    if o in orders {
      HeldSplit(orders, o, v);
    } else {
      assert orders - {o} == orders;
    }
  }

  /** Cancel and refund restock the lines they read from that order. */
  ghost predicate WellRead(db: Db, txn: Txn) {
    (txn.Cancel? || txn.Refund?) && txn.order in db.orders ==> txn.items == db.orders[txn.order].items
  }

  ghost predicate AllWellRead(db: Db, log: seq<Txn>) {
    forall i :: 0 <= i < |log| ==> WellRead(ApplyAll(db, log[..i]), log[i])
  }

  /** The difference a stock count, the opening count of a new variant or the end of an old one makes. */
  function CorrectionOf(db: Db, txn: Txn, v: VariantId): int {
    match txn
    case SetQuantity(w, n) => if w == v then n - Stock(db, v) else 0
    case AddVariant(w, n) => if w == v then n else 0
    case RemoveVariant(w, _) => if w == v then -Stock(db, v) else 0
    case _ => 0
  }

  /** Pieces a marketplace sold that the shelf could not cover; their order exists all the same. */
  function RefusedOf(txn: Txn, v: VariantId): int
    requires Admissible(txn)
  {
    if txn.Import? then Units(txn.items, v) - TakenUnits(txn.items, txn.taken, v) else 0
  }

  ghost function Correction(db: Db, txn: Txn, v: VariantId): int {
    if Commits(db, txn) then CorrectionOf(db, txn, v) else 0
  }

  ghost function RefusedUnits(db: Db, txn: Txn, v: VariantId): int {
    if Commits(db, txn) then RefusedOf(txn, v) else 0
  }

  ghost function Corrections(db: Db, log: seq<Txn>, v: VariantId): int {
    if log == [] then 0
    else
      var init := log[..|log| - 1];
      Corrections(db, init, v) + Correction(ApplyAll(db, init), log[|log| - 1], v)
  }

  ghost function Refused(db: Db, log: seq<Txn>, v: VariantId): int {
    if log == [] then 0
    else
      var init := log[..|log| - 1];
      Refused(db, init, v) + RefusedUnits(ApplyAll(db, init), log[|log| - 1], v)
  }

  lemma PlacedConserves(db: Db, db': Db, o: OrderId, row: Order, taken: seq<bool>, v: VariantId)
    requires |row.items| == |taken| && Placed(db, db', o, row, taken) && Holding(row.status)
    ensures Stock(db', v) + Held(db'.orders, v) ==
            Stock(db, v) + Held(db.orders, v) + Units(row.items, v) - TakenUnits(row.items, taken, v)
  {
    HeldPut(db.orders, o, row, v);
  }

  lemma MovedConserves(db: Db, db': Db, o: OrderId, change: Change, items: seq<Item>, v: VariantId)
    requires Moved(db, db', o, change, items)
    requires items == if Holding(To(change)) then [] else db.orders[o].items
    ensures Stock(db', v) + Held(db'.orders, v) == Stock(db, v) + Held(db.orders, v)
  {
    HeldPut(db.orders, o, Amend(db.orders[o], change), v);
  }

  lemma EffectConserves(db: Db, txn: Txn, db': Db, v: VariantId)
    requires Admissible(txn) && Effect(db, txn, db') && WellRead(db, txn)
    ensures Stock(db', v) + Held(db'.orders, v) ==
            Stock(db, v) + Held(db.orders, v) + CorrectionOf(db, txn, v) + RefusedOf(txn, v)
  {
    match txn
    case Checkout(o, u, items, _, shipping) =>
      AllTaken(items, v);
      PlacedConserves(db, db', o, NewOrder(u, items, shipping, None), All(|items|), v);
    case Import(o, u, items, taken, shipping, paidAt) =>
      PlacedConserves(db, db', o, NewOrder(u, items, shipping, paidAt), taken, v);
    case Cancel(o, items, at) => MovedConserves(db, db', o, ToCancelled(at), items, v);
    case Refund(o, items, at, ref) => MovedConserves(db, db', o, ToRefunded(at, ref), items, v);
    case MarkPaid(o, at, intent) => MovedConserves(db, db', o, ToPaid(at, intent), [], v);
    case Ship(o, at) => MovedConserves(db, db', o, ToShipped(at), [], v);
    case Deliver(o, at) => MovedConserves(db, db', o, ToDelivered(at), [], v);
    case _ =>
  }

  lemma StepConserves(db: Db, txn: Txn, v: VariantId)
    requires WellRead(db, txn)
    ensures Stock(Apply(db, txn), v) + Held(Apply(db, txn).orders, v) ==
            Stock(db, v) + Held(db.orders, v) + Correction(db, txn, v) + RefusedUnits(db, txn, v)
  {
    if Commits(db, txn) {
      CommitEffect(db, txn);
      EffectConserves(db, txn, Apply(db, txn), v);
    }
  }

  /**
   * Where each cancellation and refund restocks what the order holds then: shelf stock plus the pieces on orders that
   * hold them is the starting amount, plus corrections, plus import pieces whose
   * decrement was refused.
   */
  lemma {:induction false} WellReadConserves(db: Db, log: seq<Txn>, v: VariantId)
    requires AllWellRead(db, log)
    ensures var end := ApplyAll(db, log);
      Stock(end, v) + Held(end.orders, v) ==
      Stock(db, v) + Held(db.orders, v) + Corrections(db, log, v) + Refused(db, log, v)
    decreases |log|
  {
    if log != [] {
      var init := log[..|log| - 1];
      forall i | 0 <= i < |init| ensures WellRead(ApplyAll(db, init[..i]), init[i]) {
        assert init[..i] == log[..i];
      }
      WellReadConserves(db, init, v);
      StepConserves(ApplyAll(db, init), log[|log| - 1], v);
    }
  }

  lemma {:induction false} ApplyAllSplit(db: Db, log: seq<Txn>, j: nat)
    requires j <= |log|
    ensures ApplyAll(db, log) == ApplyAll(ApplyAll(db, log[..j]), log[j..])
    decreases |log|
  {
    if j == |log| {
      assert log[..j] == log && log[j..] == [];
    } else {
      var init := log[..|log| - 1];
      ApplyAllSplit(db, init, j);
      assert init[..j] == log[..j] && log[j..][..|log| - j - 1] == init[j..];
      hide Apply;
    }
  }

  /** A cancellation or refund restocks what it read off the order in some earlier state of the run. */
  ghost predicate ReadInTime(db: Db, log: seq<Txn>, i: nat)
    requires i < |log|
  {
    log[i].Cancel? || log[i].Refund? ==>
      exists j: nat :: j <= i && log[i].order in ApplyAll(db, log[..j]).orders
                       && log[i].items == ApplyAll(db, log[..j]).orders[log[i].order].items
  }

  /** However early it was read: the lines of an order are frozen. */
  lemma ReadInTimeIsWellRead(db: Db, log: seq<Txn>, i: nat)
    requires i < |log| && ReadInTime(db, log, i)
    ensures WellRead(ApplyAll(db, log[..i]), log[i])
  {
    if log[i].Cancel? || log[i].Refund? {
      var j: nat :| j <= i && log[i].order in ApplyAll(db, log[..j]).orders
                    && log[i].items == ApplyAll(db, log[..j]).orders[log[i].order].items;
      assert log[..i][..j] == log[..j];
      ApplyAllSplit(db, log[..i], j);
      ContentsAreFrozen(ApplyAll(db, log[..j]), log[..i][j..], log[i].order);
    }
    hide ApplyAll;
  }

  /**
   * Over every run, whatever is interleaved and however early a cancellation or a refund
   * read its order: shelf stock plus the pieces on orders that hold them is the starting
   * amount, plus corrections, plus import pieces whose decrement was refused.
   */
  lemma StockIsConserved(db: Db, log: seq<Txn>, v: VariantId)
    requires forall i :: 0 <= i < |log| ==> ReadInTime(db, log, i)
    ensures var end := ApplyAll(db, log);
      Stock(end, v) + Held(end.orders, v) ==
      Stock(db, v) + Held(db.orders, v) + Corrections(db, log, v) + Refused(db, log, v)
  {
    forall i | 0 <= i < |log| ensures WellRead(ApplyAll(db, log[..i]), log[i]) {
      ReadInTimeIsWellRead(db, log, i);
    }
    WellReadConserves(db, log, v);
    hide ApplyAll;
  }

  /** The shelf is never oversold. */
  lemma {:induction false} StockStaysNonNegative(db: Db, log: seq<Txn>)
    requires NonNegative(db)
    ensures NonNegative(ApplyAll(db, log))
    decreases |log|
  {
    if log != [] {
      var init, txn := log[..|log| - 1], log[|log| - 1];
      StockStaysNonNegative(db, init);
      if Commits(ApplyAll(db, init), txn) {
        CommitEffect(ApplyAll(db, init), txn);
      }
    }
  }
}
