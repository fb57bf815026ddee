/**
 * The database as the orders side of the shop sees it: variants, orders and cart
 * lines as rows, and the single-row statements its services send. Identifiers are
 * UUIDs in the system; only their equality matters, so they are naturals here.
 */
module Rows {
  import opened Wrappers

  type VariantId = nat
  type OrderId = nat
  type LineId = nat
  type UserId = nat
  type Time = nat
  type Ref = nat

  datatype Status = CREATED | PAID | SHIPPED | DELIVERED | CANCELLED | REFUNDED

  datatype Item = Item(variant: VariantId, quantity: int, unitPriceCents: int)

  datatype Stamps = Stamps(
    paidAt: Option<Time>,
    shippedAt: Option<Time>,
    deliveredAt: Option<Time>,
    cancelledAt: Option<Time>,
    refundedAt: Option<Time>)

  datatype Order = Order(
    user: UserId,
    status: Status,
    items: seq<Item>,
    itemsSubtotalCents: int,
    shippingCents: int,
    totalCents: int,
    stamps: Stamps,
    intent: Option<Ref>,
    refundRef: Option<Ref>)

  datatype Shelf = Shelf(stock: int, archived: bool)

  datatype Line = Line(user: UserId, variant: VariantId, quantity: int)

  /**
   * `listings` is the key part of a variant row (what foreign keys point at) and
   * `shelf` the rest of it: Postgres locks the two separately, FOR KEY SHARE
   * against FOR NO KEY UPDATE.
   */
  datatype Db = Db(
    listings: set<VariantId>,
    shelf: map<VariantId, Shelf>,
    orders: map<OrderId, Order>,
    lines: map<LineId, Line>)

  // ---------- What an order row must pass ----------

  /** The CHECK constraints and the (order, variant) unique index an inserted order meets. */
  predicate PassesChecks(o: Order) {
    && (forall i :: 0 <= i < |o.items| ==> o.items[i].quantity > 0 && o.items[i].unitPriceCents > 0)
    && (forall i, j :: 0 <= i < j < |o.items| ==> o.items[i].variant != o.items[j].variant)
    && o.itemsSubtotalCents > 0
    && o.shippingCents >= 0
    && o.totalCents == o.itemsSubtotalCents + o.shippingCents
    && o.totalCents > 0
  }

  // ---------- Conditional updates of an order ----------

  datatype Change =
    | ToPaid(at: Time, intent: Option<Ref>)
    | ToShipped(at: Time)
    | ToDelivered(at: Time)
    | ToCancelled(at: Time)
    | ToRefunded(at: Time, refundRef: Option<Ref>)

  /** The status the UPDATE's WHERE clause asks for. */
  function From(change: Change): Status {
    match change
    case ToPaid(_, _) => CREATED
    case ToShipped(_) => PAID
    case ToDelivered(_) => SHIPPED
    case ToCancelled(_) => CREATED
    case ToRefunded(_, _) => PAID
  }

  function To(change: Change): Status {
    match change
    case ToPaid(_, _) => PAID
    case ToShipped(_) => SHIPPED
    case ToDelivered(_) => DELIVERED
    case ToCancelled(_) => CANCELLED
    case ToRefunded(_, _) => REFUNDED
  }

  /** The columns the UPDATE sets; an absent reference leaves its column alone. */
  function Amend(o: Order, change: Change): Order {
    var o' := o.(status := To(change));
    match change
    case ToPaid(at, intent) =>
      o'.(stamps := o.stamps.(paidAt := Some(at)), intent := if intent.Some? then intent else o.intent)
    case ToShipped(at) => o'.(stamps := o.stamps.(shippedAt := Some(at)))
    case ToDelivered(at) => o'.(stamps := o.stamps.(deliveredAt := Some(at)))
    case ToCancelled(at) => o'.(stamps := o.stamps.(cancelledAt := Some(at)))
    case ToRefunded(at, ref) =>
      o'.(stamps := o.stamps.(refundedAt := Some(at)), refundRef := if ref.Some? then ref else o.refundRef)
  }

  // ---------- Statements ----------

  /**
   * One SQL statement on one row. `productActive` is what the statement's join saw
   * of the owning product, whose row is read without being locked.
   */
  datatype Stmt =
    | DeleteLine(line: LineId, user: UserId)
    | InsertLine(line: LineId, entry: Line)
    | SetLineQuantity(line: LineId, user: UserId, quantity: int)
    | Decrement(variant: VariantId, quantity: int, productActive: bool)
    | Restock(variant: VariantId, quantity: int)
    | SetStock(variant: VariantId, quantity: int)
    | SetArchived(variant: VariantId, archived: bool)
    | InsertListing(variant: VariantId)
    | InsertShelf(variant: VariantId, stock: int)
    | RequireListing(variant: VariantId)
    | LockListing(variant: VariantId)
    | LockShelf(variant: VariantId)
    | ClearLine(line: LineId, variant: VariantId)
    | RemoveListing(variant: VariantId)
    | RemoveShelf(variant: VariantId)
    | InsertOrder(order: OrderId, row: Order)
    | UpdateOrder(order: OrderId, change: Change)

  predicate Names(o: Order, v: VariantId) {
    exists i :: 0 <= i < |o.items| && o.items[i].variant == v
  }

  /** An order item points at the variant: RESTRICT refuses its deletion. */
  predicate Sold(db: Db, v: VariantId) {
    exists o :: o in db.orders && Names(db.orders[o], v)
  }

  /**
   * A cart line points at the variant. The removal has deleted its lines by then, so the
   * cascade behind the key finds none; a program that left one behind is refused here.
   */
  predicate InACart(db: Db, v: VariantId) {
    exists l :: l in db.lines && db.lines[l].variant == v
  }

  /** A statement changes its row, matches no row, or throws. */
  datatype Outcome = Hit | Miss | Error

  function ExecStmt(db: Db, s: Stmt): (Db, Outcome) {
    match s
    case DeleteLine(l, u) =>
      if l in db.lines && db.lines[l].user == u then (db.(lines := db.lines - {l}), Hit) else (db, Miss)
    case InsertLine(l, entry) =>
      if l in db.lines || entry.quantity <= 0 then (db, Error) else (db.(lines := db.lines[l := entry]), Hit)
    case SetLineQuantity(l, u, n) =>
      if l !in db.lines || db.lines[l].user != u then (db, Miss)
      else if n <= 0 then (db, Error)
      else (db.(lines := db.lines[l := db.lines[l].(quantity := n)]), Hit)
    case Decrement(v, n, productActive) =>
      if n <= 0 then (db, Error)
      else if v in db.shelf && db.shelf[v].stock >= n && !db.shelf[v].archived && productActive then
        (db.(shelf := db.shelf[v := db.shelf[v].(stock := db.shelf[v].stock - n)]), Hit)
      else (db, Miss)
    case Restock(v, n) =>
      if n <= 0 || v !in db.shelf then (db, Error)
      else (db.(shelf := db.shelf[v := db.shelf[v].(stock := db.shelf[v].stock + n)]), Hit)
    case SetStock(v, n) =>
      if v !in db.shelf then (db, Miss)
      else if n < 0 then (db, Error)
      else (db.(shelf := db.shelf[v := db.shelf[v].(stock := n)]), Hit)
    case SetArchived(v, b) =>
      if v !in db.shelf then (db, Miss)
      else (db.(shelf := db.shelf[v := db.shelf[v].(archived := b)]), Hit)
    case InsertListing(v) =>
      if v in db.listings then (db, Error) else (db.(listings := db.listings + {v}), Hit)
    case InsertShelf(v, n) =>
      if v in db.shelf || n < 0 then (db, Error) else (db.(shelf := db.shelf[v := Shelf(n, false)]), Hit)
    case RequireListing(v) =>
      if v in db.listings then (db, Hit) else (db, Error)
    case LockListing(v) => if v in db.listings then (db, Hit) else (db, Miss)
    case LockShelf(v) => if v in db.shelf then (db, Hit) else (db, Miss)
    case ClearLine(l, v) =>
      if l in db.lines && db.lines[l].variant == v then (db.(lines := db.lines - {l}), Hit) else (db, Miss)
    case RemoveListing(v) =>
      if v !in db.listings then (db, Miss)
      else if Sold(db, v) || InACart(db, v) then (db, Error)
      else (db.(listings := db.listings - {v}), Hit)
    case RemoveShelf(v) => if v in db.shelf then (db.(shelf := db.shelf - {v}), Hit) else (db, Miss)
    case InsertOrder(o, row) =>
      if o in db.orders || !PassesChecks(row) then (db, Error) else (db.(orders := db.orders[o := row]), Hit)
    case UpdateOrder(o, change) =>
      if o in db.orders && db.orders[o].status == From(change) then
        (db.(orders := db.orders[o := Amend(db.orders[o], change)]), Hit)
      else (db, Miss)
  }

  /** The statements in order, each of which must take effect. */
  function Perform(db: Db, stmts: seq<Stmt>): Option<Db> {
    if stmts == [] then Some(db)
    else
      match Perform(db, stmts[..|stmts| - 1])
      case None => None
      case Some(d) =>
        var (d', outcome) := ExecStmt(d, stmts[|stmts| - 1]);
        if outcome == Hit then Some(d') else None
  }

  lemma {:induction false} PerformOne(db: Db, s: Stmt)
    ensures Perform(db, [s]) == if ExecStmt(db, s).1 == Hit then Some(ExecStmt(db, s).0) else None
  {
    assert [s][..0] == [];
    assert Perform(db, []) == Some(db);
  }

  /** Statements can be grouped: running a + b is running a, then b. */
  lemma {:induction false} PerformConcat(db: Db, a: seq<Stmt>, b: seq<Stmt>)
    ensures Perform(db, a + b) ==
            if Perform(db, a).None? then None else Perform(Perform(db, a).value, b)
    decreases |b|
  {
    if b == [] {
      assert a + b == a;
    } else {
      assert (a + b)[..|a + b| - 1] == a + b[..|b| - 1];
      PerformConcat(db, a, b[..|b| - 1]);
    }
  }

  lemma {:induction false} PerformSnoc(db: Db, a: seq<Stmt>, s: Stmt)
    ensures Perform(db, a + [s]) ==
            match Perform(db, a)
            case None => None
            case Some(d) => if ExecStmt(d, s).1 == Hit then Some(ExecStmt(d, s).0) else None
  {
    assert (a + [s])[..|a|] == a;
  }
}
