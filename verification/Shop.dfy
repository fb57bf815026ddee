/**
 * The transactions of the shop, each as the list of row statements that take
 * effect in it, and what every run of them keeps.
 */
module Shop {
  import opened Wrappers
  import opened Rows
  import opened Money

  /**
   * A committed transaction. `deleted` are the cart lines a checkout consumed;
   * `taken` says for which lines of a marketplace import the decrement matched, and
   * `cleared` are the cart lines deleted with a variant.
   */
  datatype Txn =
    | Checkout(order: OrderId, user: UserId, items: seq<Item>, deleted: seq<LineId>, shippingCents: int)
    | Import(order: OrderId, user: UserId, items: seq<Item>, taken: seq<bool>, shippingCents: int, paidAt: Option<Time>)
    | Cancel(order: OrderId, items: seq<Item>, at: Time)
    | Refund(order: OrderId, items: seq<Item>, at: Time, refundRef: Option<Ref>)
    | MarkPaid(order: OrderId, at: Time, intent: Option<Ref>)
    | Ship(order: OrderId, at: Time)
    | Deliver(order: OrderId, at: Time)
    | SetQuantity(variant: VariantId, quantity: int)
    | AddVariant(variant: VariantId, quantity: int)
    | Archive(variant: VariantId, archived: bool)
    | RemoveVariant(variant: VariantId, cleared: seq<LineId>)
    | AddLine(line: LineId, entry: Line)
    | ChangeLine(line: LineId, user: UserId, quantity: int)
    | DropLines(deleted: seq<LineId>, user: UserId)

  const NO_STAMPS := Stamps(None, None, None, None, None)

  /** The row checkout and the imports insert. */
  function NewOrder(user: UserId, items: seq<Item>, shippingCents: int, paidAt: Option<Time>): Order {
    var subtotal := ItemsSubtotalCents(items);
    Order(user, if paidAt.Some? then PAID else CREATED, items, subtotal, shippingCents, subtotal + shippingCents,
          NO_STAMPS.(paidAt := paidAt), None, None)
  }

  function Deletes(lines: seq<LineId>, user: UserId): (r: seq<Stmt>)
    ensures |r| == |lines|
  {
    seq(|lines|, i requires 0 <= i < |lines| => DeleteLine(lines[i], user))
  }

  function Clears(lines: seq<LineId>, v: VariantId): (r: seq<Stmt>)
    ensures |r| == |lines|
  {
    seq(|lines|, i requires 0 <= i < |lines| => ClearLine(lines[i], v))
  }

  /** The decrements of the lines flagged in `taken`; the product was active for each. */
  function Takes(items: seq<Item>, taken: seq<bool>): seq<Stmt>
    requires |items| == |taken|
  {
    if items == [] then []
    else
      var k := |items| - 1;
      Takes(items[..k], taken[..k]) +
        (if taken[k] then [Decrement(items[k].variant, items[k].quantity, true)] else [])
  }

  function Restocks(items: seq<Item>): (r: seq<Stmt>)
    ensures |r| == |items|
  {
    seq(|items|, i requires 0 <= i < |items| => Restock(items[i].variant, items[i].quantity))
  }

  /** The foreign keys of the inserted order items. */
  function Requires(items: seq<Item>): (r: seq<Stmt>)
    ensures |r| == |items|
  {
    seq(|items|, i requires 0 <= i < |items| => RequireListing(items[i].variant))
  }

  /** Taking the stock and inserting the order over it, as checkout and the imports both do. */
  function Places(o: OrderId, row: Order, taken: seq<bool>): seq<Stmt>
    requires |row.items| == |taken|
  {
    Takes(row.items, taken) + Requires(row.items) + [InsertOrder(o, row)]
  }

  function All(n: nat): (r: seq<bool>)
    ensures |r| == n && forall i :: 0 <= i < n ==> r[i]
  {
    seq(n, i => true)
  }

  /** What the service's own code checks before it lets the transaction commit. */
  predicate Admissible(txn: Txn) {
    match txn
    case Checkout(_, _, items, deleted, _) => 0 < |items| == |deleted|
    case Import(_, _, items, taken, _, _) =>
      && 0 < |items| == |taken|
      && forall i :: 0 <= i < |items| ==> items[i].quantity > 0
    case _ => true
  }

  function Program(txn: Txn): seq<Stmt>
    requires Admissible(txn)
  {
    match txn
    case Checkout(o, u, items, deleted, shipping) =>
      Deletes(deleted, u) + Places(o, NewOrder(u, items, shipping, None), All(|items|))
    case Import(o, u, items, taken, shipping, paidAt) =>
      Places(o, NewOrder(u, items, shipping, paidAt), taken)
    case Cancel(o, items, at) => [UpdateOrder(o, ToCancelled(at))] + Restocks(items)
    case Refund(o, items, at, ref) => [UpdateOrder(o, ToRefunded(at, ref))] + Restocks(items)
    case MarkPaid(o, at, intent) => [UpdateOrder(o, ToPaid(at, intent))]
    case Ship(o, at) => [UpdateOrder(o, ToShipped(at))]
    case Deliver(o, at) => [UpdateOrder(o, ToDelivered(at))]
    case SetQuantity(v, n) => [SetStock(v, n)]
    case AddVariant(v, n) => [InsertListing(v), InsertShelf(v, n)]
    case Archive(v, b) => [SetArchived(v, b)]
    case RemoveVariant(v, cleared) => [LockListing(v), LockShelf(v)] + Clears(cleared, v) + [RemoveListing(v), RemoveShelf(v)]
    case AddLine(l, entry) => [RequireListing(entry.variant), InsertLine(l, entry)]
    case ChangeLine(l, u, n) => [SetLineQuantity(l, u, n)]
    case DropLines(lines, u) => Deletes(lines, u)
  }

  /** A transaction commits when every statement it relies on takes effect, and otherwise rolls back. */
  predicate Commits(db: Db, txn: Txn) {
    Admissible(txn) && Perform(db, Program(txn)).Some?
  }

  function Apply(db: Db, txn: Txn): Db {
    if Commits(db, txn) then Perform(db, Program(txn)).value else db
  }

  function ApplyAll(db: Db, log: seq<Txn>): Db {
    if log == [] then db else Apply(ApplyAll(db, log[..|log| - 1]), log[|log| - 1])
  }
}
