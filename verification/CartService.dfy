/** The cart: one line per user and variant, read in id order, priced at live prices. */
module CartService {
  import opened Wrappers
  import opened Rows
  import opened Money
  import opened Shop
  import opened Effects
  import opened Seqs
  import opened Checkouts
  import Services = OrdersService

  const MAX_ITEM_QUANTITY: int := 999

  /** The unique index on cart and variant. */
  ghost predicate UniqueLines(lines: map<LineId, Line>) {
    forall l, m :: l in lines && m in lines && SameSlot(lines[l], lines[m]) ==> l == m
  }

  predicate SameSlot(a: Line, b: Line) {
    a.user == b.user && a.variant == b.variant
  }

  predicate IsLineFor(lines: map<LineId, Line>, l: LineId, user: UserId, v: VariantId) {
    l in lines && lines[l].user == user && lines[l].variant == v
  }

  ghost function LineFor(lines: map<LineId, Line>, user: UserId, v: VariantId): (l: LineId)
    requires exists l :: IsLineFor(lines, l, user, v)
    ensures IsLineFor(lines, l, user, v)
  {
    var l :| IsLineFor(lines, l, user, v);
    l
  }

  /** How many pieces of `v` the user's cart holds. */
  ghost function QuantityOf(lines: map<LineId, Line>, user: UserId, v: VariantId): int {
    if exists l :: IsLineFor(lines, l, user, v) then lines[LineFor(lines, user, v)].quantity else 0
  }

  lemma TheLine(lines: map<LineId, Line>, l: LineId, user: UserId, v: VariantId)
    requires UniqueLines(lines) && IsLineFor(lines, l, user, v)
    ensures QuantityOf(lines, user, v) == lines[l].quantity
  {
    assert SameSlot(lines[l], lines[LineFor(lines, user, v)]);
  }

  /** One user's pieces of one variant changed, and nothing else. */
  ghost predicate OnlyChanged(before: map<LineId, Line>, after: map<LineId, Line>, user: UserId, v: VariantId, quantity: int) {
    forall u, w :: QuantityOf(after, u, w) == if u == user && w == v then quantity else QuantityOf(before, u, w)
  }

  lemma StillUnique(lines: map<LineId, Line>, l: LineId, line: Line)
    requires UniqueLines(lines) && forall m :: m in lines && SameSlot(lines[m], line) ==> m == l
    ensures UniqueLines(lines[l := line])
  {
  }

  /** The slot `l` fills, or may take. */
  ghost predicate IsSlot(lines: map<LineId, Line>, l: LineId, user: UserId, v: VariantId) {
    forall m :: m in lines && (m == l || IsLineFor(lines, m, user, v)) ==> m == l && IsLineFor(lines, m, user, v)
  }

  /** Only the one line, of this user and variant, is written or added. */
  lemma OneLineWritten(lines: map<LineId, Line>, l: LineId, user: UserId, v: VariantId, quantity: int, u: UserId, w: VariantId)
    requires UniqueLines(lines) && IsSlot(lines, l, user, v)
    ensures var lines' := lines[l := Line(user, v, quantity)];
      UniqueLines(lines') &&
      QuantityOf(lines', u, w) == if u == user && w == v then quantity else QuantityOf(lines, u, w)
  {
    var lines' := lines[l := Line(user, v, quantity)];
    StillUnique(lines, l, Line(user, v, quantity));
    hide UniqueLines;
    if u == user && w == v {
      TheLine(lines', l, user, v);
    } else if exists m :: IsLineFor(lines, m, u, w) {
      var m :| IsLineFor(lines, m, u, w);
      TheLine(lines, m, u, w);
      assert IsLineFor(lines', m, u, w);
      TheLine(lines', m, u, w);
    } else {
      assert forall m :: IsLineFor(lines', m, u, w) ==> IsLineFor(lines, m, u, w);
    }
  }

  /** Removing the line of a variant, or no line. */
  lemma LinesRemoved(lines: map<LineId, Line>, gone: set<LineId>, u: UserId, w: VariantId)
    requires UniqueLines(lines)
    requires (forall l :: IsLineFor(lines, l, u, w) ==> l in gone) || (forall l :: IsLineFor(lines, l, u, w) ==> l !in gone)
    ensures UniqueLines(lines - gone)
    ensures QuantityOf(lines - gone, u, w) ==
            if exists l :: l in gone && IsLineFor(lines, l, u, w) then 0 else QuantityOf(lines, u, w)
  {
    var lines' := lines - gone;
    assert forall l, m :: l in lines' && m in lines' && SameSlot(lines'[l], lines'[m]) ==> SameSlot(lines[l], lines[m]);
    if exists l :: IsLineFor(lines', l, u, w) {
      var l :| IsLineFor(lines', l, u, w);
      assert IsLineFor(lines, l, u, w);
      TheLine(lines, l, u, w);
      TheLine(lines', l, u, w);
    } else {
      forall l | IsLineFor(lines, l, u, w) ensures l in gone {
        assert l !in gone ==> IsLineFor(lines', l, u, w);
      }
    }
  }

  lemma OnlySlot(lines: map<LineId, Line>, l: LineId, user: UserId, v: VariantId)
    requires UniqueLines(lines)
    requires IsLineFor(lines, l, user, v) || (l !in lines && forall m :: !IsLineFor(lines, m, user, v))
    ensures IsSlot(lines, l, user, v)
  {
    forall m | m in lines && (m == l || IsLineFor(lines, m, user, v)) ensures m == l && IsLineFor(lines, m, user, v) {
      assert IsLineFor(lines, l, user, v);
      assert SameSlot(lines[m], lines[l]);
    }
  }

  datatype CartView = CartView(items: seq<Item>, itemsSubtotalCents: int, itemCount: int)

  datatype CartResult = Written | BadQuantity | NotFound

  class Carts {
    const tables: Services.Tables

    constructor (tables: Services.Tables)
      ensures this.tables == tables
    {
      this.tables := tables;
    }

    /** The upsert on cart and variant: a repeat adds to the line there is. */
    method AddItem(user: UserId, v: VariantId, quantity: int, active: bool, minted: LineId) returns (r: CartResult)
      requires UniqueLines(tables.lines) && minted !in tables.lines
      modifies tables`lines
      ensures UniqueLines(tables.lines)
      ensures r == BadQuantity <==> !(1 <= quantity <= 999)
      ensures r == NotFound <==> 1 <= quantity <= MAX_ITEM_QUANTITY && !(active && v in tables.listings)
      ensures r != Written ==> tables.lines == old(tables.lines)
      ensures r == Written ==>
                OnlyChanged(old(tables.lines), tables.lines, user, v, QuantityOf(old(tables.lines), user, v) + quantity)
    {
      if quantity < 1 || quantity > MAX_ITEM_QUANTITY {
        return BadQuantity;
      }
      if v !in tables.listings || !active {
        return NotFound;
      }
      ghost var before := tables.lines;
      var target, total := minted, quantity;
      if exists l :: l in tables.lines && IsLineFor(tables.lines, l, user, v) {
        target :| target in tables.lines && IsLineFor(tables.lines, target, user, v);
        total := tables.lines[target].quantity + quantity;
        TheLine(before, target, user, v);
      } else {
        assert forall l :: !IsLineFor(before, l, user, v);
      }
      assert IsSlot(before, target, user, v) by { OnlySlot(before, target, user, v); }
      tables.lines := tables.lines[target := Line(user, v, total)];
      forall u, w
        ensures QuantityOf(tables.lines, u, w) == if u == user && w == v then total else QuantityOf(before, u, w)
      {
        OneLineWritten(before, target, user, v, total, u, w);
      }
      assert UniqueLines(tables.lines) by { OneLineWritten(before, target, user, v, total, user, v); }
      return Written;
    }

    method SetQuantity(user: UserId, v: VariantId, quantity: int) returns (r: CartResult)
      requires UniqueLines(tables.lines)
      modifies tables`lines
      ensures UniqueLines(tables.lines)
      ensures r == BadQuantity <==> !(1 <= quantity <= 999)
      ensures r == Written <==> 1 <= quantity <= MAX_ITEM_QUANTITY && exists l :: IsLineFor(old(tables.lines), l, user, v)
      ensures r != Written ==> tables.lines == old(tables.lines)
      ensures r == Written ==> OnlyChanged(old(tables.lines), tables.lines, user, v, quantity)
    {
      if quantity < 1 || quantity > MAX_ITEM_QUANTITY {
        return BadQuantity;
      }
      if !exists l :: l in tables.lines && IsLineFor(tables.lines, l, user, v) {
        assert forall l :: !IsLineFor(tables.lines, l, user, v);
        return NotFound;
      }
      var l :| l in tables.lines && IsLineFor(tables.lines, l, user, v);
      ghost var before := tables.lines;
      OnlySlot(before, l, user, v);
      tables.lines := tables.lines[l := Line(user, v, quantity)];
      forall u, w
        ensures QuantityOf(tables.lines, u, w) == if u == user && w == v then quantity else QuantityOf(before, u, w)
      {
        OneLineWritten(before, l, user, v, quantity, u, w);
      }
      assert UniqueLines(tables.lines) by { OneLineWritten(before, l, user, v, quantity, user, v); }
      return Written;
    }

    method RemoveItem(user: UserId, v: VariantId) returns (r: CartResult)
      requires UniqueLines(tables.lines)
      modifies tables`lines
      ensures UniqueLines(tables.lines)
      ensures r == Written <==> exists l :: IsLineFor(old(tables.lines), l, user, v)
      ensures OnlyChanged(old(tables.lines), tables.lines, user, v, 0)
    {
      ghost var before := tables.lines;
      var gone := set l | l in tables.lines && IsLineFor(tables.lines, l, user, v);
      tables.lines := tables.lines - gone;
      forall u, w
        ensures QuantityOf(tables.lines, u, w) == if u == user && w == v then 0 else QuantityOf(before, u, w)
      {
        LinesRemoved(before, gone, u, w);
      }
      assert UniqueLines(tables.lines) by { LinesRemoved(before, gone, user, v); }
      if gone == {} {
        assert forall l :: IsLineFor(before, l, user, v) ==> l in gone;
        return NotFound;
      }
      var l :| l in gone;
      assert IsLineFor(before, l, user, v);
      return Written;
    }

    method Clear(user: UserId)
      requires UniqueLines(tables.lines)
      modifies tables`lines
      ensures UniqueLines(tables.lines)
      ensures LinesOf(tables.Model(), user) == {}
      ensures forall u, w :: QuantityOf(tables.lines, u, w) == if u == user then 0 else QuantityOf(old(tables.lines), u, w)
    {
      ghost var before := tables.lines;
      var gone := set l | l in tables.lines && tables.lines[l].user == user;
      tables.lines := tables.lines - gone;
      forall u, w
        ensures QuantityOf(tables.lines, u, w) == if u == user then 0 else QuantityOf(before, u, w)
      {
        LinesRemoved(before, gone, u, w);
      }
      assert UniqueLines(tables.lines) by { LinesRemoved(before, gone, user, 0); }
    }

    /** The user's lines, ORDER BY id. */
    method FindLines(user: UserId) returns (ids: seq<LineId>)
      ensures Elements(ids) == LinesOf(tables.Model(), user) && |ids| == |LinesOf(tables.Model(), user)|
      ensures Ascending(ids)
    {
      ids := [];
      var mine := set l | l in tables.lines && tables.lines[l].user == user;
      var rest := mine;
      hide Elements, Ascending, Below;
      NothingRead(mine);
      while rest != {}
        invariant rest <= mine && Elements(ids) == mine - rest
        invariant Ascending(ids) && Below(ids, rest)
        decreases |rest|
      {
        var l := Least(rest);
        ElementsSnoc(ids, l);
        AscendingSnoc(ids, rest, l);
        ids, rest := ids + [l], rest - {l};
      }
      AscendingSize(ids);
    }

    /** The lines in id order, priced; what a checkout of this reading deletes and sells. */
    method GetCart(user: UserId, prices: map<VariantId, int>) returns (view: CartView, ids: seq<LineId>)
      requires UniqueLines(tables.lines)
      requires forall l :: l in tables.lines ==> tables.lines[l].variant in prices
      ensures Elements(ids) == LinesOf(tables.Model(), user)
      ensures |view.items| == |ids| == |LinesOf(tables.Model(), user)|
      ensures forall i :: 0 <= i < |ids| ==> ids[i] in tables.lines && ReadsAs(tables.lines[ids[i]], prices, view.items[i])
      ensures Ascending(ids)
      ensures DistinctVariants(view.items)
      ensures view.itemsSubtotalCents == ItemsSubtotalCents(view.items) && view.itemCount == ItemCount(view.items)
      ensures Counted(view.items) ==> view.itemsSubtotalCents == Sum(PiecePrices(view.items)) && view.itemCount == |PiecePrices(view.items)|
    {
      ids := FindLines(user);
      assert forall i :: 0 <= i < |ids| ==> ids[i] in Elements(ids);
      assert forall i, j :: 0 <= i < j < |ids| ==> ids[i] != ids[j];
      hide ItemsSubtotalCents, ItemCount, Elements, Ascending;
      var items: seq<Item> := [];
      for i := 0 to |ids|
        invariant |items| == i
        invariant forall k :: 0 <= k < i ==> items[k] == Priced(tables.lines[ids[k]], prices)
      {
        items := items + [Priced(tables.lines[ids[i]], prices)];
      }
      forall i, j | 0 <= i < j < |items| ensures items[i].variant != items[j].variant {
        assert ids[i] in tables.lines && ids[j] in tables.lines && ids[i] != ids[j];
        assert !SameSlot(tables.lines[ids[i]], tables.lines[ids[j]]);
      }
      view := CartView(items, ItemsSubtotalCents(items), ItemCount(items));
      if Counted(items) { SubtotalIsPieceByPiece(items); }
    }
  }

  function Priced(line: Line, prices: map<VariantId, int>): Item {
    Item(line.variant, line.quantity, if line.variant in prices then prices[line.variant] else 0)
  }

  /** The line's variant and quantity, at the price the catalogue has now. */
  ghost predicate ReadsAs(line: Line, prices: map<VariantId, int>, item: Item) {
    line.variant in prices && item.variant == line.variant && item.quantity == line.quantity && item.unitPriceCents == prices[line.variant]
  }

  ghost predicate Ascending(ids: seq<LineId>) {
    forall i, j :: 0 <= i < j < |ids| ==> ids[i] < ids[j]
  }

  ghost predicate Below(ids: seq<LineId>, rest: set<LineId>) {
    forall i, l :: 0 <= i < |ids| && l in rest ==> ids[i] < l
  }

  lemma NothingRead(rest: set<LineId>)
    ensures Elements<LineId>([]) == {} && Ascending([]) && Below([], rest)
  {
  }

  lemma AscendingSnoc(ids: seq<LineId>, rest: set<LineId>, l: LineId)
    requires Ascending(ids) && Below(ids, rest) && l in rest && forall m :: m in rest ==> l <= m
    ensures Ascending(ids + [l]) && Below(ids + [l], rest - {l})
  {
  }

  lemma AscendingSize(ids: seq<LineId>)
    requires Ascending(ids)
    ensures |ids| == |Elements(ids)|
  {
    DistinctSize(ids);
  }

  lemma ElementsSnoc(ids: seq<LineId>, l: LineId)
    ensures Elements(ids + [l]) == Elements(ids) + {l}
  {
    forall x ensures x in ids + [l] <==> x in Elements(ids) + {l} {}
  }

  method Least(s: set<LineId>) returns (l: LineId)
    requires s != {}
    ensures l in s && forall m :: m in s ==> l <= m
  {
    l :| l in s;
    var rest := s - {l};
    while rest != {}
      invariant l in s && rest <= s && forall m :: m in s && m !in rest ==> l <= m
      decreases |rest|
    {
      var m :| m in rest;
      rest := rest - {m};
      if m < l { l := m; }
    }
  }
}
