/**
 * POST /orders from end to end, beside the quote it is held to: read the cart, price it,
 * quote freight, hold the choice to the price it was shown, and only then the transaction.
 */
module CheckoutService {
  import opened Wrappers
  import opened Seqs
  import opened Rows
  import opened Money
  import opened Shop
  import opened Checkouts
  import opened CartService
  import opened Freight
  import opened ShippingTable
  import Services = OrdersService
  import Lifecycle

  /** What a sellable variant's product and the variant itself say. */
  datatype Article = Article(
    active: bool,
    priceCents: int,
    weightGrams: Option<nat>,
    heightCm: Option<int>,
    widthCm: Option<int>,
    lengthCm: Option<int>)

  type Catalogue = map<VariantId, Article>

  function Prices(articles: Catalogue): map<VariantId, int> {
    map v | v in articles :: articles[v].priceCents
  }

  function ParcelOf(articles: Catalogue, item: Item): Parcel
    requires item.variant in articles && item.quantity >= 0
  {
    var a := articles[item.variant];
    Parcel(a.weightGrams, a.heightCm, a.widthCm, a.lengthCm, item.quantity)
  }

  /** Lines on variants the catalogue has, in positive quantities. */
  predicate Priceable(articles: Catalogue, items: seq<Item>) {
    forall i :: 0 <= i < |items| ==> items[i].variant in articles && items[i].quantity > 0
  }

  /** A line's parcel: its product's weight, its variant's dimensions, its pieces. */
  predicate Carries(article: Article, quantity: int, p: Parcel) {
    && p.weightGrams == article.weightGrams && p.quantity == quantity
    && p.heightCm == article.heightCm && p.widthCm == article.widthCm && p.lengthCm == article.lengthCm
  }

  function Parcels(articles: Catalogue, items: seq<Item>): (r: seq<Parcel>)
    requires Priceable(articles, items)
    ensures |r| == |items| && forall i :: 0 <= i < |r| ==> Carries(articles[items[i].variant], items[i].quantity, r[i])
  {
    seq(|items|, i requires 0 <= i < |items| => ParcelOf(articles, items[i]))
  }

  // ---------- The cart, as a function of the tables ----------

  ghost predicate IsLeast(s: set<LineId>, l: LineId) {
    l in s && forall m :: m in s ==> l <= m
  }

  ghost function LeastOf(s: set<LineId>): (l: LineId)
    requires s != {}
    ensures IsLeast(s, l)
    decreases |s|
  {
    var x :| x in s;
    var rest := s - {x};
    if rest == {} then
      assert forall m :: m in s ==> m == x || m in rest;
      x
    else
      var m := LeastOf(rest);
      assert forall y :: y in s ==> y == x || y in rest;
      if x < m then x else m
  }

  /** ORDER BY id. */
  ghost function SortedIds(s: set<LineId>): seq<LineId>
    decreases |s|
  {
    if s == {} then [] else var l := LeastOf(s); [l] + SortedIds(s - {l})
  }

  lemma FirstIsLeast(ids: seq<LineId>, s: set<LineId>)
    requires Ascending(ids) && Elements(ids) == s && ids != []
    ensures ids[0] in s && LeastOf(s) == ids[0]
    ensures Ascending(ids[1..]) && Elements(ids[1..]) == s - {ids[0]}
  {
    assert ids[0] in ids && ids[0] in s;
    forall m | m in s ensures ids[0] <= m {
      assert m in ids;
    }
    assert IsLeast(s, LeastOf(s));
    hide LeastOf;
    forall x ensures x in Elements(ids[1..]) <==> x in s - {ids[0]} {
      if x in s - {ids[0]} { assert x in ids; }
      if x in Elements(ids[1..]) { assert x in ids[1..]; }
    }
  }

  lemma {:induction false} AscendingIsSorted(ids: seq<LineId>, s: set<LineId>)
    requires Ascending(ids) && Elements(ids) == s
    ensures ids == SortedIds(s)
    decreases |ids|
  {
    if ids == [] {
      assert s == {};
    } else {
      FirstIsLeast(ids, s);
      hide LeastOf, Ascending, Elements;
      AscendingIsSorted(ids[1..], s - {ids[0]});
      assert ids == [ids[0]] + ids[1..];
    }
  }

  ghost function CartItems(db: Db, articles: Catalogue, user: UserId): seq<Item> {
    var ids := SortedIds(LinesOf(db, user));
    seq(|ids|, i requires 0 <= i < |ids| =>
      if ids[i] in db.lines then Priced(db.lines[ids[i]], Prices(articles)) else Item(0, 0, 0))
  }

  lemma ReadingIsTheCart(db: Db, articles: Catalogue, user: UserId, ids: seq<LineId>, items: seq<Item>)
    requires Ascending(ids) && Elements(ids) == LinesOf(db, user) && |items| == |ids|
    requires forall i :: 0 <= i < |ids| ==> ids[i] in db.lines && ReadsAs(db.lines[ids[i]], Prices(articles), items[i])
    ensures items == CartItems(db, articles, user)
  {
    AscendingIsSorted(ids, LinesOf(db, user));
  }

  /** The cart is its lines in id order: each one's variant and quantity, at the price its product has now. */
  ghost predicate IsCart(db: Db, articles: Catalogue, user: UserId, items: seq<Item>) {
    exists ids: seq<LineId> :: Ascending(ids) && Elements(ids) == LinesOf(db, user) && |ids| == |items| &&
      forall i :: 0 <= i < |ids| ==> ids[i] in db.lines && IsPriced(db.lines[ids[i]], articles, items[i])
  }

  ghost predicate IsPriced(line: Line, articles: Catalogue, item: Item) {
    && line.variant in articles
    && item == Item(line.variant, line.quantity, articles[line.variant].priceCents)
  }

  // ---------- The quote ----------

  /** An option with the number a checkout screen renders. */
  datatype QuotedOption = QuotedOption(option: ShippingOption, orderTotalCents: int)

  datatype CartQuote = CartQuote(itemsSubtotalCents: int, options: seq<QuotedOption>)

  /** The configuration of the table provider, and the collation of its codes. */
  datatype Tariff = Tariff(table: seq<TableOption>, freeAboveCents: Option<int>, defaultWeightGrams: nat, rank: string -> int)

  function OptionsFor(t: Tariff, articles: Catalogue, items: seq<Item>, postalCode: string): seq<ShippingOption>
    requires Priceable(articles, items)
  {
    Quoted(t.table, t.freeAboveCents, t.rank, postalCode, ItemsSubtotalCents(items), Parcels(articles, items), t.defaultWeightGrams)
  }

  /** What a cart is offered, in the terms of the configuration: on the weight and the price of its pieces. */
  lemma CartIsOffered(t: Tariff, articles: Catalogue, items: seq<Item>, postalCode: string, o: ShippingOption)
    requires Priceable(articles, items) && Collates(t.rank) && DistinctCodes(t.table)
    ensures Offered(OptionsFor(t, articles, items, postalCode), o) <==>
            NormalizePostalCode(postalCode).Some? &&
            exists i :: 0 <= i < |t.table| && IsOffer(t.table[i], NormalizePostalCode(postalCode).value,
                                                      Sum(PieceWeights(Parcels(articles, items), t.defaultWeightGrams)),
                                                      t.freeAboveCents, Sum(PiecePrices(items)), o)
  {
    SubtotalIsPieceByPiece(items);
    ParcelIsPieceByPiece(Parcels(articles, items), t.defaultWeightGrams);
    hide ItemsSubtotalCents, TotalGrams, Sum, PiecePrices, PieceWeights, Quoted, Offered, IsOffer;
    QuotedAre(t.table, t.freeAboveCents, t.rank, postalCode, ItemsSubtotalCents(items), Parcels(articles, items), t.defaultWeightGrams, o);
  }

  function Shown(items: seq<Item>, options: seq<ShippingOption>): seq<QuotedOption> {
    seq(|options|, i requires 0 <= i < |options| =>
      QuotedOption(options[i], ItemsSubtotalCents(items) + options[i].priceCents))
  }

  predicate SomeInactive(articles: Catalogue, items: seq<Item>)
    requires Priceable(articles, items)
  {
    exists i :: 0 <= i < |items| && !articles[items[i].variant].active
  }

  /** The screen's numbers, off the sum of the pieces. */
  ghost predicate TotalsAreTheSum(quote: CartQuote, sum: int) {
    quote.itemsSubtotalCents == sum && forall q :: q in quote.options ==> q.orderTotalCents == sum + q.option.priceCents
  }

  /** The screen has the option: this code, at this price, with this order total. */
  ghost predicate Shows(quote: seq<QuotedOption>, code: string, priceCents: int, totalCents: int) {
    exists q :: q in quote && q.option.code == code && q.option.priceCents == priceCents && q.orderTotalCents == totalCents
  }

  ghost predicate OnScreen(quote: seq<QuotedOption>, code: string, priceCents: int) {
    exists total :: Shows(quote, code, priceCents, total)
  }

  lemma ChosenIsShown(items: seq<Item>, options: seq<ShippingOption>, code: string, asserted: int)
    requires DistinctOptionCodes(options)
    ensures Select(options, code, asserted).Chosen? <==>
            Shows(Shown(items, options), code, asserted, ItemsSubtotalCents(items) + asserted)
    ensures Select(options, code, asserted).Chosen? ==> Select(options, code, asserted).option.priceCents == asserted
    ensures forall total :: Shows(Shown(items, options), code, asserted, total) ==> total == ItemsSubtotalCents(items) + asserted
  {
    ChargedIsAsserted(options, code, asserted);
    var shown := Shown(items, options);
    if o :| o in options && o.code == code && o.priceCents == asserted {
      var i :| 0 <= i < |options| && options[i] == o;
      assert shown[i] in shown && shown[i].option == o;
    }
    forall q | q in shown ensures q.option in options && q.orderTotalCents == ItemsSubtotalCents(items) + q.option.priceCents {
      var i :| 0 <= i < |shown| && shown[i] == q;
      assert options[i] in options;
    }
    hide ItemsSubtotalCents, Select;
  }

  lemma SortedCodesDiffer(rank: string -> int, s: seq<ShippingOption>, table: seq<TableOption>, postalCode: string, grams: int, free: bool)
    requires Collates(rank) && DistinctCodes(table) && s == Sort(rank, Offers(table, postalCode, grams, free))
    ensures DistinctOptionCodes(s)
  {
    var offers := Offers(table, postalCode, grams, free);
    OffersHaveDistinctCodes(table, postalCode, grams, free);
    SortSorts(rank, offers);
    forall i, j | 0 <= i < j < |s| ensures s[i].code != s[j].code {
      assert s[i] in s && s[j] in s && CompareOptions(rank, s[i], s[j]) < 0;
      assert s[i] in offers && s[j] in offers && s[i] != s[j];
    }
  }

  lemma OptionCodesDiffer(t: Tariff, articles: Catalogue, items: seq<Item>, postalCode: string)
    requires Priceable(articles, items) && Collates(t.rank) && DistinctCodes(t.table)
    ensures DistinctOptionCodes(OptionsFor(t, articles, items, postalCode))
  {
    var cep := NormalizePostalCode(postalCode);
    if cep.Some? {
      SortedCodesDiffer(t.rank, OptionsFor(t, articles, items, postalCode), t.table, cep.value,
                        TotalGrams(Parcels(articles, items), t.defaultWeightGrams),
                        IsFree(t.freeAboveCents, ItemsSubtotalCents(items)));
    }
  }

  // ---------- The routes ----------

  /** How POST /orders answers, up to the payment session. */
  datatype OrderResult =
    | Placed
    | EmptyCart
    | NotForSale
    | NoFreight(why: Selection, options: seq<ShippingOption>)
    | Refused(outcome: Services.CheckoutResult)

  class Storefront {
    const tables: Services.Tables
    const carts: Carts
    const provider: TableShippingProvider
    var articles: Catalogue

    constructor (tables: Services.Tables, carts: Carts, provider: TableShippingProvider, articles: Catalogue)
      ensures this.tables == tables && this.carts == carts && this.provider == provider && this.articles == articles
    {
      this.tables, this.carts, this.provider, this.articles := tables, carts, provider, articles;
    }

    function TariffWith(rank: string -> int): Tariff {
      Tariff(provider.table, provider.freeAboveCents, provider.defaultWeightGrams, rank)
    }

    /** One cart line per user and variant, on variants the catalogue has; a table the parser accepted. */
    ghost predicate Valid(rank: string -> int)
      reads this, tables
    {
      && carts.tables == tables && UniqueLines(tables.lines) && Collates(rank) && DistinctCodes(provider.table)
      && forall l :: l in tables.lines ==> tables.lines[l].variant in articles && tables.lines[l].quantity > 0
    }

    ghost function Items(user: UserId): seq<Item>
      reads this, tables
    {
      CartItems(tables.Model(), articles, user)
    }

    method ReadCart(user: UserId, ghost rank: string -> int) returns (items: seq<Item>)
      requires Valid(rank)
      ensures items == Items(user) && |items| == |LinesOf(tables.Model(), user)|
      ensures IsCart(tables.Model(), articles, user, items)
      ensures DistinctVariants(items) && Priceable(articles, items)
    {
      var prices := map v | v in articles :: articles[v].priceCents;
      assert prices == Prices(articles);
      var view, ids := carts.GetCart(user, prices);
      ReadingIsTheCart(tables.Model(), articles, user, ids, view.items);
      return view.items;
    }

    /** quoteForCart: the options with the order totals they imply. */
    method QuoteForCart(user: UserId, rank: string -> int, postalCode: string) returns (r: Option<CartQuote>)
      requires Valid(rank)
      ensures r.None? <==> LinesOf(tables.Model(), user) == {}
      ensures r.Some? ==> Priceable(articles, Items(user)) && r.value == CartQuote(
                ItemsSubtotalCents(Items(user)), Shown(Items(user), OptionsFor(TariffWith(rank), articles, Items(user), postalCode)))
      ensures r.Some? ==> IsCart(tables.Model(), articles, user, Items(user)) && TotalsAreTheSum(r.value, Sum(PiecePrices(Items(user))))
    {
      var items := ReadCart(user, rank);
      if |items| == 0 {
        return None;
      }
      var subtotal := ItemsSubtotalCents(items);
      SubtotalIsPieceByPiece(items);
      var options := provider.Quote(rank, postalCode, subtotal, Parcels(articles, items));
      return Some(CartQuote(subtotal, Shown(items, options)));
    }

    /**
     * checkout, the whole of it: what the order costs is what the screen showed for the
     * option chosen, its freight is the price the customer asserted, and every refusal
     * leaves the tables as they were.
     */
    method PlaceOrder(user: UserId, rank: string -> int, postalCode: string, code: string, asserted: int,
                      order: OrderId, activeNow: VariantId -> bool)
      returns (r: OrderResult)
      requires Valid(rank)
      modifies tables
      ensures Priceable(articles, old(Items(user)))
      ensures r == Placed ==>
                PlacedAsShown(tables.Model(), order, user, old(Items(user)), asserted, code,
                              Shown(old(Items(user)), OptionsFor(TariffWith(rank), articles, old(Items(user)), postalCode)))
      ensures IsCart(old(tables.Model()), articles, user, old(Items(user)))
      ensures r == Placed ==>
                ChargesThePieces(tables.Model(), order, asserted, Sum(PiecePrices(old(Items(user)))))
      ensures r != Placed ==> tables.Model() == old(tables.Model())
      ensures r == EmptyCart <==> old(Items(user)) == []
      ensures r == NotForSale <==> old(Items(user)) != [] && SomeInactive(articles, old(Items(user)))
      ensures r.NoFreight? <==>
                && old(Items(user)) != [] && !SomeInactive(articles, old(Items(user)))
                && !OnScreen(Shown(old(Items(user)), OptionsFor(TariffWith(rank), articles, old(Items(user)), postalCode)), code, asserted)
      ensures r.NoFreight? ==> r.options == OptionsFor(TariffWith(rank), articles, old(Items(user)), postalCode)
      ensures r == Placed <==> CanBePlaced(old(tables.Model()), articles, old(Items(user)), TariffWith(rank), postalCode, user,
                                           code, asserted, order, activeNow)
    {
      hide Select, ItemsSubtotalCents, Shown, OptionsFor, Parcels, Services.Sellable, CartItems, Collates, NewOrder,
        CanBePlaced, OnScreen, PlacedAsShown, ChargesThePieces, IsCart, PiecePrices, Sum, DistinctVariants, DistinctOptionCodes, LinesOf;
      var items := ReadCart(user, rank);
      if |items| == 0 {
        NothingToPlace(tables.Model(), articles, items, TariffWith(rank), postalCode, user, code, asserted, order, activeNow);
        return EmptyCart;
      }
      var options := QuoteItems(user, items, rank, postalCode);
      ghost var before := tables.Model();
      PlaceableIff(before, articles, items, TariffWith(rank), postalCode, user, code, asserted, order, activeNow);
      if SomeInactive(articles, items) {
        return NotForSale;
      }
      hide UniqueLines, Priceable;
      var chosen := Select(options, code, asserted);
      if !chosen.Chosen? {
        return NoFreight(chosen, options);
      }
      var active := seq(|items|, i requires 0 <= i < |items| => activeNow(items[i].variant));
      var created, _ := tables.Checkout(user, items, order, chosen.option.priceCents, active);
      if created != Services.Created {
        return Refused(created);
      }
      ChosenIsPlaced(tables.Model(), items, options, user, code, asserted, order);
      PiecesAreCharged(tables.Model(), articles, items, user, asserted, order);
      return Placed;
    }

    /** The options for a cart that has been read. */
    method QuoteItems(user: UserId, items: seq<Item>, rank: string -> int, postalCode: string) returns (options: seq<ShippingOption>)
      requires Valid(rank) && items == Items(user) && Priceable(articles, items)
      ensures options == OptionsFor(TariffWith(rank), articles, items, postalCode) && DistinctOptionCodes(options)
    {
      options := provider.Quote(rank, postalCode, ItemsSubtotalCents(items), Parcels(articles, items));
      assert options == OptionsFor(TariffWith(rank), articles, items, postalCode);
      OptionCodesDiffer(TariffWith(rank), articles, items, postalCode);
    }
  }

  /** The stored order has the cart's items, the freight asserted, and the total the screen showed for the choice. */
  ghost predicate PlacedAsShown(db: Db, order: OrderId, user: UserId, items: seq<Item>, asserted: int, code: string, shown: seq<QuotedOption>) {
    && order in db.orders && db.orders[order].items == items && db.orders[order].shippingCents == asserted
    && db.orders[order].user == user && db.orders[order].status == CREATED && db.orders[order].intent == None
    && Shows(shown, code, asserted, db.orders[order].totalCents)
  }

  lemma ChosenIsPlaced(db: Db, items: seq<Item>, options: seq<ShippingOption>, user: UserId, code: string, asserted: int, order: OrderId)
    requires DistinctOptionCodes(options) && Select(options, code, asserted).Chosen?
    requires order in db.orders && db.orders[order] == NewOrder(user, items, asserted, None)
    ensures PlacedAsShown(db, order, user, items, asserted, code, Shown(items, options))
  {
    ChosenIsShown(items, options, code, asserted);
  }

  /** What the customer pays is the price of every piece and the freight asserted. */
  ghost predicate ChargesThePieces(db: Db, order: OrderId, asserted: int, sum: int) {
    order in db.orders && db.orders[order].totalCents == sum + asserted
    && db.orders[order].totalCents - db.orders[order].shippingCents == sum
  }

  lemma PiecesAreCharged(db: Db, articles: Catalogue, items: seq<Item>, user: UserId, asserted: int, order: OrderId)
    requires Priceable(articles, items)
    requires order in db.orders && db.orders[order] == NewOrder(user, items, asserted, None)
    ensures ChargesThePieces(db, order, asserted, Sum(PiecePrices(items)))
  {
    SubtotalIsPieceByPiece(items);
  }

  lemma PlaceableIff(db: Db, articles: Catalogue, items: seq<Item>, t: Tariff, postalCode: string, user: UserId,
                     code: string, asserted: int, order: OrderId, activeNow: VariantId -> bool)
    requires Priceable(articles, items) && DistinctOptionCodes(OptionsFor(t, articles, items, postalCode))
    ensures CanBePlaced(db, articles, items, t, postalCode, user, code, asserted, order, activeNow) <==>
            && !SomeInactive(articles, items)
            && Select(OptionsFor(t, articles, items, postalCode), code, asserted).Chosen?
            && Services.Sellable(db, user, items, order, asserted,
                                 seq(|items|, i requires 0 <= i < |items| => activeNow(items[i].variant)))
    ensures var chosen := Select(OptionsFor(t, articles, items, postalCode), code, asserted);
      && (chosen.Chosen? ==> chosen.option.priceCents == asserted)
      && (chosen.Chosen? <==> OnScreen(Shown(items, OptionsFor(t, articles, items, postalCode)), code, asserted))
  {
    ChosenIsShown(items, OptionsFor(t, articles, items, postalCode), code, asserted);
    hide Select, Shown, OptionsFor, Services.Sellable, ItemsSubtotalCents, Priceable;
  }

  /** Exactly when an order is placed. `activeNow` is what each decrement sees of its product. */
  ghost predicate CanBePlaced(db: Db, articles: Catalogue, items: seq<Item>, t: Tariff, postalCode: string, user: UserId,
                              code: string, asserted: int, order: OrderId, activeNow: VariantId -> bool)
    requires Priceable(articles, items)
  {
    && !SomeInactive(articles, items)
    && OnScreen(Shown(items, OptionsFor(t, articles, items, postalCode)), code, asserted)
    && Services.Sellable(db, user, items, order, asserted,
                         seq(|items|, i requires 0 <= i < |items| => activeNow(items[i].variant)))
  }

  lemma NothingToPlace(db: Db, articles: Catalogue, items: seq<Item>, t: Tariff, postalCode: string, user: UserId,
                       code: string, asserted: int, order: OrderId, activeNow: VariantId -> bool)
    requires items == []
    ensures !CanBePlaced(db, articles, items, t, postalCode, user, code, asserted, order, activeNow)
  {
  }

  /** What an order was placed at, it keeps through every run that follows. */
  lemma PlacedPriceHolds(db: Db, log: seq<Txn>, o: OrderId)
    requires o in db.orders
    ensures var end := ApplyAll(db, log);
      && o in end.orders && end.orders[o].shippingCents == db.orders[o].shippingCents
      && end.orders[o].totalCents == db.orders[o].totalCents && end.orders[o].items == db.orders[o].items
  {
    Lifecycle.ContentsAreFrozen(db, log, o);
  }
}
