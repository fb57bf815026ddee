/** Pricing a parcel from the freight table, and holding a choice to the price it was shown. */
module Freight {
  import opened Wrappers
  import opened Decimal
  import opened Seqs
  import opened ShippingTable

  const MAX_SAFE_INTEGER: int := 9007199254740991

  datatype ShippingOption = ShippingOption(
    code: string,
    name: string,
    priceCents: int,
    estimatedDays: Option<int>,
    carrier: Option<string>)

  /** A line to be carried; catalogue and cart checks keep weights and quantities positive. */
  datatype Parcel = Parcel(
    weightGrams: Option<nat>,
    heightCm: Option<int>,
    widthCm: Option<int>,
    lengthCm: Option<int>,
    quantity: nat)

  // ---------- Postal codes ----------

  function Digits(raw: string): string {
    if raw == "" then ""
    else if IsDigit(raw[0]) then [raw[0]] + Digits(raw[1..])
    else Digits(raw[1..])
  }

  function NormalizePostalCode(raw: string): (r: Option<string>)
    ensures r.Some? ==> |r.value| == 8
  {
    if |Digits(raw)| == 8 then Some(Digits(raw)) else None
  }

  lemma {:induction false} DigitsOfConcat(a: string, b: string)
    ensures Digits(a + b) == Digits(a) + Digits(b)
    decreases |a|
  {
    if a == "" {
      assert a + b == b;
    } else {
      assert (a + b)[1..] == a[1..] + b;
      DigitsOfConcat(a[1..], b);
    }
  }

  /** A hyphen, or any other punctuation, is never a fact about the destination. */
  lemma PunctuationIsIgnored(a: string, c: char, b: string)
    requires !IsDigit(c)
    ensures NormalizePostalCode(a + [c] + b) == NormalizePostalCode(a + b)
  {
    DigitsOfConcat(a + [c], b);
    DigitsOfConcat(a, [c]);
    DigitsOfConcat(a, b);
    assert [c][1..] == "" && Digits([c]) == "";
    assert Digits(a) + "" == Digits(a);
  }

  ghost function DigitCount(raw: string): nat {
    if raw == "" then 0 else (if '0' <= raw[0] <= '9' then 1 else 0) + DigitCount(raw[1..])
  }

  lemma {:induction false} DigitsAreCounted(raw: string)
    ensures |Digits(raw)| == DigitCount(raw)
    decreases |raw|
  {
    if raw != "" { DigitsAreCounted(raw[1..]); }
  }

  lemma {:induction false} OnlyDigits(raw: string)
    requires forall i :: 0 <= i < |raw| ==> '0' <= raw[i] <= '9'
    ensures Digits(raw) == raw
    decreases |raw|
  {
    if raw != "" { OnlyDigits(raw[1..]); }
  }

  /** A postal code has exactly eight digits; eight digits are one as they stand. */
  lemma PostalCodeIff(raw: string)
    ensures NormalizePostalCode(raw).Some? <==> DigitCount(raw) == 8
    ensures |raw| == 8 && (forall i :: 0 <= i < 8 ==> '0' <= raw[i] <= '9') ==> NormalizePostalCode(raw) == Some(raw)
  {
    DigitsAreCounted(raw);
    if |raw| == 8 && forall i :: 0 <= i < 8 ==> '0' <= raw[i] <= '9' { OnlyDigits(raw); }
  }

  // ---------- Weight ----------

  /** Math.round of the volume over six, for a positive volume. */
  function CubicGrams(volume: nat): nat {
    (volume + 3) / 6
  }

  function UnitGrams(p: Parcel, defaultGrams: nat): nat {
    var grams := if p.weightGrams.Some? then p.weightGrams.value else defaultGrams;
    if p.heightCm.Some? && p.widthCm.Some? && p.lengthCm.Some?
       && p.heightCm.value > 0 && p.widthCm.value > 0 && p.lengthCm.value > 0 then
      Volume(p.heightCm.value, p.widthCm.value, p.lengthCm.value);
      var cubic := CubicGrams(p.heightCm.value * p.widthCm.value * p.lengthCm.value);
      if cubic > grams then cubic else grams
    else grams
  }

  lemma {:induction false} Volume(h: int, w: int, l: int)
    requires h > 0 && w > 0 && l > 0
    ensures h * w * l >= 0
  {
    assert h * w > 0;
  }

  function TotalGrams(items: seq<Parcel>, defaultGrams: nat): nat {
    if items == [] then 0
    else TotalGrams(items[..|items| - 1], defaultGrams) +
         UnitGrams(items[|items| - 1], defaultGrams) * items[|items| - 1].quantity
  }

  // ---------- What is weighed, piece by piece ----------

  /** A box whose three dimensions are all known and positive. */
  predicate Measured(p: Parcel) {
    && p.heightCm.Some? && p.widthCm.Some? && p.lengthCm.Some?
    && p.heightCm.value > 0 && p.widthCm.value > 0 && p.lengthCm.value > 0
  }

  /** `grams` is a sixth of the volume in cubic centimetres, rounded half up. */
  predicate IsVolumetric(p: Parcel, grams: int)
    requires Measured(p)
  {
    -3 < 6 * grams - p.heightCm.value * p.widthCm.value * p.lengthCm.value <= 3
  }

  /** One piece weighs its own weight, or the default, or what its box comes to, whichever is more. */
  lemma {:induction false} UnitWeighsTheGreater(p: Parcel, defaultGrams: nat)
    ensures var own, grams := if p.weightGrams.Some? then p.weightGrams.value else defaultGrams, UnitGrams(p, defaultGrams);
      && grams >= own
      && (!Measured(p) ==> grams == own)
      && (Measured(p) ==> exists cubic: int :: IsVolumetric(p, cubic) && grams >= cubic && (grams == own || grams == cubic))
      && (Measured(p) ==> forall cubic: int :: IsVolumetric(p, cubic) ==> grams >= cubic && (grams == own || grams == cubic))
  {
    if Measured(p) {
      Volume(p.heightCm.value, p.widthCm.value, p.lengthCm.value);
      var volume := p.heightCm.value * p.widthCm.value * p.lengthCm.value;
      var rounded := CubicGrams(volume);
      Rounded(volume);
      assert IsVolumetric(p, rounded);
      forall cubic: int | IsVolumetric(p, cubic) ensures cubic == rounded {
        OneRounding(volume, cubic, rounded);
      }
    }
  }

  lemma {:induction false} Rounded(volume: nat)
    ensures -3 < 6 * CubicGrams(volume) - volume <= 3
  {
  }

  lemma {:induction false} OneRounding(volume: int, a: int, b: int)
    requires -3 < 6 * a - volume <= 3 && -3 < 6 * b - volume <= 3
    ensures a == b
  {
  }

  /** The weight of each piece: a line's unit weight as often as its quantity. */
  ghost function PieceWeights(items: seq<Parcel>, defaultGrams: nat): seq<int> {
    if items == [] then []
    else seq(items[0].quantity, _ => UnitGrams(items[0], defaultGrams)) + PieceWeights(items[1..], defaultGrams)
  }

  lemma {:induction false} WeightSplitFirst(items: seq<Parcel>, defaultGrams: nat)
    requires items != []
    ensures TotalGrams(items, defaultGrams) == UnitGrams(items[0], defaultGrams) * items[0].quantity + TotalGrams(items[1..], defaultGrams)
    decreases |items|
  {
    hide UnitGrams;
    var init, rest := items[..|items| - 1], items[1..];
    if |items| > 1 {
      WeightSplitFirst(init, defaultGrams);
      assert init[1..] == rest[..|rest| - 1] && rest[|rest| - 1] == items[|items| - 1];
    } else {
      assert init == [] && rest == [];
    }
  }

  /** The parcel weighs what its pieces weigh together. */
  lemma {:induction false} ParcelIsPieceByPiece(items: seq<Parcel>, defaultGrams: nat)
    ensures TotalGrams(items, defaultGrams) == Sum(PieceWeights(items, defaultGrams))
    decreases |items|
  {
    hide UnitGrams;
    if items != [] {
      var n, grams := items[0].quantity, UnitGrams(items[0], defaultGrams);
      WeightSplitFirst(items, defaultGrams);
      ParcelIsPieceByPiece(items[1..], defaultGrams);
      SumOfSame(n, grams);
      SumConcat(seq(n, _ => grams), PieceWeights(items[1..], defaultGrams));
    }
  }

  /** The same lines with more units, and maybe further lines. */
  predicate AddsUnits(items: seq<Parcel>, more: seq<Parcel>) {
    |items| <= |more| &&
    forall i :: 0 <= i < |items| ==> items[i].quantity <= more[i].quantity && more[i] == items[i].(quantity := more[i].quantity)
  }

  lemma {:induction false} AddingUnitsAddsWeight(items: seq<Parcel>, more: seq<Parcel>, defaultGrams: nat)
    requires AddsUnits(items, more)
    ensures TotalGrams(items, defaultGrams) <= TotalGrams(more, defaultGrams)
    decreases |more|
  {
    hide UnitGrams;
    if |items| < |more| {
      AddingUnitsAddsWeight(items, more[..|more| - 1], defaultGrams);
    } else if items != [] {
      var k := |items| - 1;
      AddingUnitsAddsWeight(items[..k], more[..k], defaultGrams);
      SameArticle(items[k], more[k].quantity, defaultGrams);
      TimesGrows(UnitGrams(items[k], defaultGrams), items[k].quantity, more[k].quantity);
    }
  }

  lemma SameArticle(p: Parcel, quantity: nat, defaultGrams: nat)
    ensures UnitGrams(p.(quantity := quantity), defaultGrams) == UnitGrams(p, defaultGrams)
  {
  }

  lemma {:induction false} TimesGrows(grams: nat, a: nat, b: nat)
    requires a <= b
    ensures grams * a <= grams * b
  {
    assert grams * b == grams * a + grams * (b - a);
  }

  // ---------- Brackets ----------

  /** rates.find: the index of the first bracket that covers the parcel. */
  function FirstCovering(rates: seq<Rate>, grams: int): Option<nat> {
    if rates == [] then None
    else if grams <= rates[0].upToGrams then Some(0)
    else
      match FirstCovering(rates[1..], grams)
      case None => None
      case Some(i) => Some(i + 1)
  }

  lemma {:induction false} FirstCoveringIsFirst(rates: seq<Rate>, grams: int)
    ensures var r := FirstCovering(rates, grams);
      && (r.None? ==> forall i :: 0 <= i < |rates| ==> grams > rates[i].upToGrams)
      && (r.Some? ==> r.value < |rates| && grams <= rates[r.value].upToGrams
                      && forall i :: 0 <= i < r.value ==> grams > rates[i].upToGrams)
    decreases |rates|
  {
    if rates != [] && grams > rates[0].upToGrams {
      FirstCoveringIsFirst(rates[1..], grams);
      assert forall i :: 0 < i < |rates| ==> rates[i] == rates[1..][i - 1];
    }
  }

  /** In an accepted table the first bracket that covers is the least that does; none does past the last one. */
  lemma {:induction false} FirstMatchIsLeast(rates: seq<Rate>, grams: int)
    requires Brackets(rates)
    ensures FirstCovering(rates, grams).Some? <==> grams <= rates[|rates| - 1].upToGrams
    ensures FirstCovering(rates, grams).Some? ==>
              var i := FirstCovering(rates, grams).value;
              i < |rates| && grams <= rates[i].upToGrams &&
              forall j :: 0 <= j < |rates| && grams <= rates[j].upToGrams ==> rates[i].upToGrams <= rates[j].upToGrams
  {
    FirstCoveringIsFirst(rates, grams);
  }

  // ---------- Options ----------

  predicate Serves(option: TableOption, postalCode: string) {
    exists i :: 0 <= i < |option.prefixes| && option.prefixes[i] <= postalCode
  }

  predicate IsFree(freeAboveCents: Option<int>, subtotalCents: int) {
    freeAboveCents.Some? && subtotalCents >= freeAboveCents.value
  }

  function Offer(option: TableOption, postalCode: string, grams: int, free: bool): Option<ShippingOption> {
    if !Serves(option, postalCode) then None
    else
      match FirstCovering(option.rates, grams)
      case None => None
      case Some(i) =>
        FirstCoveringIsFirst(option.rates, grams);
        Some(ShippingOption(option.code, option.name, if free then 0 else option.rates[i].priceCents,
                            option.estimatedDays, option.carrier))
  }

  /** The offers of a table, before they are sorted. */
  function Offers(table: seq<TableOption>, postalCode: string, grams: int, free: bool): seq<ShippingOption> {
    if table == [] then []
    else
      var k := |table| - 1;
      var offer := Offer(table[k], postalCode, grams, free);
      Offers(table[..k], postalCode, grams, free) + (if offer.Some? then [offer.value] else [])
  }

  lemma {:induction false} OffersAreTheirs(table: seq<TableOption>, postalCode: string, grams: int, free: bool, o: ShippingOption)
    ensures o in Offers(table, postalCode, grams, free) <==>
            exists i :: 0 <= i < |table| && Offer(table[i], postalCode, grams, free) == Some(o)
    decreases |table|
  {
    if table != [] {
      var k := |table| - 1;
      OffersAreTheirs(table[..k], postalCode, grams, free, o);
      if i :| 0 <= i < |table| && Offer(table[i], postalCode, grams, free) == Some(o) {
        if i < k { assert Offer(table[..k][i], postalCode, grams, free) == Some(o); }
      }
      if i :| 0 <= i < k && Offer(table[..k][i], postalCode, grams, free) == Some(o) {
        assert Offer(table[i], postalCode, grams, free) == Some(o);
      }
    }
  }

  /**
   * What an option of the table comes to for a parcel, in the terms of the configuration:
   * a prefix matches, the first bracket that covers the weight prices it, and freight is
   * free from the threshold on.
   */
  ghost predicate IsOffer(option: TableOption, postalCode: string, grams: int, freeAboveCents: Option<int>, subtotalCents: int,
                          o: ShippingOption)
  {
    && (exists i :: 0 <= i < |option.prefixes| && option.prefixes[i] <= postalCode)
    && o.code == option.code && o.name == option.name && o.estimatedDays == option.estimatedDays && o.carrier == option.carrier
    && exists k :: 0 <= k < |option.rates| && grams <= option.rates[k].upToGrams
                   && (forall j :: 0 <= j < k ==> option.rates[j].upToGrams < grams)
                   && o.priceCents == if freeAboveCents.Some? && freeAboveCents.value <= subtotalCents then 0 else option.rates[k].priceCents
  }

  lemma OfferIs(option: TableOption, postalCode: string, grams: int, freeAboveCents: Option<int>, subtotalCents: int, o: ShippingOption)
    ensures Offer(option, postalCode, grams, IsFree(freeAboveCents, subtotalCents)) == Some(o) <==>
            IsOffer(option, postalCode, grams, freeAboveCents, subtotalCents, o)
  {
    FirstCoveringIsFirst(option.rates, grams);
  }

  // ---------- The order of options ----------

  /**
   * localeCompare as a rank: a code's place in the collation. Distinct codes have
   * distinct places.
   */
  ghost predicate Collates(rank: string -> int) {
    forall a, b :: rank(a) == rank(b) ==> a == b
  }

  function Days(o: ShippingOption): int {
    if o.estimatedDays.Some? then o.estimatedDays.value else MAX_SAFE_INTEGER
  }

  function CompareOptions(rank: string -> int, left: ShippingOption, right: ShippingOption): int {
    if left.priceCents != right.priceCents then left.priceCents - right.priceCents
    else if Days(left) != Days(right) then Days(left) - Days(right)
    else rank(left.code) - rank(right.code)
  }

  ghost predicate SortedOptions(rank: string -> int, s: seq<ShippingOption>) {
    forall i, j :: 0 <= i < j < |s| ==> CompareOptions(rank, s[i], s[j]) < 0
  }

  /** Cheaper first, then faster, with no estimate last, then by code. */
  predicate ComesBefore(rank: string -> int, left: ShippingOption, right: ShippingOption) {
    || left.priceCents < right.priceCents
    || (left.priceCents == right.priceCents && left.estimatedDays.Some? &&
        (right.estimatedDays.None? || left.estimatedDays.value < right.estimatedDays.value))
    || (left.priceCents == right.priceCents && left.estimatedDays == right.estimatedDays && rank(left.code) < rank(right.code))
  }

  predicate DaysInRange(o: ShippingOption) {
    o.estimatedDays.Some? ==> o.estimatedDays.value < MAX_SAFE_INTEGER
  }

  lemma ComparesAs(rank: string -> int, left: ShippingOption, right: ShippingOption)
    requires DaysInRange(left) && DaysInRange(right)
    ensures CompareOptions(rank, left, right) < 0 <==> ComesBefore(rank, left, right)
  {
  }

  /** Two strictly sorted lists of the same options are one list. */
  lemma {:induction false} SortedOptionsAreUnique(rank: string -> int, s: seq<ShippingOption>, t: seq<ShippingOption>)
    requires SortedOptions(rank, s) && SortedOptions(rank, t)
    requires forall o :: o in s <==> o in t
    ensures s == t
    decreases |s|
  {
    assert t != [] ==> t[0] in t && t[0] in s;
    if s != [] {
      assert s[0] in s;
      assert s[0] == t[0];
      forall o ensures o in s[1..] <==> o in t[1..] {
        if o in s[1..] { assert o in s && o != s[0]; }
        if o in t[1..] { assert o in t && o != t[0]; }
      }
      SortedOptionsAreUnique(rank, s[1..], t[1..]);
    }
  }

  predicate DistinctOptionCodes(s: seq<ShippingOption>) {
    forall i, j :: 0 <= i < j < |s| ==> s[i].code != s[j].code
  }

  lemma {:induction false} OffersHaveDistinctCodes(table: seq<TableOption>, postalCode: string, grams: int, free: bool)
    requires DistinctCodes(table)
    ensures DistinctOptionCodes(Offers(table, postalCode, grams, free))
    decreases |table|
  {
    if table != [] {
      var k := |table| - 1;
      OffersHaveDistinctCodes(table[..k], postalCode, grams, free);
      var init := Offers(table[..k], postalCode, grams, free);
      forall i | 0 <= i < |init| ensures init[i].code != table[k].code {
        OffersAreTheirs(table[..k], postalCode, grams, free, init[i]);
        assert init[i] in init;
        var j :| 0 <= j < k && Offer(table[..k][j], postalCode, grams, free) == Some(init[i]);
        assert init[i].code == table[j].code;
      }
    }
  }

  /** One option put in its place among sorted ones. */
  function Insert(rank: string -> int, s: seq<ShippingOption>, o: ShippingOption): seq<ShippingOption> {
    if s == [] then [o]
    else if CompareOptions(rank, o, s[0]) < 0 then [o] + s
    else [s[0]] + Insert(rank, s[1..], o)
  }

  lemma {:induction false} InsertSorts(rank: string -> int, s: seq<ShippingOption>, o: ShippingOption)
    requires Collates(rank) && SortedOptions(rank, s)
    requires forall i :: 0 <= i < |s| ==> s[i].code != o.code
    ensures SortedOptions(rank, Insert(rank, s, o))
    ensures forall x :: x in Insert(rank, s, o) <==> x == o || x in s
    decreases |s|
  {
    if s != [] && !(CompareOptions(rank, o, s[0]) < 0) {
      InsertSorts(rank, s[1..], o);
      var rest := Insert(rank, s[1..], o);
      forall j | 0 <= j < |rest| ensures CompareOptions(rank, s[0], rest[j]) < 0 {
        assert rest[j] in rest;
        assert rest[j] == o || rest[j] in s[1..];
      }
      assert forall x :: x in s <==> x == s[0] || x in s[1..];
    }
  }

  /** options.sort(compareOptions). */
  function Sort(rank: string -> int, s: seq<ShippingOption>): seq<ShippingOption> {
    if s == [] then [] else Insert(rank, Sort(rank, s[..|s| - 1]), s[|s| - 1])
  }

  lemma {:induction false} SortSorts(rank: string -> int, s: seq<ShippingOption>)
    requires Collates(rank) && DistinctOptionCodes(s)
    ensures SortedOptions(rank, Sort(rank, s))
    ensures forall x :: x in Sort(rank, s) <==> x in s
    decreases |s|
  {
    if s != [] {
      var init, last := s[..|s| - 1], s[|s| - 1];
      SortSorts(rank, init);
      var sorted := Sort(rank, init);
      forall i | 0 <= i < |sorted| ensures sorted[i].code != last.code {
        assert sorted[i] in sorted;
      }
      InsertSorts(rank, sorted, last);
      assert forall x :: x in s <==> x in init || x == last;
    }
  }

  // ---------- The provider ----------

  /** The whole quote: nothing for a malformed postal code, otherwise the sorted offers. */
  function Quoted(table: seq<TableOption>, freeAboveCents: Option<int>, rank: string -> int,
                  rawPostalCode: string, subtotalCents: int, items: seq<Parcel>, defaultGrams: nat): seq<ShippingOption>
  {
    match NormalizePostalCode(rawPostalCode)
    case None => []
    case Some(postalCode) =>
      Sort(rank, Offers(table, postalCode, TotalGrams(items, defaultGrams), IsFree(freeAboveCents, subtotalCents)))
  }

  class TableShippingProvider {
    const table: seq<TableOption>
    /** None disables free shipping, which is not the same as zero. */
    const freeAboveCents: Option<int>
    const defaultWeightGrams: nat

    method Quote(rank: string -> int, rawPostalCode: string, subtotalCents: int, items: seq<Parcel>)
      returns (options: seq<ShippingOption>)
      requires Collates(rank) && DistinctCodes(table)
      ensures options == Quoted(table, freeAboveCents, rank, rawPostalCode, subtotalCents, items, defaultWeightGrams)
      ensures SortedOptions(rank, options)
      ensures forall i, j :: 0 <= i < j < |options| && DaysInRange(options[i]) && DaysInRange(options[j]) ==>
                ComesBefore(rank, options[i], options[j])
      ensures NormalizePostalCode(rawPostalCode).None? ==> options == []
      ensures NormalizePostalCode(rawPostalCode).Some? ==> forall o :: Offered(options, o) <==>
                exists i :: 0 <= i < |table| && IsOffer(table[i], NormalizePostalCode(rawPostalCode).value,
                                                        Sum(PieceWeights(items, defaultWeightGrams)), freeAboveCents, subtotalCents, o)
    {
      var postalCode := NormalizePostalCode(rawPostalCode);
      if postalCode.None? {
        return [];
      }
      var totalGrams := TotalGrams(items, defaultWeightGrams);
      var isFree := freeAboveCents.Some? && subtotalCents >= freeAboveCents.value;
      options := [];
      for i := 0 to |table|
        invariant options == Offers(table[..i], postalCode.value, totalGrams, isFree)
      {
        assert table[..i + 1][..i] == table[..i];
        var offer := Offer(table[i], postalCode.value, totalGrams, isFree);
        if offer.Some? {
          options := options + [offer.value];
        }
      }
      assert table[..|table|] == table;
      OffersHaveDistinctCodes(table, postalCode.value, totalGrams, isFree);
      SortSorts(rank, options);
      options := Sort(rank, options);
      ParcelIsPieceByPiece(items, defaultWeightGrams);
      hide TotalGrams, PieceWeights, Sum, Offer, IsOffer, Offers, Sort, CompareOptions, ComesBefore;
      forall o
        ensures Offered(options, o) <==>
                exists i :: 0 <= i < |table| && IsOffer(table[i], postalCode.value, totalGrams, freeAboveCents, subtotalCents, o)
      {
        QuotedAre(table, freeAboveCents, rank, rawPostalCode, subtotalCents, items, defaultWeightGrams, o);
      }
      forall i, j | 0 <= i < j < |options| && DaysInRange(options[i]) && DaysInRange(options[j])
        ensures ComesBefore(rank, options[i], options[j])
      {
        ComparesAs(rank, options[i], options[j]);
      }
    }
  }

  // ---------- What a quote offers ----------

  predicate Offered(s: seq<ShippingOption>, o: ShippingOption) {
    o in s
  }

  lemma QuotedAreOffers(table: seq<TableOption>, freeAboveCents: Option<int>, rank: string -> int, raw: string,
                        subtotalCents: int, items: seq<Parcel>, defaultGrams: nat, o: ShippingOption)
    requires Collates(rank) && DistinctCodes(table)
    ensures var quoted := Quoted(table, freeAboveCents, rank, raw, subtotalCents, items, defaultGrams);
      Offered(quoted, o) <==>
        NormalizePostalCode(raw).Some? &&
        exists i :: 0 <= i < |table| && Offer(table[i], NormalizePostalCode(raw).value, TotalGrams(items, defaultGrams),
                                              IsFree(freeAboveCents, subtotalCents)) == Some(o)
  {
    if NormalizePostalCode(raw).Some? {
      var cep, grams, free := NormalizePostalCode(raw).value, TotalGrams(items, defaultGrams), IsFree(freeAboveCents, subtotalCents);
      OffersHaveDistinctCodes(table, cep, grams, free);
      SortSorts(rank, Offers(table, cep, grams, free));
      OffersAreTheirs(table, cep, grams, free, o);
    }
  }

  /** The same, in the terms of the configuration. */
  lemma QuotedAre(table: seq<TableOption>, freeAboveCents: Option<int>, rank: string -> int, raw: string,
                  subtotalCents: int, items: seq<Parcel>, defaultGrams: nat, o: ShippingOption)
    requires Collates(rank) && DistinctCodes(table)
    ensures var quoted := Quoted(table, freeAboveCents, rank, raw, subtotalCents, items, defaultGrams);
      Offered(quoted, o) <==>
        NormalizePostalCode(raw).Some? &&
        exists i :: 0 <= i < |table| && IsOffer(table[i], NormalizePostalCode(raw).value, TotalGrams(items, defaultGrams),
                                                freeAboveCents, subtotalCents, o)
  {
    QuotedAreOffers(table, freeAboveCents, rank, raw, subtotalCents, items, defaultGrams, o);
    if NormalizePostalCode(raw).Some? {
      var cep, grams := NormalizePostalCode(raw).value, TotalGrams(items, defaultGrams);
      hide TotalGrams, Quoted, Offered, Offer, IsOffer, IsFree;
      forall i | 0 <= i < |table|
        ensures Offer(table[i], cep, grams, IsFree(freeAboveCents, subtotalCents)) == Some(o) <==>
                IsOffer(table[i], cep, grams, freeAboveCents, subtotalCents, o)
      {
        OfferIs(table[i], cep, grams, freeAboveCents, subtotalCents, o);
      }
    }
  }

  /**
   * An option is offered exactly when one of its prefixes matches and the parcel is within
   * its last bracket; its price is the least covering bracket's, or zero past the threshold.
   */
  lemma OfferedIff(option: TableOption, postalCode: string, grams: int, free: bool)
    requires OptionSound(option)
    ensures Offer(option, postalCode, grams, free).Some? <==>
            Serves(option, postalCode) && grams <= option.rates[|option.rates| - 1].upToGrams
    ensures var offer := Offer(option, postalCode, grams, free);
      offer.Some? ==>
        && offer.value.code == option.code && (free ==> offer.value.priceCents == 0)
        && (!free ==> exists i :: 0 <= i < |option.rates| && LeastCovering(option.rates, i, grams)
                                  && offer.value.priceCents == option.rates[i].priceCents)
  {
    FirstMatchIsLeast(option.rates, grams);
    if Offer(option, postalCode, grams, free).Some? {
      assert LeastCovering(option.rates, FirstCovering(option.rates, grams).value, grams);
    }
  }

  predicate LeastCovering(rates: seq<Rate>, i: nat, grams: int)
    requires i < |rates|
  {
    grams <= rates[i].upToGrams &&
    forall j :: 0 <= j < |rates| && grams <= rates[j].upToGrams ==> rates[i].upToGrams <= rates[j].upToGrams
  }

  /** Putting more into the cart never adds a delivery option. */
  lemma AddingUnitsNeverAddsAnOption(table: seq<TableOption>, freeAboveCents: Option<int>, rank: string -> int, raw: string,
                                     subtotal: int, more: int, items: seq<Parcel>, moreItems: seq<Parcel>, defaultGrams: nat,
                                     o: ShippingOption)
    requires Collates(rank) && TableSound(table) && AddsUnits(items, moreItems)
    requires Offered(Quoted(table, freeAboveCents, rank, raw, more, moreItems, defaultGrams), o)
    ensures exists o' :: Offered(Quoted(table, freeAboveCents, rank, raw, subtotal, items, defaultGrams), o') && o'.code == o.code
  {
    AddingUnitsAddsWeight(items, moreItems, defaultGrams);
    QuotedAreOffers(table, freeAboveCents, rank, raw, more, moreItems, defaultGrams, o);
    var cep, heavy, light := NormalizePostalCode(raw).value, TotalGrams(moreItems, defaultGrams), TotalGrams(items, defaultGrams);
    var i :| 0 <= i < |table| && Offer(table[i], cep, heavy, IsFree(freeAboveCents, more)) == Some(o);
    OfferedIff(table[i], cep, heavy, IsFree(freeAboveCents, more));
    OfferedIff(table[i], cep, light, IsFree(freeAboveCents, subtotal));
    var o' := Offer(table[i], cep, light, IsFree(freeAboveCents, subtotal)).value;
    QuotedAreOffers(table, freeAboveCents, rank, raw, subtotal, items, defaultGrams, o');
  }

  /** The order of the rows in the configuration never shows. */
  lemma RowOrderNeverShows(table: seq<TableOption>, shuffled: seq<TableOption>, freeAboveCents: Option<int>,
                           rank: string -> int, raw: string, subtotal: int, items: seq<Parcel>, defaultGrams: nat)
    requires Collates(rank) && DistinctCodes(table) && DistinctCodes(shuffled)
    requires forall option :: option in table <==> option in shuffled
    ensures Quoted(table, freeAboveCents, rank, raw, subtotal, items, defaultGrams) ==
            Quoted(shuffled, freeAboveCents, rank, raw, subtotal, items, defaultGrams)
  {
    if NormalizePostalCode(raw).Some? {
      var cep, grams, free := NormalizePostalCode(raw).value, TotalGrams(items, defaultGrams), IsFree(freeAboveCents, subtotal);
      var s, t := Offers(table, cep, grams, free), Offers(shuffled, cep, grams, free);
      OffersHaveDistinctCodes(table, cep, grams, free);
      OffersHaveDistinctCodes(shuffled, cep, grams, free);
      SortSorts(rank, s);
      SortSorts(rank, t);
      forall o ensures o in s <==> o in t {
        OffersAreTheirs(table, cep, grams, free, o);
        OffersAreTheirs(shuffled, cep, grams, free, o);
        if i :| 0 <= i < |table| && Offer(table[i], cep, grams, free) == Some(o) {
          assert table[i] in shuffled;
        }
        if i :| 0 <= i < |shuffled| && Offer(shuffled[i], cep, grams, free) == Some(o) {
          assert shuffled[i] in table;
        }
      }
      SortedOptionsAreUnique(rank, Sort(rank, s), Sort(rank, t));
    }
  }

  // ---------- Choosing an option ----------

  datatype Selection = Chosen(option: ShippingOption) | NoOption | NotAvailable | PriceChanged

  function FindCode(options: seq<ShippingOption>, code: string): Option<ShippingOption> {
    if options == [] then None
    else if options[0].code == code then Some(options[0])
    else FindCode(options[1..], code)
  }

  function Select(options: seq<ShippingOption>, code: string, quotedShippingCents: int): Selection {
    if options == [] then NoOption
    else
      match FindCode(options, code)
      case None => NotAvailable
      case Some(chosen) => if chosen.priceCents != quotedShippingCents then PriceChanged else Chosen(chosen)
  }

  lemma {:induction false} FindCodeFinds(options: seq<ShippingOption>, code: string)
    ensures FindCode(options, code).Some? <==> exists o :: o in options && o.code == code
    ensures FindCode(options, code).Some? ==>
              FindCode(options, code).value in options && FindCode(options, code).value.code == code
    decreases |options|
  {
    if options != [] && options[0].code != code {
      FindCodeFinds(options[1..], code);
      if o :| o in options && o.code == code {
        assert o in options[1..];
      }
    }
  }

  /** With cart, catalogue and table unchanged, an option offered is accepted at its price, and as itself. */
  lemma OfferedIsAccepted(table: seq<TableOption>, freeAboveCents: Option<int>, rank: string -> int, raw: string,
                          subtotal: int, parcels: seq<Parcel>, defaultGrams: nat, shown: ShippingOption)
    requires Collates(rank) && DistinctCodes(table)
    requires Offered(Quoted(table, freeAboveCents, rank, raw, subtotal, parcels, defaultGrams), shown)
    ensures Select(Quoted(table, freeAboveCents, rank, raw, subtotal, parcels, defaultGrams), shown.code, shown.priceCents) ==
            Chosen(shown)
  {
    var options := Quoted(table, freeAboveCents, rank, raw, subtotal, parcels, defaultGrams);
    FindCodeFinds(options, shown.code);
    var found := FindCode(options, shown.code).value;
    QuotedAreOffers(table, freeAboveCents, rank, raw, subtotal, parcels, defaultGrams, shown);
    QuotedAreOffers(table, freeAboveCents, rank, raw, subtotal, parcels, defaultGrams, found);
  }

  /**
   * A checkout is charged the price its customer asserted or nothing at all; it is refused
   * exactly when no option offered has both that code and that price.
   */
  lemma ChargedIsAsserted(options: seq<ShippingOption>, code: string, asserted: int)
    requires DistinctOptionCodes(options)
    ensures var r := Select(options, code, asserted);
      && (r.Chosen? <==> exists o :: o in options && o.code == code && o.priceCents == asserted)
      && (r.Chosen? ==> r.option in options && r.option.code == code && r.option.priceCents == asserted)
      && (r == NoOption <==> options == [])
      && (r == PriceChanged <==> exists o :: o in options && o.code == code && o.priceCents != asserted)
  {
    FindCodeFinds(options, code);
    forall o, u | o in options && u in options && o.code == u.code ensures o == u {
    }
  }
}
