/**
 * The freight table as configured: what a JSON value must be to be believed. Every rule
 * is checked when the service starts, and one violation refuses the whole table.
 */
module ShippingTable {
  import opened Wrappers
  import opened Decimal

  /** A parsed JSON value; a number is an integer or it is not. */
  datatype Json =
    | Null
    | Bool(b: bool)
    | Integer(n: int)
    | Fraction
    | Text(text: string)
    | Array(elements: seq<Json>)
    | Object(fields: map<string, Json>)

  datatype Rate = Rate(upToGrams: int, priceCents: int)

  datatype TableOption = TableOption(
    code: string,
    name: string,
    prefixes: seq<string>,
    estimatedDays: Option<int>,
    carrier: Option<string>,
    rates: seq<Rate>)

  predicate IsSpace(c: char) {
    c in [' ', '\t', '\n', '\r', '\U{0B}', '\U{0C}', '\U{A0}', '\U{1680}', '\U{2028}', '\U{2029}', '\U{202F}', '\U{205F}',
          '\U{3000}', '\U{FEFF}'] || '\U{2000}' <= c <= '\U{200A}'
  }

  predicate NonBlank(j: Json) {
    j.Text? && exists i :: 0 <= i < |j.text| && !IsSpace(j.text[i])
  }

  /** String.prototype.trim. */
  function Trim(s: string): string
    decreases |s|
  {
    if s == "" then ""
    else if IsSpace(s[0]) then Trim(s[1..])
    else if IsSpace(s[|s| - 1]) then Trim(s[..|s| - 1])
    else s
  }

  /** isNonEmptyString: something is left after trimming. */
  lemma {:induction false} NonBlankIff(s: string)
    ensures NonBlank(Text(s)) <==> |Trim(s)| > 0
    decreases |s|
  {
    if s != "" {
      if IsSpace(s[0]) {
        NonBlankIff(s[1..]);
        assert forall i :: 0 < i < |s| ==> s[i] == s[1..][i - 1];
      } else if IsSpace(s[|s| - 1]) {
        NonBlankIff(s[..|s| - 1]);
      }
    }
  }

  /** An absent field reads as undefined. */
  function Field(j: Json, name: string): Option<Json>
    requires j.Object?
  {
    if name in j.fields then Some(j.fields[name]) else None
  }

  predicate IsInt(j: Option<Json>) {
    j.Some? && j.value.Integer?
  }

  predicate IsNullish(j: Option<Json>) {
    j.None? || j.value.Null?
  }

  // ---------- Brackets ----------

  predicate IsBracket(j: Json) {
    && j.Object?
    && IsInt(Field(j, "upToGrams")) && Field(j, "upToGrams").value.n > 0
    && IsInt(Field(j, "priceCents")) && Field(j, "priceCents").value.n >= 0
  }

  function BracketOf(j: Json): Rate
    requires IsBracket(j)
  {
    Rate(Field(j, "upToGrams").value.n, Field(j, "priceCents").value.n)
  }

  /** Bounds positive and strictly increasing, prices not negative. */
  predicate Brackets(rates: seq<Rate>) {
    && rates != []
    && (forall i :: 0 <= i < |rates| ==> rates[i].upToGrams > 0 && rates[i].priceCents >= 0)
    && (forall i, j :: 0 <= i < j < |rates| ==> rates[i].upToGrams < rates[j].upToGrams)
  }

  predicate RatesAccepted(raw: Json) {
    && raw.Array? && raw.elements != []
    && (forall i :: 0 <= i < |raw.elements| ==> IsBracket(raw.elements[i]))
    && (forall i, j :: 0 <= i < j < |raw.elements| ==>
          BracketOf(raw.elements[i]).upToGrams < BracketOf(raw.elements[j]).upToGrams)
  }

  function RatesOf(raw: Json): (r: seq<Rate>)
    requires RatesAccepted(raw)
    ensures Brackets(r)
  {
    seq(|raw.elements|, i requires 0 <= i < |raw.elements| => BracketOf(raw.elements[i]))
  }

  /** One counter does both checks: each bracket past the one before, the first past zero. */
  method ParseRates(raw: Json) returns (r: Option<seq<Rate>>)
    ensures r.Some? <==> RatesAccepted(raw)
    ensures r.Some? ==> r.value == RatesOf(raw) && Brackets(r.value)
  {
    if !raw.Array? || raw.elements == [] {
      return None;
    }
    var rates: seq<Rate> := [];
    var previousUpToGrams := 0;
    for index := 0 to |raw.elements|
      invariant |rates| == index
      invariant forall i :: 0 <= i < index ==> IsBracket(raw.elements[i]) && rates[i] == BracketOf(raw.elements[i])
      invariant forall i, j :: 0 <= i < j < index ==> rates[i].upToGrams < rates[j].upToGrams
      invariant previousUpToGrams == if index == 0 then 0 else rates[index - 1].upToGrams
      invariant forall i :: 0 <= i < index ==> rates[i].upToGrams <= previousUpToGrams
    {
      var entry := raw.elements[index];
      if !IsBracket(entry) {
        return None;
      }
      var rate := BracketOf(entry);
      if rate.upToGrams <= previousUpToGrams {
        return None;
      }
      previousUpToGrams := rate.upToGrams;
      rates := rates + [rate];
    }
    return Some(rates);
  }

  // ---------- Options ----------

  predicate IsPrefix(s: string) {
    1 <= |s| <= 8 && forall i :: 0 <= i < |s| ==> IsDigit(s[i])
  }

  predicate PrefixesAccepted(raw: Json) {
    && raw.Array? && raw.elements != []
    && forall i :: 0 <= i < |raw.elements| ==> raw.elements[i].Text? && IsPrefix(raw.elements[i].text)
  }

  function ParsePrefixes(raw: Json): (r: Option<seq<string>>)
    ensures r.Some? ==> r.value != [] && forall i :: 0 <= i < |r.value| ==> 1 <= |r.value[i]| <= 8 && forall k :: 0 <= k < |r.value[i]| ==> '0' <= r.value[i][k] <= '9'
  {
    if !PrefixesAccepted(raw) then None
    else Some(seq(|raw.elements|, i requires 0 <= i < |raw.elements| => raw.elements[i].text))
  }

  predicate DaysAccepted(j: Option<Json>) {
    IsNullish(j) || (IsInt(j) && j.value.n >= 0)
  }

  predicate CarrierAccepted(j: Option<Json>) {
    IsNullish(j) || j.value.Text?
  }

  /** What the table of a believed option satisfies. */
  predicate OptionSound(option: TableOption) {
    && option.code != ""
    && option.prefixes != [] && (forall i :: 0 <= i < |option.prefixes| ==> IsPrefix(option.prefixes[i]))
    && (option.estimatedDays.Some? ==> option.estimatedDays.value >= 0)
    && Brackets(option.rates)
  }

  function OrNull(j: Option<Json>): Json {
    if j.Some? then j.value else Null
  }

  predicate OptionAccepted(raw: Json) {
    && raw.Object?
    && NonBlank(OrNull(Field(raw, "code"))) && NonBlank(OrNull(Field(raw, "label")))
    && DaysAccepted(Field(raw, "estimatedDays")) && CarrierAccepted(Field(raw, "carrier"))
    && PrefixesAccepted(OrNull(Field(raw, "prefixes")))
    && RatesAccepted(OrNull(Field(raw, "rates")))
  }

  function OptionOf(raw: Json): (r: TableOption)
    requires OptionAccepted(raw)
    ensures OptionSound(r)
  {
    TableOption(
      Field(raw, "code").value.text,
      Field(raw, "label").value.text,
      ParsePrefixes(Field(raw, "prefixes").value).value,
      if IsInt(Field(raw, "estimatedDays")) then Some(Field(raw, "estimatedDays").value.n) else None,
      if !IsNullish(Field(raw, "carrier")) then Some(Field(raw, "carrier").value.text) else None,
      RatesOf(Field(raw, "rates").value))
  }

  method ParseOption(raw: Json) returns (r: Option<TableOption>)
    ensures r.Some? <==> OptionAccepted(raw)
    ensures r.Some? ==> r.value == OptionOf(raw) && OptionSound(r.value)
    ensures r.Some? ==> Trim(r.value.code) != "" && Trim(r.value.name) != ""
  {
    if !raw.Object? {
      return None;
    }
    var code, name := OrNull(Field(raw, "code")), OrNull(Field(raw, "label"));
    if !NonBlank(code) || !NonBlank(name) {
      return None;
    }
    NonBlankIff(code.text);
    NonBlankIff(name.text);
    var days, carrier := Field(raw, "estimatedDays"), Field(raw, "carrier");
    if !DaysAccepted(days) || !CarrierAccepted(carrier) {
      return None;
    }
    var prefixes := ParsePrefixes(OrNull(Field(raw, "prefixes")));
    if prefixes.None? {
      return None;
    }
    var rates := ParseRates(OrNull(Field(raw, "rates")));
    if rates.None? {
      return None;
    }
    return Some(TableOption(code.text, name.text, prefixes.value,
                            if IsInt(days) then Some(days.value.n) else None,
                            if IsNullish(carrier) then None else Some(carrier.value.text),
                            rates.value));
  }

  // ---------- Tables ----------

  predicate DistinctCodes(table: seq<TableOption>) {
    forall i, j :: 0 <= i < j < |table| ==> table[i].code != table[j].code
  }

  predicate TableSound(table: seq<TableOption>) {
    table != [] && DistinctCodes(table) && forall i :: 0 <= i < |table| ==> OptionSound(table[i])
  }

  predicate TableAccepted(parsed: Option<Json>) {
    && parsed.Some? && parsed.value.Array? && parsed.value.elements != []
    && (forall i :: 0 <= i < |parsed.value.elements| ==> OptionAccepted(parsed.value.elements[i]))
    && forall i, j :: 0 <= i < j < |parsed.value.elements| ==>
         OptionOf(parsed.value.elements[i]).code != OptionOf(parsed.value.elements[j]).code
  }

  lemma TableRead(raw: seq<Json>, options: seq<TableOption>)
    requires |options| == |raw| > 0
    requires forall i :: 0 <= i < |raw| ==> OptionAccepted(raw[i]) && options[i] == OptionOf(raw[i])
    ensures TableAccepted(Some(Array(raw))) <==> DistinctCodes(options)
    ensures DistinctCodes(options) ==> TableSound(options)
  {
    hide OptionOf, OptionAccepted, OptionSound;
    assert forall i :: 0 <= i < |raw| ==> OptionOf(raw[i]).code == options[i].code;
  }

  method RepeatsACode(options: seq<TableOption>) returns (repeats: bool)
    ensures repeats <==> !DistinctCodes(options)
  {
    var seen: set<string> := {};
    for index := 0 to |options|
      invariant forall c :: c in seen <==> exists i :: 0 <= i < index && options[i].code == c
      invariant forall i, j :: 0 <= i < j < index ==> options[i].code != options[j].code
    {
      if options[index].code in seen {
        return true;
      }
      seen := seen + {options[index].code};
    }
    return false;
  }

  /** `parsed` is what JSON.parse made of the text, if anything. */
  method ParseShippingTable(parsed: Option<Json>) returns (r: Option<seq<TableOption>>)
    ensures r.Some? <==> TableAccepted(parsed)
    ensures r.Some? ==>
              && TableSound(r.value) && |r.value| == |parsed.value.elements|
              && forall i :: 0 <= i < |r.value| ==> r.value[i] == OptionOf(parsed.value.elements[i])
  {
    hide OptionOf, OptionAccepted, OptionSound, TableSound, DistinctCodes;
    if parsed.None? || !parsed.value.Array? || parsed.value.elements == [] {
      return None;
    }
    var raw := parsed.value.elements;
    var options: seq<TableOption> := [];
    for index := 0 to |raw|
      invariant |options| == index
      invariant forall i :: 0 <= i < index ==> OptionAccepted(raw[i]) && options[i] == OptionOf(raw[i])
    {
      var option := ParseOption(raw[index]);
      if option.None? {
        assert !OptionAccepted(raw[index]);
        return None;
      }
      options := options + [option.value];
    }
    TableRead(raw, options);
    hide TableAccepted;
    var repeats := RepeatsACode(options);
    if repeats {
      return None;
    }
    return Some(options);
  }

  // ---------- Writing a table down ----------

  function RateJson(rate: Rate): Json {
    Object(map["upToGrams" := Integer(rate.upToGrams), "priceCents" := Integer(rate.priceCents)])
  }

  /** An option as an operator would write it. */
  function OptionJson(option: TableOption): Json {
    Object(map[
      "code" := Text(option.code),
      "label" := Text(option.name),
      "prefixes" := Array(seq(|option.prefixes|, i requires 0 <= i < |option.prefixes| => Text(option.prefixes[i]))),
      "estimatedDays" := if option.estimatedDays.Some? then Integer(option.estimatedDays.value) else Null,
      "carrier" := if option.carrier.Some? then Text(option.carrier.value) else Null,
      "rates" := Array(seq(|option.rates|, i requires 0 <= i < |option.rates| => RateJson(option.rates[i])))])
  }

  lemma RatesReadBack(rates: seq<Rate>)
    requires Brackets(rates)
    ensures var raw := Array(seq(|rates|, i requires 0 <= i < |rates| => RateJson(rates[i])));
      RatesAccepted(raw) && RatesOf(raw) == rates
  {
    var raw := Array(seq(|rates|, i requires 0 <= i < |rates| => RateJson(rates[i])));
    assert forall i :: 0 <= i < |rates| ==> IsBracket(raw.elements[i]) && BracketOf(raw.elements[i]) == rates[i];
  }

  lemma PrefixesReadBack(prefixes: seq<string>)
    requires prefixes != [] && forall i :: 0 <= i < |prefixes| ==> IsPrefix(prefixes[i])
    ensures var raw := Array(seq(|prefixes|, i requires 0 <= i < |prefixes| => Text(prefixes[i])));
      PrefixesAccepted(raw) && ParsePrefixes(raw) == Some(prefixes)
  {
    var raw := Array(seq(|prefixes|, i requires 0 <= i < |prefixes| => Text(prefixes[i])));
    assert PrefixesAccepted(raw);
    assert ParsePrefixes(raw).value == prefixes;
  }

  /** Every sound option whose code and label are not blank is accepted as written, and read back as it is. */
  lemma OptionReadsBack(option: TableOption)
    requires OptionSound(option) && Trim(option.code) != "" && Trim(option.name) != ""
    ensures OptionAccepted(OptionJson(option)) && OptionOf(OptionJson(option)) == option
  {
    RatesReadBack(option.rates);
    PrefixesReadBack(option.prefixes);
    NonBlankIff(option.code);
    NonBlankIff(option.name);
    hide RatesAccepted, RatesOf, PrefixesAccepted, ParsePrefixes, NonBlank, Trim, OptionSound, RateJson;
    var raw := OptionJson(option);
    assert OrNull(Field(raw, "code")) == Text(option.code) && OrNull(Field(raw, "label")) == Text(option.name);
  }
}
