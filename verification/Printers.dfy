/**
 * Text the services write and somebody reads back: encrypted credentials, escaped
 * markup, amounts of money.
 */
module Printers {
  import opened Wrappers
  import opened Decimal

  // ---------- Hexadecimal ----------

  newtype Byte = n: int | 0 <= n < 256

  function HexDigit(d: int): (c: char)
    requires 0 <= d < 16
    ensures HexValue(c) == Some(d)
  {
    if d < 10 then '0' + (d as char) else 'a' + ((d - 10) as char)
  }

  function HexValue(c: char): (r: Option<int>)
    ensures r.Some? ==> 0 <= r.value < 16
  {
    if '0' <= c <= '9' then Some(c as int - '0' as int)
    else if 'a' <= c <= 'f' then Some(c as int - 'a' as int + 10)
    else if 'A' <= c <= 'F' then Some(c as int - 'A' as int + 10)
    else None
  }

  function ToHex(bytes: seq<Byte>): string {
    if bytes == [] then ""
    else [HexDigit(bytes[0] as int / 16), HexDigit(bytes[0] as int % 16)] + ToHex(bytes[1..])
  }

  /** Buffer.from(s, 'hex'): stops quietly at the first pair that is not hexadecimal. */
  function FromHex(s: string): seq<Byte> {
    if |s| < 2 || HexValue(s[0]).None? || HexValue(s[1]).None? then []
    else [(16 * HexValue(s[0]).value + HexValue(s[1]).value) as Byte] + FromHex(s[2..])
  }

  lemma {:induction false} HexRoundTrip(bytes: seq<Byte>)
    ensures FromHex(ToHex(bytes)) == bytes
    ensures forall i :: 0 <= i < |ToHex(bytes)| ==> ToHex(bytes)[i] != ':'
    decreases |bytes|
  {
    if bytes != [] {
      HexRoundTrip(bytes[1..]);
      var s := ToHex(bytes);
      assert s[2..] == ToHex(bytes[1..]);
      forall i | 0 <= i < |s| ensures s[i] != ':' {
        if i >= 2 { assert s[i] == s[2..][i - 2]; } else { assert HexValue(s[i]).Some?; }
      }
    }
  }

  function Capitals(s: string): string {
    if s == "" then "" else [if 'a' <= s[0] <= 'z' then s[0] - 'a' + 'A' else s[0]] + Capitals(s[1..])
  }

  /** Either case of the letters reads the same. */
  lemma {:induction false} HexCaseIsIgnored(bytes: seq<Byte>)
    ensures FromHex(Capitals(ToHex(bytes))) == bytes
    decreases |bytes|
  {
    if bytes != [] {
      HexCaseIsIgnored(bytes[1..]);
      var s := ToHex(bytes);
      assert s[2..] == s[1..][1..] == ToHex(bytes[1..]);
      assert Capitals(s) == [Capitals(s)[0], Capitals(s)[1]] + Capitals(s[2..]);
      assert Capitals(s)[2..] == Capitals(ToHex(bytes[1..]));
      assert HexValue(Capitals(s)[0]) == HexValue(s[0]) && HexValue(Capitals(s)[1]) == HexValue(s[1]);
    }
  }

  // ---------- Encrypted credentials ----------

  /** An authenticated cipher under the service's key, and the text encoding around it. */
  datatype Cipher = Cipher(
    seal: (seq<Byte>, seq<Byte>) -> (seq<Byte>, seq<Byte>),
    open: (seq<Byte>, seq<Byte>, seq<Byte>) -> Option<seq<Byte>>,
    encode: string -> seq<Byte>,
    decode: seq<Byte> -> string)

  /** What AES-GCM and UTF-8 promise: opening what was sealed, with its tag, gives it back. */
  ghost predicate Correct(c: Cipher) {
    && (forall iv, bytes :: c.open(iv, c.seal(iv, bytes).0, c.seal(iv, bytes).1) == Some(bytes))
    && (forall text :: c.decode(c.encode(text)) == text)
  }

  datatype Decrypted = Plain(text: string) | BadFormat | BadIntegrity

  function Split(s: string, at: char): (r: seq<string>)
    ensures r != []
  {
    if s == "" then [""]
    else
      var rest := Split(s[1..], at);
      if s[0] == at then [""] + rest else [[s[0]] + rest[0]] + rest[1..]
  }

  function Encrypt(c: Cipher, iv: seq<Byte>, plaintext: string): string {
    var (tag, ciphertext) := c.seal(iv, c.encode(plaintext));
    ToHex(iv) + ":" + ToHex(tag) + ":" + ToHex(ciphertext)
  }

  function Decrypt(c: Cipher, payload: string): Decrypted {
    var parts := Split(payload, ':');
    if |parts| != 3 then BadFormat
    else
      match c.open(FromHex(parts[0]), FromHex(parts[1]), FromHex(parts[2]))
      case None => BadIntegrity
      case Some(bytes) => Plain(c.decode(bytes))
  }

  lemma {:induction false} SplitWord(s: string, at: char)
    requires forall i :: 0 <= i < |s| ==> s[i] != at
    ensures Split(s, at) == [s]
    decreases |s|
  {
    if s != "" {
      SplitWord(s[1..], at);
      assert [s[0]] + s[1..] == s;
    }
  }

  lemma {:induction false} SplitFirst(s: string, at: char, rest: string)
    requires forall i :: 0 <= i < |s| ==> s[i] != at
    ensures Split(s + [at] + rest, at) == [s] + Split(rest, at)
    decreases |s|
  {
    if s == "" {
      assert (s + [at] + rest)[1..] == rest;
    } else {
      SplitFirst(s[1..], at, rest);
      assert (s + [at] + rest)[1..] == s[1..] + [at] + rest;
      assert [s[0]] + s[1..] == s;
      assert ([s[1..]] + Split(rest, at))[1..] == Split(rest, at);
    }
  }

  /** decrypt undoes encrypt, for every text and every nonce. */
  lemma DecryptUndoesEncrypt(c: Cipher, iv: seq<Byte>, plaintext: string)
    requires Correct(c)
    ensures Decrypt(c, Encrypt(c, iv, plaintext)) == Plain(plaintext)
  {
    var (tag, ciphertext) := c.seal(iv, c.encode(plaintext));
    HexRoundTrip(iv);
    HexRoundTrip(tag);
    HexRoundTrip(ciphertext);
    var rest := ToHex(tag) + ":" + ToHex(ciphertext);
    assert Encrypt(c, iv, plaintext) == ToHex(iv) + ":" + rest;
    SplitFirst(ToHex(iv), ':', rest);
    SplitFirst(ToHex(tag), ':', ToHex(ciphertext));
    SplitWord(ToHex(ciphertext), ':');
    hide Split;
  }

  function Occurrences(s: string, at: char): nat {
    if s == "" then 0 else (if s[0] == at then 1 else 0) + Occurrences(s[1..], at)
  }

  lemma {:induction false} SplitCounts(s: string, at: char)
    ensures |Split(s, at)| == Occurrences(s, at) + 1
    decreases |s|
  {
    if s != "" { SplitCounts(s[1..], at); }
  }

  /** A payload is refused for its format exactly when it has not two colons. */
  lemma BadFormatIff(c: Cipher, payload: string)
    ensures Decrypt(c, payload) == BadFormat <==> Occurrences(payload, ':') != 2
  {
    SplitCounts(payload, ':');
  }

  // ---------- Markup ----------

  /** value.replace(/c/g, text), for one character. */
  function Replace(s: string, c: char, text: string): string {
    if s == "" then "" else (if s[0] == c then text else [s[0]]) + Replace(s[1..], c, text)
  }

  function EscapeHtml(value: string): string {
    Replace(Replace(Replace(Replace(Replace(value, '&', "&amp;"), '<', "&lt;"), '>', "&gt;"), '"', "&quot;"), '\'', "&#39;")
  }

  function Entity(c: char): string {
    if c == '&' then "&amp;"
    else if c == '<' then "&lt;"
    else if c == '>' then "&gt;"
    else if c == '"' then "&quot;"
    else if c == '\'' then "&#39;"
    else [c]
  }

  /** One pass, character by character. */
  function Escaped(value: string): string {
    if value == "" then "" else Entity(value[0]) + Escaped(value[1..])
  }

  lemma {:induction false} ReplaceConcat(a: string, b: string, c: char, text: string)
    ensures Replace(a + b, c, text) == Replace(a, c, text) + Replace(b, c, text)
    decreases |a|
  {
    if a == "" {
      assert a + b == b;
    } else {
      assert (a + b)[1..] == a[1..] + b;
      ReplaceConcat(a[1..], b, c, text);
    }
  }

  lemma {:induction false} ReplaceNothing(s: string, c: char, text: string)
    requires forall i :: 0 <= i < |s| ==> s[i] != c
    ensures Replace(s, c, text) == s
    decreases |s|
  {
    if s != "" { ReplaceNothing(s[1..], c, text); }
  }

  lemma EscapeConcat(a: string, b: string)
    ensures EscapeHtml(a + b) == EscapeHtml(a) + EscapeHtml(b)
  {
    hide Replace;
    var a1, b1 := Replace(a, '&', "&amp;"), Replace(b, '&', "&amp;");
    var a2, b2 := Replace(a1, '<', "&lt;"), Replace(b1, '<', "&lt;");
    var a3, b3 := Replace(a2, '>', "&gt;"), Replace(b2, '>', "&gt;");
    var a4, b4 := Replace(a3, '"', "&quot;"), Replace(b3, '"', "&quot;");
    ReplaceConcat(a, b, '&', "&amp;");
    ReplaceConcat(a1, b1, '<', "&lt;");
    ReplaceConcat(a2, b2, '>', "&gt;");
    ReplaceConcat(a3, b3, '"', "&quot;");
    ReplaceConcat(a4, b4, '\'', "&#39;");
  }

  lemma {:induction false} ReplaceOne(c: char, at: char, text: string)
    ensures Replace([c], at, text) == if c == at then text else [c]
  {
    assert Replace([c][1..], at, text) == "";
  }

  /** A character by itself: later passes leave the entities of earlier ones alone. */
  lemma EscapeOne(c: char)
    ensures EscapeHtml([c]) == Entity(c)
  {
    hide Replace;
    ReplaceOne(c, '&', "&amp;");
    var s1 := Replace([c], '&', "&amp;");
    if c == '&' { ReplaceNothing(s1, '<', "&lt;"); } else { ReplaceOne(c, '<', "&lt;"); }
    var s2 := Replace(s1, '<', "&lt;");
    if c == '&' || c == '<' { ReplaceNothing(s2, '>', "&gt;"); } else { ReplaceOne(c, '>', "&gt;"); }
    var s3 := Replace(s2, '>', "&gt;");
    if c in ['&', '<', '>'] { ReplaceNothing(s3, '"', "&quot;"); } else { ReplaceOne(c, '"', "&quot;"); }
    var s4 := Replace(s3, '"', "&quot;");
    if c in ['&', '<', '>', '"'] { ReplaceNothing(s4, '\'', "&#39;"); } else { ReplaceOne(c, '\'', "&#39;"); }
  }

  /** The five passes are one map: nothing is escaped twice, nothing missed. */
  lemma {:induction false} FivePassesAreOne(value: string)
    ensures EscapeHtml(value) == Escaped(value)
    decreases |value|
  {
    if value != "" {
      assert value == [value[0]] + value[1..];
      EscapeConcat([value[0]], value[1..]);
      EscapeOne(value[0]);
      FivePassesAreOne(value[1..]);
    }
  }

  /** Reading markup back. */
  function Unescape(s: string): string
    decreases |s|
  {
    if s == "" then ""
    else if "&amp;" <= s then "&" + Unescape(s[5..])
    else if "&lt;" <= s then "<" + Unescape(s[4..])
    else if "&gt;" <= s then ">" + Unescape(s[4..])
    else if "&quot;" <= s then "\"" + Unescape(s[6..])
    else if "&#39;" <= s then "'" + Unescape(s[5..])
    else [s[0]] + Unescape(s[1..])
  }

  lemma UnescapeEntity(c: char, rest: string)
    ensures Unescape(Entity(c) + rest) == [c] + Unescape(rest)
  {
    var s := Entity(c) + rest;
    assert Entity(c) <= s && s[|Entity(c)|..] == rest;
    if c == '&' {
      assert s[1] == 'a';
    } else if c == '<' {
      assert s[1] == 'l';
    } else if c == '>' {
      assert s[1] == 'g';
    } else if c == '"' {
      assert s[1] == 'q';
    } else if c == '\'' {
      assert s[1] == '#';
    } else {
      assert s[0] == c;
    }
  }

  /** What is interpolated into an email reads as what was stored, and holds no markup of its own. */
  lemma EscapedTextReadsBack(value: string)
    ensures Unescape(EscapeHtml(value)) == value
    ensures forall i :: 0 <= i < |EscapeHtml(value)| ==> !IsMarkup(EscapeHtml(value)[i])
  {
    FivePassesAreOne(value);
    EscapedReadsBack(value);
  }

  predicate IsMarkup(c: char) {
    c == '<' || c == '>' || c == '"' || c == '\''
  }

  lemma {:induction false} EscapedReadsBack(value: string)
    ensures Unescape(Escaped(value)) == value
    ensures forall i :: 0 <= i < |Escaped(value)| ==> !IsMarkup(Escaped(value)[i])
    decreases |value|
  {
    if value != "" {
      var rest := Escaped(value[1..]);
      EscapedReadsBack(value[1..]);
      UnescapeEntity(value[0], rest);
      EntityIsPlain(value[0]);
      hide Unescape, Entity, IsMarkup;
      forall i | 0 <= i < |Escaped(value)| ensures !IsMarkup(Escaped(value)[i]) {
        if i >= |Entity(value[0])| { assert Escaped(value)[i] == rest[i - |Entity(value[0])|]; }
      }
    }
  }

  lemma EntityIsPlain(c: char)
    ensures forall i :: 0 <= i < |Entity(c)| ==> !IsMarkup(Entity(c)[i])
  {
  }

  // ---------- Money ----------

  /** The regular expression: a dot at a position that is not the first and has a multiple of three digits left. */
  function DotBefore(left: nat, i: nat): string {
    if i > 0 && left % 3 == 0 then "." else ""
  }

  /** The digits from the i-th on, with their dots. */
  function Dotted(s: string, i: nat): string
    requires i <= |s|
    decreases |s| - i
  {
    if i == |s| then "" else DotBefore(|s| - i, i) + [s[i]] + Dotted(s, i + 1)
  }

  function PadTwo(n: nat): string
    requires n < 100
  {
    if n < 10 then "0" + Numeral(n) else Numeral(n)
  }

  function FormatBRL(cents: int): string {
    var absolute := if cents < 0 then -cents else cents;
    (if cents < 0 then "-" else "") + "R$ " + Dotted(Numeral(absolute / 100), 0) + "," + PadTwo(absolute % 100)
  }

  /** Groups of three from the right, at most three in the first. */
  ghost predicate Grouped(s: string)
    decreases |s|
  {
    (1 <= |s| <= 3 && AllDigits(s)) ||
    (|s| > 4 && s[|s| - 4] == '.' && AllDigits(s[|s| - 3..]) && Grouped(s[..|s| - 4]))
  }

  predicate AllDigits(s: string) {
    forall i :: 0 <= i < |s| ==> IsDigit(s[i])
  }

  /** What is left when the dots go. */
  function Undotted(s: string): string {
    if s == "" then "" else if s[0] == '.' then Undotted(s[1..]) else [s[0]] + Undotted(s[1..])
  }

  lemma {:induction false} DottedKeepsDigits(s: string, i: nat)
    requires i <= |s| && AllDigits(s)
    ensures Undotted(Dotted(s, i)) == s[i..]
    decreases |s| - i
  {
    if i < |s| {
      DottedKeepsDigits(s, i + 1);
      UndottedCons(s[i], Dotted(s, i + 1));
      UndottedCons('.', [s[i]] + Dotted(s, i + 1));
      hide Undotted;
      assert s[i..] == [s[i]] + s[i + 1..];
      var rest := [s[i]] + Dotted(s, i + 1);
      assert Dotted(s, i) == rest || Dotted(s, i) == ['.'] + rest;
    } else {
      assert s[i..] == "";
    }
  }

  lemma {:induction false} UndottedCons(c: char, s: string)
    ensures Undotted([c] + s) == if c == '.' then Undotted(s) else [c] + Undotted(s)
  {
    assert ([c] + s)[1..] == s;
  }

  /** The last three digits of more than three stand behind the last dot. */
  lemma {:induction false} LastGroup(s: string, i: nat)
    requires |s| > 3 && i < |s| - 3
    ensures Dotted(s, i) == Dotted(s[..|s| - 3], i) + ("." + s[|s| - 3..])
    decreases |s| - i
  {
    hide Dotted, DotBefore;
    var k := |s| - 3;
    var first := DotBefore(k - i, i) + [s[i]];
    DottedStep(s, i);
    DottedStep(s[..k], i);
    SameDot(k - i, i);
    if i + 1 < k {
      LastGroup(s, i + 1);
      Regroup(first, Dotted(s[..k], i + 1), "." + s[k..]);
    } else {
      DottedEnd(s[..k]);
      LastThree(s, k);
      assert first + "" == first;
    }
  }

  lemma {:induction false} SameDot(left: nat, i: nat)
    ensures DotBefore(left + 3, i) == DotBefore(left, i)
  {
    AddThree(left);
  }

  lemma DottedEnd(s: string)
    ensures Dotted(s, |s|) == ""
  {
  }

  lemma AddThree(n: nat)
    ensures (n + 3) % 3 == n % 3
  {
  }

  lemma Regroup(a: string, b: string, c: string)
    ensures a + (b + c) == (a + b) + c
  {
  }

  lemma LastThree(s: string, k: nat)
    requires |s| == k + 3 > 3
    ensures Dotted(s, k) == "." + s[k..]
  {
    assert "." + s[k..] == ['.', s[k], s[k + 1], s[k + 2]];
    DottedStep(s, k);
    DottedStep(s, k + 1);
    DottedStep(s, k + 2);
    assert Dotted(s, k + 3) == "";
    hide Dotted;
  }

  lemma DottedStep(s: string, i: nat)
    requires i < |s|
    ensures Dotted(s, i) == DotBefore(|s| - i, i) + [s[i]] + Dotted(s, i + 1)
  {
  }

  lemma ShortIsPlain(s: string)
    requires |s| <= 3
    ensures Dotted(s, 0) == s
  {
    if |s| > 2 { assert Dotted(s, 3) == ""; assert Dotted(s, 2) == [s[2]]; }
    if |s| > 1 { assert Dotted(s, 2) == if |s| > 2 then [s[2]] else ""; assert Dotted(s, 1) == s[1..]; }
  }

  lemma {:induction false} DottedIsGrouped(s: string)
    requires s != "" && AllDigits(s)
    ensures Grouped(Dotted(s, 0))
    decreases |s|
  {
    if |s| <= 3 {
      ShortIsPlain(s);
    } else {
      var k := |s| - 3;
      LastGroup(s, 0);
      DottedIsGrouped(s[..k]);
      var head, d := Dotted(s[..k], 0), Dotted(s, 0);
      hide Dotted;
      assert |head| > 0;
      assert d == head + ("." + s[k..]) && |d| == |head| + 4;
      assert d[..|d| - 4] == head && d[|d| - 4] == '.' && d[|d| - 3..] == s[k..];
      assert AllDigits(d[|d| - 3..]);
    }
  }

  /** The units between "R$ " and the comma. */
  function Units(cents: int): string {
    Dotted(Numeral((if cents < 0 then -cents else cents) / 100), 0)
  }

  /** Every amount reads "R$ ", units in groups of three, a comma, two decimals. */
  lemma AmountsAreGrouped(cents: int)
    ensures Grouped(Units(cents))
    ensures FormatBRL(cents) == (if cents < 0 then "-" else "") + "R$ " + Units(cents) + "," +
                                PadTwo((if cents < 0 then -cents else cents) % 100)
  {
    DottedIsGrouped(Numeral((if cents < 0 then -cents else cents) / 100));
  }

  lemma PadTwoReadsBack(n: nat)
    requires n < 100
    ensures |PadTwo(n)| == 2 && AllDigits(PadTwo(n)) && Value(PadTwo(n)) == n
  {
    ValueOfNumeral(n);
    if n < 10 {
      assert PadTwo(n)[..1] == "0" && "0"[..0] == "";
    } else {
      assert |Numeral(n / 10)| == 1;
    }
  }

  /** Where the parts of an amount stand. */
  lemma Parts(cents: int)
    ensures var s, skip := FormatBRL(cents), if cents < 0 then 4 else 3;
      && |s| >= skip + 3 && s[0] == (if cents < 0 then '-' else 'R')
      && s[skip..|s| - 3] == Units(cents)
      && s[|s| - 2..] == PadTwo((if cents < 0 then -cents else cents) % 100)
  {
    var decimals := PadTwo((if cents < 0 then -cents else cents) % 100);
    PadTwoReadsBack((if cents < 0 then -cents else cents) % 100);
    var head := (if cents < 0 then "-" else "") + "R$ ";
    assert FormatBRL(cents) == head + Units(cents) + "," + decimals;
    hide FormatBRL, PadTwo, Units;
  }

  /** Two different amounts never read the same. */
  lemma FormatBRLIsInjective(a: int, b: int)
    requires FormatBRL(a) == FormatBRL(b)
    ensures a == b
  {
    Parts(a);
    Parts(b);
    var x, y := if a < 0 then -a else a, if b < 0 then -b else b;
    PadTwoReadsBack(x % 100);
    PadTwoReadsBack(y % 100);
    DottedKeepsDigits(Numeral(x / 100), 0);
    DottedKeepsDigits(Numeral(y / 100), 0);
    NumeralsDiffer(x / 100, y / 100);
    assert Units(a) == Units(b);
    hide FormatBRL, PadTwo, Numeral, Dotted, Undotted, Value;
  }

  /**
   * An amount reads back: an optional minus, the currency, the units without their dots, a
   * comma, and two digits of cents.
   */
  lemma AmountReadsBack(cents: int)
    ensures var head, absolute := (if cents < 0 then "-" else "") + "R$ ", if cents < 0 then -cents else cents;
      exists units, decimals ::
        && FormatBRL(cents) == head + units + "," + decimals
        && AllDigits(Undotted(units)) && |decimals| == 2 && AllDigits(decimals)
        && 100 * Value(Undotted(units)) + Value(decimals) == absolute
  {
    var absolute := if cents < 0 then -cents else cents;
    var decimals := PadTwo(absolute % 100);
    AmountsAreGrouped(cents);
    PadTwoReadsBack(absolute % 100);
    DottedKeepsDigits(Numeral(absolute / 100), 0);
    ValueOfNumeral(absolute / 100);
    assert Undotted(Units(cents)) == Numeral(absolute / 100);
    hide FormatBRL, PadTwo, Numeral, Dotted, Undotted, Value, Units;
    assert FormatBRL(cents) == (if cents < 0 then "-" else "") + "R$ " + Units(cents) + "," + decimals;
  }
}
