/**
 * URL slugs: made from a display name, and made unique by the least free suffix.
 */
module Slug {
  import opened Decimal
  import opened Seqs

  // ---------- What a slug is ----------

  predicate IsSlugChar(c: char) {
    'a' <= c <= 'z' || '0' <= c <= '9'
  }

  predicate IsWord(s: string) {
    s != "" && forall i :: 0 <= i < |s| ==> IsSlugChar(s[i])
  }

  /** Lowercase alphanumerics separated by single hyphens: ^[a-z0-9]+(?:-[a-z0-9]+)*$. */
  ghost predicate IsSlug(s: string)
    decreases |s|
  {
    IsWord(s) || exists i :: 0 < i < |s| && s[i] == '-' && IsWord(s[..i]) && IsSlug(s[i + 1..])
  }

  /** The same language, position by position. */
  predicate IsHyphenated(s: string) {
    && (forall i :: 0 <= i < |s| ==> IsSlugChar(s[i]) || s[i] == '-')
    && (forall i :: 0 < i < |s| ==> s[i - 1] != '-' || s[i] != '-')
  }

  predicate HasCleanEnds(s: string) {
    s != "" && s[0] != '-' && s[|s| - 1] != '-'
  }

  /** A word, a hyphen and more of the same. */
  lemma WordsJoin(s: string, i: nat)
    requires 0 < i < |s| && s[i] == '-' && IsWord(s[..i])
    requires IsHyphenated(s[i + 1..]) && HasCleanEnds(s[i + 1..])
    ensures IsHyphenated(s) && HasCleanEnds(s)
  {
    var word, rest := s[..i], s[i + 1..];
    assert forall k :: 0 <= k < i ==> s[k] == word[k];
    assert forall k :: i < k < |s| ==> s[k] == rest[k - i - 1];
    forall k | 0 < k < |s| ensures s[k - 1] != '-' || s[k] != '-' {
      if k > i + 1 { assert rest[k - i - 2] != '-' || rest[k - i - 1] != '-'; }
    }
  }

  lemma {:induction false} SlugsAreHyphenated(s: string)
    ensures IsSlug(s) <==> IsHyphenated(s) && HasCleanEnds(s)
    decreases |s|
  {
    if IsWord(s) {
      assert IsSlug(s) && IsHyphenated(s) && HasCleanEnds(s);
    } else {
      if IsSlug(s) {
        var i :| 0 < i < |s| && s[i] == '-' && IsWord(s[..i]) && IsSlug(s[i + 1..]);
        hide IsSlug, IsWord, IsHyphenated, HasCleanEnds;
        SlugsAreHyphenated(s[i + 1..]);
        WordsJoin(s, i);
      }
      if IsHyphenated(s) && HasCleanEnds(s) {
        WordAndRest(s);
        hide IsWord, IsHyphenated, HasCleanEnds;
        var i := FirstHyphen(s);
        SlugsAreHyphenated(s[i + 1..]);
      }
    }
  }

  /** What is not a word starts with one, and goes on after its first hyphen. */
  lemma WordAndRest(s: string)
    requires IsHyphenated(s) && HasCleanEnds(s) && !IsWord(s)
    ensures var i := FirstHyphen(s);
      0 < i < |s| && s[i] == '-' && IsWord(s[..i]) && IsHyphenated(s[i + 1..]) && HasCleanEnds(s[i + 1..])
  {
  }

  function FirstHyphen(s: string): (i: nat)
    requires s != "" && s[0] != '-' && exists k :: 0 <= k < |s| && s[k] == '-'
    ensures 0 < i < |s| && s[i] == '-' && forall k :: 0 <= k < i ==> s[k] != '-'
  {
    FirstHyphenFrom(s, 1)
  }

  function FirstHyphenFrom(s: string, from: nat): (i: nat)
    requires from <= |s| && (exists k :: 0 <= k < |s| && s[k] == '-') && forall k :: 0 <= k < from ==> s[k] != '-'
    ensures from <= i < |s| && s[i] == '-' && forall k :: 0 <= k < i ==> s[k] != '-'
    decreases |s| - from
  {
    if s[from] == '-' then from else FirstHyphenFrom(s, from + 1)
  }

  // ---------- slugify ----------

  predicate IsAscii(s: string) {
    forall i :: 0 <= i < |s| ==> s[i] < '\U{80}'
  }

  predicate IsUpper(c: char) {
    'A' <= c <= 'Z'
  }

  function LowerChar(c: char): char {
    if IsUpper(c) then ((c as int) + 32) as char else c
  }

  function AsciiLower(s: string): string {
    seq(|s|, i requires 0 <= i < |s| => LowerChar(s[i]))
  }

  /** Unicode's part: any decomposition that leaves ASCII alone, and any lowering that lowers A to Z in it. */
  datatype Unicode = Unicode(nfkd: string -> string, lower: string -> string)

  ghost predicate KnowsAscii(u: Unicode) {
    forall s :: IsAscii(s) ==> u.nfkd(s) == s && u.lower(s) == AsciiLower(s)
  }

  predicate IsCombining(c: char) {
    '\U{300}' <= c <= '\U{36F}'
  }

  function DropCombining(s: string): string {
    if s == "" then "" else (if IsCombining(s[0]) then "" else [s[0]]) + DropCombining(s[1..])
  }

  /** Each run of other characters becomes one hyphen. */
  function Hyphenate(s: string): string {
    if s == "" then ""
    else if IsSlugChar(s[0]) then [s[0]] + Hyphenate(s[1..])
    else if |s| > 1 && !IsSlugChar(s[1]) then Hyphenate(s[1..])
    else "-" + Hyphenate(s[1..])
  }

  function TrimLeft(s: string): string {
    if s != "" && s[0] == '-' then TrimLeft(s[1..]) else s
  }

  function TrimRight(s: string): string {
    if s != "" && s[|s| - 1] == '-' then TrimRight(s[..|s| - 1]) else s
  }

  function Slugify(u: Unicode, input: string, fallback: string): string {
    var cleaned := TrimRight(TrimLeft(Hyphenate(u.lower(DropCombining(u.nfkd(input))))));
    if cleaned == "" then fallback else cleaned
  }

  lemma {:induction false} HyphenateHyphenates(s: string)
    ensures IsHyphenated(Hyphenate(s))
    ensures Hyphenate(s) != "" && Hyphenate(s)[0] == '-' ==> !IsSlugChar(s[0])
    ensures s != "" && !IsSlugChar(s[0]) ==> Hyphenate(s) != "" && Hyphenate(s)[0] == '-'
    ensures s == "" ==> Hyphenate(s) == ""
    decreases |s|
  {
    if s != "" {
      HyphenateHyphenates(s[1..]);
    }
  }

  lemma {:induction false} TrimLeftTrims(s: string)
    requires IsHyphenated(s)
    ensures IsHyphenated(TrimLeft(s)) && (TrimLeft(s) == "" || TrimLeft(s)[0] != '-')
    decreases |s|
  {
    if s != "" && s[0] == '-' { TrimLeftTrims(s[1..]); }
  }

  lemma {:induction false} TrimRightTrims(s: string)
    requires IsHyphenated(s) && (s == "" || s[0] != '-')
    ensures IsHyphenated(TrimRight(s)) && (TrimRight(s) == "" || HasCleanEnds(TrimRight(s)))
    decreases |s|
  {
    if s != "" && s[|s| - 1] == '-' { TrimRightTrims(s[..|s| - 1]); }
  }

  /** Whatever the name, the slug fits the pattern. */
  lemma SlugifyGivesASlug(u: Unicode, input: string, fallback: string)
    requires IsSlug(fallback)
    ensures IsSlug(Slugify(u, input, fallback))
  {
    var text := u.lower(DropCombining(u.nfkd(input)));
    HyphenateHyphenates(text);
    TrimLeftTrims(Hyphenate(text));
    TrimRightTrims(TrimLeft(Hyphenate(text)));
    SlugsAreHyphenated(TrimRight(TrimLeft(Hyphenate(text))));
  }

  lemma {:induction false} HyphenateKeeps(s: string)
    requires IsHyphenated(s)
    ensures Hyphenate(s) == s
    decreases |s|
  {
    if s != "" {
      HyphenateKeeps(s[1..]);
    }
  }

  lemma {:induction false} NothingToDrop(s: string)
    requires forall i :: 0 <= i < |s| ==> !IsCombining(s[i])
    ensures DropCombining(s) == s
    decreases |s|
  {
    if s != "" { NothingToDrop(s[1..]); }
  }

  /** A slug is its own slug. */
  lemma SlugsStay(u: Unicode, s: string, fallback: string)
    requires KnowsAscii(u) && IsSlug(s)
    ensures Slugify(u, s, fallback) == s
  {
    SlugsAreHyphenated(s);
    assert IsAscii(s) && AsciiLower(s) == s;
    NothingToDrop(s);
    HyphenateKeeps(s);
    assert u.nfkd(s) == s && u.lower(s) == s;
    hide KnowsAscii, IsSlug, IsHyphenated, DropCombining, Hyphenate, AsciiLower, IsAscii;
    assert TrimLeft(s) == s && TrimRight(s) == s;
  }

  lemma SlugifyIsIdempotent(u: Unicode, input: string, fallback: string)
    requires KnowsAscii(u) && IsSlug(fallback)
    ensures Slugify(u, Slugify(u, input, fallback), fallback) == Slugify(u, input, fallback)
  {
    SlugifyGivesASlug(u, input, fallback);
    SlugsStay(u, Slugify(u, input, fallback), fallback);
  }

  // ---------- What slugify keeps ----------

  /** The letters and digits of a text, in order. */
  ghost function Kept(s: string): string {
    if s == "" then "" else (if IsSlugChar(s[0]) then [s[0]] else "") + Kept(s[1..])
  }

  /** `s` is `word` with combining marks, U+0300 to U+036F, put in anywhere. */
  ghost predicate Marked(s: string, word: string)
    decreases |s|
  {
    if s == "" then word == ""
    else
      || ('\U{300}' <= s[0] <= '\U{36F}' && Marked(s[1..], word))
      || (word != "" && s[0] == word[0] && Marked(s[1..], word[1..]))
  }

  lemma {:induction false} MarksDrop(s: string, word: string)
    requires Marked(s, word) && IsAscii(word)
    ensures DropCombining(s) == word
    decreases |s|
  {
    if s != "" {
      if IsCombining(s[0]) { MarksDrop(s[1..], word); } else { MarksDrop(s[1..], word[1..]); }
    }
  }

  lemma {:induction false} HyphenateKeepsLetters(s: string)
    ensures Kept(Hyphenate(s)) == Kept(s)
    decreases |s|
  {
    if s != "" {
      HyphenateKeepsLetters(s[1..]);
      if !IsSlugChar(s[0]) { assert ("-" + Hyphenate(s[1..]))[1..] == Hyphenate(s[1..]); }
    }
  }

  lemma {:induction false} TrimLeftKeepsLetters(s: string)
    ensures Kept(TrimLeft(s)) == Kept(s)
    decreases |s|
  {
    if s != "" && s[0] == '-' { TrimLeftKeepsLetters(s[1..]); }
  }

  lemma {:induction false} KeptConcat(s: string, t: string)
    ensures Kept(s + t) == Kept(s) + Kept(t)
    decreases |s|
  {
    if s == "" {
      assert s + t == t;
    } else {
      hide IsSlugChar;
      var whole, letter := s + t, if IsSlugChar(s[0]) then [s[0]] else "";
      assert whole[0] == s[0] && whole[1..] == s[1..] + t;
      KeptConcat(s[1..], t);
      assert letter + (Kept(s[1..]) + Kept(t)) == (letter + Kept(s[1..])) + Kept(t);
    }
  }

  lemma {:induction false} TrimRightKeepsLetters(s: string)
    ensures Kept(TrimRight(s)) == Kept(s)
    decreases |s|
  {
    if s != "" && s[|s| - 1] == '-' {
      var init := s[..|s| - 1];
      TrimRightKeepsLetters(init);
      KeptConcat(init, "-");
      assert s == init + "-";
    }
  }

  /**
   * A name that decomposes into ASCII with combining marks, and so any ASCII name and its
   * accented forms, keeps all its letters, lowered, and all its digits, in order, and
   * nothing else but hyphens; without any it becomes the fallback.
   */
  lemma SlugifyKeepsLetters(u: Unicode, input: string, word: string, fallback: string)
    requires KnowsAscii(u) && IsAscii(word) && Marked(u.nfkd(input), word)
    ensures Kept(AsciiLower(word)) != "" ==> Kept(Slugify(u, input, fallback)) == Kept(AsciiLower(word))
    ensures Kept(AsciiLower(word)) == "" ==> Slugify(u, input, fallback) == fallback
  {
    MarksDrop(u.nfkd(input), word);
    var text := AsciiLower(word);
    assert u.lower(word) == text;
    HyphenateKeepsLetters(text);
    TrimLeftKeepsLetters(Hyphenate(text));
    TrimRightKeepsLetters(TrimLeft(Hyphenate(text)));
    HyphenateHyphenates(text);
    TrimLeftTrims(Hyphenate(text));
    TrimRightTrims(TrimLeft(Hyphenate(text)));
    var cleaned := TrimRight(TrimLeft(Hyphenate(text)));
    if cleaned != "" {
      assert IsSlugChar(cleaned[0]);
    }
  }

  /** Whatever stands between two words becomes one hyphen. */
  lemma {:induction false} SeparatorsBecomeOneHyphen(a: string, between: string, b: string)
    requires a != "" && IsSlugChar(a[|a| - 1]) && b != "" && IsSlugChar(b[0])
    requires between != "" && forall i :: 0 <= i < |between| ==> !IsSlugChar(between[i])
    ensures Hyphenate(a + between + b) == Hyphenate(a) + "-" + Hyphenate(b)
    decreases |a|
  {
    var all := a + between + b;
    assert all[1..] == a[1..] + between + b;
    if |a| > 1 {
      assert all[1] == a[1];
      SeparatorsBecomeOneHyphen(a[1..], between, b);
    } else {
      assert all[1..] == between + b;
      OneHyphen(between, b);
      assert Hyphenate(a[1..]) == "";
    }
  }

  lemma {:induction false} OneHyphen(between: string, b: string)
    requires b != "" && IsSlugChar(b[0])
    requires between != "" && forall i :: 0 <= i < |between| ==> !IsSlugChar(between[i])
    ensures Hyphenate(between + b) == "-" + Hyphenate(b)
    decreases |between|
  {
    var all := between + b;
    assert all[1..] == between[1..] + b;
    if |between| > 1 {
      assert all[1] == between[1];
      OneHyphen(between[1..], b);
    } else {
      assert all[1..] == b && all[1] == b[0];
    }
  }

  // ---------- The least free suffix ----------

  function Candidate(base: string, n: nat): string {
    base + "-" + Numeral(n)
  }

  lemma CandidatesDiffer(base: string, m: nat, n: nat)
    ensures Candidate(base, m) == Candidate(base, n) ==> m == n
    ensures Candidate(base, n) != base
  {
    NumeralsDiffer(m, n);
    if Candidate(base, m) == Candidate(base, n) {
      assert Candidate(base, m)[|base| + 1..] == Numeral(m);
      assert Candidate(base, n)[|base| + 1..] == Numeral(n);
    }
  }

  /** `r` is the base if free, and otherwise the first free base-n from 2 on. */
  ghost predicate IsNextAvailable(base: string, taken: set<string>, r: string) {
    if base !in taken then r == base
    else exists n :: n >= 2 && LeastFree(base, taken, n) && r == Candidate(base, n)
  }

  ghost predicate LeastFree(base: string, taken: set<string>, n: nat) {
    Candidate(base, n) !in taken && forall k :: 2 <= k < n ==> Candidate(base, k) in taken
  }

  /** Pigeonhole: n - 2 distinct suffixes and the base itself are all taken. */
  lemma {:induction false} TriedAreTaken(base: string, taken: set<string>, n: nat)
    requires n >= 2 && base in taken && forall k :: 2 <= k < n ==> Candidate(base, k) in taken
    ensures n - 1 <= |taken|
    decreases n
  {
    if n == 2 {
      assert {base} <= taken;
      assert |taken - {base}| == |taken| - 1;
    } else {
      var last := Candidate(base, n - 1);
      forall k | 2 <= k < n - 1 ensures Candidate(base, k) in taken - {last} {
        CandidatesDiffer(base, k, n - 1);
      }
      CandidatesDiffer(base, 0, n - 1);
      TriedAreTaken(base, taken - {last}, n - 1);
    }
  }

  method NextAvailableSlug(base: string, taken: seq<string>) returns (r: string)
    ensures IsNextAvailable(base, Elements(taken), r)
    ensures r !in taken
    ensures r == base || exists n :: 2 <= n <= |Elements(taken)| + 1 && r == Candidate(base, n)
  {
    var exact := Elements(taken);
    if base !in exact {
      return base;
    }
    var n: nat := 2;
    while Candidate(base, n) in exact
      invariant n >= 2
      invariant forall k :: 2 <= k < n ==> Candidate(base, k) in exact
      decreases |exact| + 2 - n
    {
      TriedAreTaken(base, exact, n + 1);
      n := n + 1;
    }
    TriedAreTaken(base, exact, n);
    assert LeastFree(base, exact, n);
    return Candidate(base, n);
  }

  lemma {:induction false} NextAvailableIsUnique(base: string, taken: set<string>, r: string, s: string)
    requires IsNextAvailable(base, taken, r) && IsNextAvailable(base, taken, s)
    ensures r == s
  {
    if base in taken {
      var m :| m >= 2 && LeastFree(base, taken, m) && r == Candidate(base, m);
      var n :| n >= 2 && LeastFree(base, taken, n) && s == Candidate(base, n);
      assert Candidate(base, m) !in taken && Candidate(base, n) !in taken;
    }
  }

  function StartingWith(taken: set<string>, base: string): set<string> {
    set s | s in taken && base <= s
  }

  /** Asking the database only for slugs that start with the base changes nothing. */
  lemma {:induction false} PrefixQueryIsEnough(base: string, taken: set<string>, r: string)
    ensures IsNextAvailable(base, StartingWith(taken, base), r) <==> IsNextAvailable(base, taken, r)
  {
    forall n: nat ensures Candidate(base, n) in StartingWith(taken, base) <==> Candidate(base, n) in taken {
      assert base <= Candidate(base, n);
    }
    forall n: nat ensures LeastFree(base, StartingWith(taken, base), n) <==> LeastFree(base, taken, n) {
    }
  }

  /** The generated slug fits the pattern too. */
  lemma CandidateIsASlug(base: string, n: nat)
    requires IsSlug(base)
    ensures IsSlug(Candidate(base, n))
  {
    SlugsAreHyphenated(base);
    var s := Candidate(base, n);
    forall i | 0 <= i < |s| ensures IsSlugChar(s[i]) || s[i] == '-' {
      if i > |base| { assert s[i] == Numeral(n)[i - |base| - 1]; }
    }
    forall i | 0 < i < |s| ensures s[i - 1] != '-' || s[i] != '-' {
      if i > |base| { assert s[i] == Numeral(n)[i - |base| - 1]; }
    }
    SlugsAreHyphenated(s);
  }

  /** resolveSlug: a product named anything gets a free slug that fits the pattern. */
  method ResolveSlug(u: Unicode, name: string, products: seq<string>) returns (slug: string)
    ensures slug !in products
    ensures IsSlug(slug)
    ensures IsNextAvailable(Slugify(u, name, "produto"), Elements(products), slug)
  {
    assert IsWord("produto");
    var base := Slugify(u, name, "produto");
    SlugifyGivesASlug(u, name, "produto");
    var listed := FindStartingWith(products, base);
    slug := NextAvailableSlug(base, listed);
    PrefixQueryIsEnough(base, Elements(products), slug);
    if base in listed {
      ghost var n :| n >= 2 && LeastFree(base, Elements(listed), n) && slug == Candidate(base, n);
      CandidateIsASlug(base, n);
    }
  }

  /** The query behind it. */
  method FindStartingWith(products: seq<string>, base: string) returns (listed: seq<string>)
    ensures Elements(listed) == StartingWith(Elements(products), base)
  {
    listed := [];
    for i := 0 to |products|
      invariant forall x :: x in listed <==> x in products[..i] && base <= x
    {
      if base <= products[i] {
        listed := listed + [products[i]];
      }
    }
    assert products[..|products|] == products;
  }
}
