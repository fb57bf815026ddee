/** What runs of overlapping rotations and sweeps do to a family of session tokens, and exactly when they do it. */
module TokenFamilies {
  import opened Wrappers
  import opened Seqs
  import opened RefreshTokens

  // ---------- How many tokens of a family are unconsumed ----------

  function Rows(tokens: Table, f: FamilyId): set<Token> {
    set t | t in tokens && tokens[t].family == f
  }

  function Unconsumed(tokens: Table, f: FamilyId): set<Token> {
    set t | t in tokens && tokens[t].family == f && tokens[t].consumedAt.None?
  }

  /** The tokens of a family that were exchanged, as often as they were. */
  function TokensOf(exchanges: seq<Exchange>, f: FamilyId): seq<Token> {
    if exchanges == [] then []
    else
      var last := exchanges[|exchanges| - 1];
      TokensOf(exchanges[..|exchanges| - 1], f) + (if last.family == f then [last.token] else [])
  }

  lemma {:induction false} InTokensOf(exchanges: seq<Exchange>, f: FamilyId, t: Token)
    ensures t in TokensOf(exchanges, f) <==>
            exists i :: 0 <= i < |exchanges| && exchanges[i].family == f && exchanges[i].token == t
    decreases |exchanges|
  {
    if exchanges != [] {
      var init := exchanges[..|exchanges| - 1];
      InTokensOf(init, f, t);
      assert forall i :: 0 <= i < |init| ==> exchanges[i] == init[i];
    }
  }

  /** Two rotations of one token of the family went through, each having read it before either wrote. */
  ghost predicate Forked(exchanges: seq<Exchange>, f: FamilyId) {
    exists i, j :: 0 <= i < j < |exchanges| && exchanges[i].family == f && exchanges[i].token == exchanges[j].token
      && exchanges[i].readAt < exchanges[i].wroteAt && exchanges[j].readAt < exchanges[i].wroteAt < exchanges[j].wroteAt
  }

  ghost predicate Repeats(xs: seq<Exchange>, f: FamilyId) {
    exists i, j :: 0 <= i < j < |xs| && xs[i].family == f && xs[j].family == f && xs[i].token == xs[j].token
  }

  lemma RepeatsSnoc(init: seq<Exchange>, x: Exchange, f: FamilyId)
    ensures Repeats(init + [x], f) <==> Repeats(init, f) || (x.family == f && x.token in TokensOf(init, f))
  {
    var xs, n := init + [x], |init|;
    InTokensOf(init, f, x.token);
    hide TokensOf;
    if Repeats(init, f) {
      var i, j :| 0 <= i < j < n && init[i].family == f && init[j].family == f && init[i].token == init[j].token;
      assert xs[i] == init[i] && xs[j] == init[j];
    }
    if i :| 0 <= i < n && init[i].family == f && init[i].token == x.token {
      assert xs[i] == init[i] && xs[n] == x;
    }
    if Repeats(xs, f) {
      var i, j :| 0 <= i < j <= n && xs[i].family == f && xs[j].family == f && xs[i].token == xs[j].token;
      assert xs[i] == init[i];
      if j < n { assert xs[j] == init[j]; }
    }
  }

  lemma {:induction false} DistinctIffNoRepeats(xs: seq<Exchange>, f: FamilyId)
    ensures Distinct(TokensOf(xs, f)) <==> !Repeats(xs, f)
    decreases |xs|
  {
    hide Repeats, Distinct;
    if xs != [] {
      var init, last := xs[..|xs| - 1], xs[|xs| - 1];
      assert xs == init + [last];
      DistinctIffNoRepeats(init, f);
      RepeatsSnoc(init, last, f);
      DistinctLast(TokensOf(init, f), last.token);
      assert TokensOf(init, f) + [] == TokensOf(init, f);
    } else {
      NothingRepeats(f);
    }
  }

  lemma NothingRepeats(f: FamilyId)
    ensures Distinct<Token>([]) && !Repeats([], f)
  {
  }

  lemma RepeatsAreForks(w: World, f: FamilyId)
    requires Inv(w)
    ensures Repeats(w.exchanges, f) <==> Forked(w.exchanges, f)
  {
    hide Inv;
    Accounts(w);
    var xs := w.exchanges;
    if Repeats(xs, f) {
      var i, j :| 0 <= i < j < |xs| && xs[i].family == f && xs[j].family == f && xs[i].token == xs[j].token;
      ExchangeAt(w, i);
      assert xs[j].readAt < xs[i].wroteAt;
    }
    if Forked(xs, f) {
      var i, j :| 0 <= i < j < |xs| && xs[i].family == f && xs[i].token == xs[j].token
        && xs[i].readAt < xs[i].wroteAt && xs[j].readAt < xs[i].wroteAt < xs[j].wroteAt;
      ExchangeAt(w, i);
      ExchangeAt(w, j);
    }
  }

  lemma DistinctLast(s: seq<Token>, t: Token)
    ensures Distinct(s + [t]) <==> Distinct(s) && t !in s
  {
    var all := s + [t];
    assert forall i :: 0 <= i < |s| ==> all[i] == s[i];
    if t in s {
      var i :| 0 <= i < |s| && s[i] == t;
      assert all[i] == all[|s|];
    }
    if Distinct(all) {
      forall i, j | 0 <= i < j < |s| ensures s[i] != s[j] { assert all[i] != all[j]; }
    }
  }

  /** A family has one row, and one more for each exchange in it. */
  ghost predicate Counted(w: World) {
    forall f :: f in w.roots ==> |Rows(w.tokens, f)| == 1 + |TokensOf(w.exchanges, f)|
  }

  lemma CountLogin(w: World, step: Step, f: FamilyId)
    requires Inv(w) && step.Login? && step.minted !in w.tokens && step.family !in w.roots && f in Next(w, step).roots
    ensures Rows(Next(w, step).tokens, f) == if f == step.family then {step.minted} else Rows(w.tokens, f)
    ensures f == step.family ==> TokensOf(w.exchanges, f) == []
  {
    hide Inv;
    forall t | t in w.tokens ensures w.tokens[t].family != step.family { RowAt(w, t); }
    if f == step.family && TokensOf(w.exchanges, f) != [] {
      var t := TokensOf(w.exchanges, f)[0];
      InTokensOf(w.exchanges, f, t);
      var i :| 0 <= i < |w.exchanges| && w.exchanges[i].family == f && w.exchanges[i].token == t;
      ExchangeAt(w, i);
      assert false;
    }
  }

  lemma CountWrite(w: World, w': World, c: CallId, minted: Token, at: Time, f: FamilyId)
    requires Inv(w) && Wrote(w, w', c, minted, at)
    ensures w'.roots == w.roots
    ensures |Rows(w'.tokens, f)| - |Rows(w.tokens, f)| == |TokensOf(w'.exchanges, f)| - |TokensOf(w.exchanges, f)|
  {
    hide Inv, Wrote;
    WroteRows(w, w', c, minted, at);
    hide Next;
    var g := w.tokens[w.readings[c].token].family;
    assert w'.exchanges[..|w.exchanges|] == w.exchanges;
    assert Rows(w'.tokens, f) == Rows(w.tokens, f) + (if g == f then {minted} else {});
    assert minted !in Rows(w.tokens, f);
  }

  lemma CountStep(w: World, step: Step)
    requires Inv(w) && Counted(w)
    ensures Counted(Next(w, step))
  {
    hide Inv, Rows;
    var w' := Next(w, step);
    forall f | f in w'.roots ensures |Rows(w'.tokens, f)| == 1 + |TokensOf(w'.exchanges, f)| {
      if step.Login? && step.minted !in w.tokens && step.family !in w.roots {
        CountLogin(w, step, f);
      } else if step.Write? && step.c in w.readings && w.readings[step.c].token in w.tokens && step.minted !in w.tokens {
        CountWrite(w, w', step.c, step.minted, step.at, f);
      } else {
        SameFamilies(w, step, f);
      }
    }
  }

  lemma SameFamilies(w: World, step: Step, f: FamilyId)
    requires !(step.Login? && step.minted !in w.tokens && step.family !in w.roots)
    requires !(step.Write? && step.c in w.readings && w.readings[step.c].token in w.tokens && step.minted !in w.tokens)
    ensures var w' := Next(w, step);
      w'.roots == w.roots && w'.exchanges == w.exchanges && Rows(w'.tokens, f) == Rows(w.tokens, f)
  {
    if step.FinishSweep? && step.c in w.sweeps {
      FinishedRows(w, Next(w, step), step.c, step.at);
      hide Next;
    } else {
      QuietTokens(w, step);
      hide Next;
    }
  }

  lemma QuietTokens(w: World, step: Step)
    requires !(step.Login? && step.minted !in w.tokens && step.family !in w.roots)
    requires !(step.Write? && step.c in w.readings && w.readings[step.c].token in w.tokens && step.minted !in w.tokens)
    requires !(step.FinishSweep? && step.c in w.sweeps)
    ensures var w' := Next(w, step);
      w' == w.(pending := w'.pending, readings := w'.readings, sweeps := w'.sweeps, clock := w.clock + 1)
  {
  }

  lemma {:induction false} CountedInEveryRun(steps: seq<Step>)
    ensures Counted(Run(EMPTY, steps))
    decreases |steps|
  {
    hide Inv, Next, Counted;
    if steps != [] {
      CountedInEveryRun(steps[..|steps| - 1]);
      EmptyInv();
      InvInEveryRun(EMPTY, steps[..|steps| - 1]);
      CountStep(Run(EMPTY, steps[..|steps| - 1]), steps[|steps| - 1]);
    } else {
      EmptyInv();
    }
  }

  lemma EmptyInv()
    ensures Inv(EMPTY) && Counted(EMPTY)
  {
  }

  // ---------- Main results ----------

  /**
   * In every run a family has one unconsumed token and one more for every exchange of a
   * token that had been exchanged before. So it has exactly one if and only if no two
   * rotations of one of its tokens both read it before either wrote, and both wrote.
   */
  lemma OneUnconsumedIff(steps: seq<Step>, f: FamilyId)
    requires f in Run(EMPTY, steps).roots
    ensures var w := Run(EMPTY, steps);
      var exchanged := TokensOf(w.exchanges, f);
      && |Unconsumed(w.tokens, f)| == 1 + |exchanged| - |Elements(exchanged)|
      && (|Unconsumed(w.tokens, f)| == 1 <==> !Forked(w.exchanges, f))
  {
    hide Inv, Next, Run;
    EmptyInv();
    InvInEveryRun(EMPTY, steps);
    CountedInEveryRun(steps);
    var w := Run(EMPTY, steps);
    var exchanged := TokensOf(w.exchanges, f);
    forall t ensures t in exchanged <==> t in w.tokens && w.tokens[t].family == f && w.tokens[t].consumedAt.Some? {
      ExchangedRows(w, f, t);
    }
    assert Unconsumed(w.tokens, f) == Rows(w.tokens, f) - Elements(exchanged);
    assert Elements(exchanged) <= Rows(w.tokens, f);
    DistinctSize(exchanged);
    DistinctIffNoRepeats(w.exchanges, f);
    RepeatsAreForks(w, f);
  }

  lemma ExchangedRows(w: World, f: FamilyId, t: Token)
    requires Inv(w)
    ensures t in TokensOf(w.exchanges, f) <==> t in w.tokens && w.tokens[t].family == f && w.tokens[t].consumedAt.Some?
  {
    hide Inv;
    InTokensOf(w.exchanges, f, t);
    if i :| 0 <= i < |w.exchanges| && w.exchanges[i].token == t { ExchangeAt(w, i); }
    if t in w.tokens { RowAt(w, t); }
    forall i | 0 <= i < |w.exchanges| && w.exchanges[i].token == t && t in w.tokens
      ensures w.exchanges[i].family == w.tokens[t].family
    {
      ExchangeAt(w, i);
    }
  }

  /** One user to a family, in every run. */
  lemma OneUserPerFamily(steps: seq<Step>, s: Token, t: Token)
    requires var tokens := Run(EMPTY, steps).tokens;
      s in tokens && t in tokens && tokens[s].family == tokens[t].family
    ensures Run(EMPTY, steps).tokens[s].user == Run(EMPTY, steps).tokens[t].user
  {
    hide Inv, Next, Run;
    EmptyInv();
    InvInEveryRun(EMPTY, steps);
    RowAt(Run(EMPTY, steps), s);
    RowAt(Run(EMPTY, steps), t);
  }

  /** A token rotates exactly when nobody has exchanged it, no sweep has reached it, and it has not expired. */
  lemma RotatesIff(steps: seq<Step>, t: Token, now: Time)
    ensures var w := Run(EMPTY, steps);
      Find(w.tokens, t, now).Rotated? <==>
        t in w.tokens && t in w.born && !WasExchanged(w, t) && !ReachedBySome(w, t) && now < w.tokens[t].expiresAt
  {
    hide Inv, Next, Run, Find;
    EmptyInv();
    InvInEveryRun(EMPTY, steps);
    UsableNow(Run(EMPTY, steps), t, now);
  }

  /** Any token exchanged twice was exchanged by rotations that overlapped: each read it before the other wrote. */
  lemma ExchangedTwiceOverlapped(steps: seq<Step>, i: nat, j: nat)
    requires var xs := Run(EMPTY, steps).exchanges; i < j < |xs| && xs[i].token == xs[j].token
    ensures var xs := Run(EMPTY, steps).exchanges;
      xs[i].readAt < xs[j].wroteAt && xs[j].readAt < xs[i].wroteAt
  {
    hide Inv, Next, Run;
    EmptyInv();
    InvInEveryRun(EMPTY, steps);
    var w := Run(EMPTY, steps);
    Accounts(w);
    ExchangeAt(w, i);
  }

  /** Read after the write, a token is a replay in every continuation. */
  lemma {:induction false} ConsumedForGood(w: World, t: Token, steps: seq<Step>, now: Time)
    requires t in w.tokens && w.tokens[t].consumedAt.Some?
    ensures t in Run(w, steps).tokens && Run(w, steps).tokens[t].consumedAt.Some?
    ensures Find(Run(w, steps).tokens, t, now) == Replayed(w.tokens[t].family)
    decreases |steps|
  {
    hide Next;
    if steps != [] {
      ConsumedForGood(w, t, steps[..|steps| - 1], now);
      RowStep(Run(w, steps[..|steps| - 1]), steps[|steps| - 1], t);
    }
  }

  /** What any step may do to a row that is there. */
  lemma RowStep(w: World, step: Step, t: Token)
    requires t in w.tokens
    ensures t in Next(w, step).tokens
    ensures var before, after := w.tokens[t], Next(w, step).tokens[t];
      && after.user == before.user && after.family == before.family && after.expiresAt == before.expiresAt
      && (before.consumedAt.Some? ==> after.consumedAt.Some?)
      && (before.revokedAt.Some? ==> after.revokedAt == before.revokedAt)
  {
    var w' := Next(w, step);
    if step.Write? && step.c in w.readings && w.readings[step.c].token in w.tokens && step.minted !in w.tokens {
      WroteRows(w, w', step.c, step.minted, step.at);
    } else if step.FinishSweep? && step.c in w.sweeps {
      FinishedRows(w, w', step.c, step.at);
    } else if !step.Login? {
      QuietTokens(w, step);
    }
  }

  /** Two refreshes of one usable token, both read before either writes: both succeed, and the family forks. */
  lemma OverlappingRotationsFork(w: World, t: Token, now: Time, c: CallId, d: CallId, m: Token, n: Token)
    requires Find(w.tokens, t, now).Rotated? && c != d && c !in w.readings && d !in w.readings
    requires m != n && m !in w.tokens && n !in w.tokens
    ensures var w' := Next(Next(Next(Next(w, Read(c, t, now)), Read(d, t, now)), Write(c, m, now)), Write(d, n, now));
      && Find(w'.tokens, m, now).Rotated? && Find(w'.tokens, n, now).Rotated?
      && w'.tokens[m].family == w'.tokens[n].family == w.tokens[t].family
  {
    var w2 := Next(Next(w, Read(c, t, now)), Read(d, t, now));
    assert w2.readings == w.readings[c := Reading(t, w.clock)][d := Reading(t, w.clock + 1)] && w2.tokens == w.tokens;
    var w3 := Next(w2, Write(c, m, now));
    assert w3.tokens == Rotate(w.tokens, t, m, now) && d in w3.readings && w3.readings[d].token == t;
    assert Next(w3, Write(d, n, now)).tokens == Rotate(w3.tokens, t, n, now);
  }

  // ---------- What a sweep kills ----------

  /** A row is revoked exactly when a sweep that covers it started after it came, and finished. */
  lemma RevokedIff(steps: seq<Step>, t: Token)
    requires t in Run(EMPTY, steps).tokens
    ensures var w := Run(EMPTY, steps);
      t in w.born && (w.tokens[t].revokedAt.Some? <==> ReachedBySome(w, t))
  {
    hide Inv, Next, Run;
    EmptyInv();
    InvInEveryRun(EMPTY, steps);
    RowAt(Run(EMPTY, steps), t);
  }

  ghost predicate Dead(w: World, f: FamilyId) {
    forall t :: t in w.tokens && w.tokens[t].family == f ==> w.tokens[t].revokedAt.Some?
  }

  /** The rotation had read when the sweep finished and wrote once it had started. */
  predicate OpenAcross(x: Exchange, s: Swept) {
    x.readAt < s.finishedAt && s.startedAt <= x.wroteAt
  }

  /** The sweep is for the family, which was there when it started. */
  predicate ForFamily(w: World, s: Swept, f: FamilyId) {
    && f in w.roots && w.roots[f] in w.tokens && w.roots[f] in w.born
    && Covers(s.scope, w.tokens[w.roots[f]]) && w.born[w.roots[f]] < s.startedAt
  }

  lemma CoversAll(w: World, scope: Scope, f: FamilyId, t: Token)
    requires Inv(w) && t in w.tokens && w.tokens[t].family == f
    ensures f in w.roots && w.roots[f] in w.tokens && Covers(scope, w.tokens[t]) == Covers(scope, w.tokens[w.roots[f]])
  {
    hide Inv;
    RowAt(w, t);
  }

  /** The first exchange written after the sweep started had read a row the sweep reached. */
  lemma {:induction false} FirstWasOpenAcross(w: World, k: nat, i: nat)
    requires Inv(w) && k < |w.swept| && i < |w.exchanges|
    requires ForFamily(w, w.swept[k], w.exchanges[i].family) && w.swept[k].startedAt <= w.exchanges[i].wroteAt
    ensures exists j :: 0 <= j < |w.exchanges| && w.exchanges[j].family == w.exchanges[i].family && OpenAcross(w.exchanges[j], w.swept[k])
    decreases w.exchanges[i].wroteAt
  {
    hide Inv;
    var x, s := w.exchanges[i], w.swept[k];
    ExchangeAt(w, i);
    RowAt(w, x.token);
    CoversAll(w, s.scope, x.family, x.token);
    if w.born[x.token] < s.startedAt {
      assert Reached(w, s, x.token);
      assert OpenAcross(x, s);
    } else {
      assert Minted(w, x.token);
      var j :| 0 <= j < |w.exchanges| && w.exchanges[j].minted == x.token && w.exchanges[j].wroteAt == w.born[x.token];
      ExchangeAt(w, j);
      FirstWasOpenAcross(w, k, j);
    }
  }

  /**
   * In every run the last sweep to start for a family leaves it dead if and only if no
   * rotation in it was open across the sweep.
   */
  lemma SweptFamilyDeadIff(steps: seq<Step>, k: nat, f: FamilyId)
    requires k < |Run(EMPTY, steps).swept| && ForFamily(Run(EMPTY, steps), Run(EMPTY, steps).swept[k], f)
    requires var w := Run(EMPTY, steps);
      forall j :: 0 <= j < |w.swept| && Covers(w.swept[j].scope, w.tokens[w.roots[f]]) ==> w.swept[j].startedAt <= w.swept[k].startedAt
    ensures var w := Run(EMPTY, steps);
      Dead(w, f) <==>
        forall i :: 0 <= i < |w.exchanges| && w.exchanges[i].family == f ==> !OpenAcross(w.exchanges[i], w.swept[k])
  {
    hide Inv, Next, Run;
    EmptyInv();
    InvInEveryRun(EMPTY, steps);
    var w := Run(EMPTY, steps);
    forall i | 0 <= i < |w.exchanges| && w.exchanges[i].family == f && OpenAcross(w.exchanges[i], w.swept[k]) ensures !Dead(w, f) {
      OpenAcrossSurvives(w, k, f, i);
    }
    forall t | t in w.tokens && w.tokens[t].family == f && w.tokens[t].revokedAt.None?
      ensures exists i :: 0 <= i < |w.exchanges| && w.exchanges[i].family == f && OpenAcross(w.exchanges[i], w.swept[k])
    {
      SurvivorWasOpenAcross(w, k, f, t);
    }
    hide OpenAcross, ForFamily;
  }

  lemma OpenAcrossSurvives(w: World, k: nat, f: FamilyId, i: nat)
    requires Inv(w) && k < |w.swept| && ForFamily(w, w.swept[k], f) && i < |w.exchanges|
    requires w.exchanges[i].family == f && OpenAcross(w.exchanges[i], w.swept[k])
    requires forall j :: 0 <= j < |w.swept| && Covers(w.swept[j].scope, w.tokens[w.roots[f]]) ==> w.swept[j].startedAt <= w.swept[k].startedAt
    ensures !Dead(w, f)
  {
    hide Inv;
    ExchangeAt(w, i);
    var t := w.exchanges[i].minted;
    RowAt(w, t);
    forall j | 0 <= j < |w.swept| ensures !Reached(w, w.swept[j], t) {
      CoversAll(w, w.swept[j].scope, f, t);
    }
  }

  lemma SurvivorWasOpenAcross(w: World, k: nat, f: FamilyId, t: Token)
    requires Inv(w) && k < |w.swept| && ForFamily(w, w.swept[k], f)
    requires t in w.tokens && w.tokens[t].family == f && w.tokens[t].revokedAt.None?
    ensures exists i :: 0 <= i < |w.exchanges| && w.exchanges[i].family == f && OpenAcross(w.exchanges[i], w.swept[k])
  {
    hide Inv;
    RowAt(w, t);
    CoversAll(w, w.swept[k].scope, f, t);
    assert !Reached(w, w.swept[k], t);
    var i :| 0 <= i < |w.exchanges| && w.exchanges[i].minted == t && w.exchanges[i].wroteAt == w.born[t];
    ExchangeAt(w, i);
    FirstWasOpenAcross(w, k, i);
  }

  // ---------- Staying dead ----------

  /** A rotation in the family has read and not yet written. */
  ghost predicate OpenOn(w: World, f: FamilyId) {
    exists c :: c in w.readings && w.readings[c].token in w.tokens && w.tokens[w.readings[c].token].family == f
  }

  ghost predicate SameFamilyRows(w: World, w': World, f: FamilyId) {
    && (forall t :: t in w.tokens && w.tokens[t].family == f ==> t in w'.tokens && w'.tokens[t] == w.tokens[t])
    && (forall t :: t in w'.tokens && w'.tokens[t].family == f ==> t in w.tokens && w.tokens[t].family == f)
  }

  lemma DeadStep(w: World, step: Step, f: FamilyId)
    requires Inv(w) && f in w.roots && Dead(w, f) && !OpenOn(w, f)
    ensures var w' := Next(w, step);
      f in w'.roots && SameFamilyRows(w, w', f) && Dead(w', f) && !OpenOn(w', f)
  {
    hide Inv;
    var w' := Next(w, step);
    if step.Write? && step.c in w.readings && w.readings[step.c].token in w.tokens && step.minted !in w.tokens {
      WroteRows(w, w', step.c, step.minted, step.at);
      assert w.tokens[w.readings[step.c].token].family != f;
      hide Next;
    } else if step.FinishSweep? && step.c in w.sweeps {
      FinishedRows(w, w', step.c, step.at);
      hide Next;
    } else if step.Login? && step.minted !in w.tokens && step.family !in w.roots {
      forall c | c in w.readings && w.readings[c].token in w'.tokens ensures w'.tokens[w.readings[c].token].family != f {
        ReadingAt(w, c);
      }
    } else {
      QuietTokens(w, step);
      DeadReadings(w, step, f);
      hide Next;
    }
  }

  lemma DeadReadings(w: World, step: Step, f: FamilyId)
    requires Dead(w, f) && !OpenOn(w, f) && Next(w, step).tokens == w.tokens
    ensures !OpenOn(Next(w, step), f)
  {
    hide CoveredRows, Rotate, RevokeRows;
    var w' := Next(w, step);
    forall c | c in w'.readings && w'.readings[c].token in w'.tokens ensures w'.tokens[w'.readings[c].token].family != f {
      assert (c in w.readings && w'.readings[c] == w.readings[c]) || (step.Read? && Find(w.tokens, w'.readings[c].token, step.now).Rotated?);
    }
  }

  /** A dead family in which no rotation is open never changes again: no exchange, no new token, no lifted revocation. */
  lemma {:induction false} DeadForGood(w: World, f: FamilyId, steps: seq<Step>)
    requires Inv(w) && f in w.roots && Dead(w, f) && !OpenOn(w, f)
    ensures var w' := Run(w, steps);
      f in w'.roots && SameFamilyRows(w, w', f) && Dead(w', f) && !OpenOn(w', f)
    decreases |steps|
  {
    hide Inv, Next, Dead, OpenOn;
    if steps != [] {
      var init := steps[..|steps| - 1];
      DeadForGood(w, f, init);
      InvInEveryRun(w, init);
      DeadStep(Run(w, init), steps[|steps| - 1], f);
    }
  }

  /** Whereas a rotation that is open brings a live token into it. */
  lemma OpenRotationRevives(w: World, c: CallId, m: Token, at: Time)
    requires c in w.readings && w.readings[c].token in w.tokens && m !in w.tokens
    ensures var w' := Run(w, [Write(c, m, at)]);
      Find(w'.tokens, m, at).Rotated? && w'.tokens[m].family == w.tokens[w.readings[c].token].family
  {
    assert [Write(c, m, at)][..0] == [];
    assert Run(w, []) == w;
    WroteRows(w, Next(w, Write(c, m, at)), c, m, at);
  }

  ghost predicate Revives(w: World, f: FamilyId, steps: seq<Step>, t: Token, now: Time) {
    Find(Run(w, steps).tokens, t, now).Rotated? && Run(w, steps).tokens[t].family == f
  }

  /** A dead family can rotate again exactly when a rotation in it is still open. */
  lemma RevivesIff(w: World, f: FamilyId)
    requires Inv(w) && f in w.roots && Dead(w, f)
    ensures (exists steps, t, now :: Revives(w, f, steps, t, now)) <==> OpenOn(w, f)
  {
    hide Inv, Run;
    if OpenOn(w, f) {
      var c :| c in w.readings && w.readings[c].token in w.tokens && w.tokens[w.readings[c].token].family == f;
      Unused(w.tokens.Keys);
      var m: Token :| m !in w.tokens.Keys && forall t :: t in w.tokens.Keys ==> t < m;
      OpenRotationRevives(w, c, m, 0);
      assert Revives(w, f, [Write(c, m, 0)], m, 0);
    } else {
      forall steps, t, now ensures !Revives(w, f, steps, t, now) {
        DeadForGood(w, f, steps);
      }
    }
  }

  /** What one sweep, started and finished with no rotation open in the family, does to it for good. */
  lemma SweepKills(w: World, start: Step, c: CallId, f: FamilyId, at: Time, steps: seq<Step>)
    requires Inv(w) && f in w.roots && !OpenOn(w, f) && c !in w.sweeps
    requires w.roots[f] in w.tokens
    requires (start == StartSweep(c, f) && f in w.pending) || start == StartReset(c, w.tokens[w.roots[f]].user)
    ensures var w' := Run(Next(Next(w, start), FinishSweep(c, at)), steps);
      Dead(w', f) && forall t :: t in w'.tokens && w'.tokens[t].family == f ==> t in w.tokens
  {
    hide Inv, Next, Dead, OpenOn;
    var w1 := Next(w, start);
    var w2 := Next(w1, FinishSweep(c, at));
    StartedNow(w, start, c, f);
    StepInv(w, start);
    StepInv(w1, FinishSweep(c, at));
    FinishedNow(w1, c, at);
    SameOpen(w, w2, f);
    AllRevoked(w, w2, c, f, at, if start.StartSweep? then OfFamily(f) else OfUser(w.tokens[w.roots[f]].user));
    DeadForGood(w2, f, steps);
  }

  lemma StartedNow(w: World, start: Step, c: CallId, f: FamilyId)
    requires Inv(w) && f in w.roots && c !in w.sweeps
    requires w.roots[f] in w.tokens
    requires (start == StartSweep(c, f) && f in w.pending) || start == StartReset(c, w.tokens[w.roots[f]].user)
    ensures var w1 := Next(w, start);
      && c in w1.sweeps && w1.tokens == w.tokens && w1.roots == w.roots && w1.readings == w.readings
      && w1.sweeps[c].rows == CoveredRows(w.tokens, if start.StartSweep? then OfFamily(f) else OfUser(w.tokens[w.roots[f]].user))
  {
    Accounts(w);
    hide Inv, CoveredRows;
  }

  lemma AllRevoked(w: World, w2: World, c: CallId, f: FamilyId, at: Time, scope: Scope)
    requires Inv(w) && f in w.roots && w.roots[f] in w.tokens && w2.tokens.Keys == w.tokens.Keys
    requires scope == OfFamily(f) || scope == OfUser(w.tokens[w.roots[f]].user)
    requires forall t :: t in w.tokens ==> w2.tokens[t] == if t in CoveredRows(w.tokens, scope) then Revoke(w.tokens[t], at) else w.tokens[t]
    ensures Dead(w2, f)
  {
    hide Inv;
    forall t | t in w2.tokens && w2.tokens[t].family == f ensures w2.tokens[t].revokedAt.Some? {
      RowAt(w, t);
      assert t in CoveredRows(w.tokens, scope);
    }
  }

  lemma FinishedNow(w: World, c: CallId, at: Time)
    requires c in w.sweeps
    ensures var w' := Next(w, FinishSweep(c, at));
      && w'.readings == w.readings && w'.roots == w.roots && w'.tokens.Keys == w.tokens.Keys
      && forall t :: t in w.tokens ==> w'.tokens[t] == if t in w.sweeps[c].rows then Revoke(w.tokens[t], at) else w.tokens[t]
  {
    FinishedRows(w, Next(w, FinishSweep(c, at)), c, at);
  }

  lemma SameOpen(w: World, w': World, f: FamilyId)
    requires w'.readings == w.readings && w'.tokens.Keys == w.tokens.Keys
    requires forall t :: t in w.tokens ==> w'.tokens[t].family == w.tokens[t].family
    ensures OpenOn(w', f) == OpenOn(w, f)
  {
  }

  /** A sweep touches only the rows it covers that were there when it started, and keeps their earlier revocations. */
  lemma SweepsStayInTheirScope(w: World, c: CallId, at: Time, t: Token)
    requires Inv(w) && c in w.sweeps && t in w.tokens
    ensures var sweep, after := w.sweeps[c], Next(w, FinishSweep(c, at)).tokens;
      && t in w.born && t in after
      && (if Covers(sweep.scope, w.tokens[t]) && w.born[t] < sweep.startedAt
          then after[t] == Revoke(w.tokens[t], at) && after[t].revokedAt.Some?
          else after[t] == w.tokens[t])
  {
    SweepAt(w, c);
    RowAt(w, t);
    hide Inv;
    FinishedNow(w, c, at);
  }

  /** A refresh that read before a sweep of its family and writes after it leaves the swept family a token that rotates. */
  lemma SweepMissesOpenRotation(w: World, t: Token, now: Time, c: CallId, d: CallId, m: Token, at: Time)
    requires Inv(w) && Find(w.tokens, t, now).Rotated? && c !in w.readings && d !in w.sweeps
    requires w.tokens[t].family in w.pending && m !in w.tokens
    ensures var f := w.tokens[t].family;
      var w3 := Next(Next(Next(w, Read(c, t, now)), StartSweep(d, f)), FinishSweep(d, at));
      var w4 := Next(w3, Write(c, m, at));
      && (forall s :: s in w.tokens && w.tokens[s].family == f ==> s in w3.tokens && w3.tokens[s].revokedAt.Some?)
      && Find(w4.tokens, m, at).Rotated? && w4.tokens[m].family == f
  {
    hide Inv;
    var f := w.tokens[t].family;
    var w1 := Next(w, Read(c, t, now));
    var w2 := Next(w1, StartSweep(d, f));
    assert w1 == w.(readings := w.readings[c := Reading(t, w.clock)], clock := w.clock + 1);
    assert d in w2.sweeps && w2.sweeps[d].rows == CoveredRows(w.tokens, OfFamily(f)) && w2.tokens == w.tokens && w2.readings == w1.readings;
    FinishedNow(w2, d, at);
    var w3 := Next(w2, FinishSweep(d, at));
    assert c in w3.readings && w3.readings[c].token == t && m !in w3.tokens.Keys;
    WroteRows(w3, Next(w3, Write(c, m, at)), c, m, at);
  }
}
