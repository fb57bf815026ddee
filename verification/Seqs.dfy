/** Lists seen as sets, and sums of lists. */
module Seqs {
  function Elements<T>(s: seq<T>): set<T> {
    set x | x in s
  }

  predicate Distinct<T(==)>(s: seq<T>) {
    forall i, j :: 0 <= i < j < |s| ==> s[i] != s[j]
  }

  lemma SubsetSize<T>(a: set<T>, b: set<T>)
    requires a <= b
    ensures |a| <= |b|
    ensures |a| == |b| <==> a == b
  {
    assert b == a + (b - a);
  }

  /** A list repeats nothing exactly when it is as long as its set is large. */
  lemma {:induction false} DistinctSize<T>(s: seq<T>)
    ensures |Elements(s)| <= |s|
    ensures |Elements(s)| == |s| <==> Distinct(s)
    ensures Distinct(s) ==> forall x :: x in s ==> multiset(s)[x] == 1
    decreases |s|
  {
    if s != [] {
      var init, last := s[..|s| - 1], s[|s| - 1];
      DistinctSize(init);
      assert s == init + [last];
      assert Elements(s) == Elements(init) + {last};
      if last in init {
        assert Elements(s) == Elements(init);
        var i :| 0 <= i < |init| && init[i] == last;
        assert s[i] == s[|init|];
      } else {
        assert last !in Elements(init);
        assert multiset(s) == multiset(init) + multiset{last};
        assert Distinct(s) <==> Distinct(init);
      }
    }
  }

  /** There is always a number above all those in use. */
  lemma {:induction false} Unused(used: set<nat>)
    ensures exists m: nat :: m !in used && forall t :: t in used ==> t < m
    decreases |used|
  {
    if used == {} {
      assert 0 !in used;
    } else {
      var x :| x in used;
      Unused(used - {x});
      var m: nat :| m !in used - {x} && forall t :: t in used - {x} ==> t < m;
      var n := if x < m then m else x + 1;
      assert forall t :: t in used ==> t == x || t in used - {x};
      assert n !in used && forall t :: t in used ==> t < n;
    }
  }

  ghost function Sum(s: seq<int>): int {
    if s == [] then 0 else s[0] + Sum(s[1..])
  }

  lemma {:induction false} SumConcat(s: seq<int>, t: seq<int>)
    ensures Sum(s + t) == Sum(s) + Sum(t)
    decreases |s|
  {
    if s == [] {
      assert s + t == t;
    } else {
      assert (s + t)[1..] == s[1..] + t;
      SumConcat(s[1..], t);
    }
  }

  lemma {:induction false} SumOfSame(n: nat, price: int)
    ensures Sum(seq(n, _ => price)) == price * n
  {
    var s := seq(n, _ => price);
    if n > 0 {
      assert s[1..] == seq(n - 1, _ => price);
      SumOfSame(n - 1, price);
    }
  }
}
