/** Series operations applied to a grouped table: `sort_values`, `head`,
    `idxmax` and the boolean filter `s[s < 0]`. */
module Ranking {
  import opened Order
  import opened Grouping

  /** The value `sort_values(ascending)` orders by: the total, negated for a
      descending sort. */
  function Rank(x: Group, ascending: bool): real
  {
    if ascending then x.total else -x.total
  }

  predicate SortedBy(s: seq<Group>, ascending: bool)
  {
    forall i, j :: 0 <= i < j < |s| ==> Rank(s[i], ascending) <= Rank(s[j], ascending)
  }

  function Insert(s: seq<Group>, x: Group, ascending: bool): seq<Group>
  {
    if |s| == 0 then [x]
    else if Rank(x, ascending) <= Rank(s[0], ascending) then [x] + s
    else [s[0]] + Insert(s[1..], x, ascending)
  }

  lemma {:induction false} InsertPermutes(s: seq<Group>, x: Group, ascending: bool)
    ensures multiset(Insert(s, x, ascending)) == multiset(s) + multiset{x}
  {
    if |s| > 0 {
      assert s == [s[0]] + s[1..];
      if Rank(x, ascending) > Rank(s[0], ascending) {
        InsertPermutes(s[1..], x, ascending);
      }
    }
  }

  lemma {:induction false} InsertKeepsOrder(s: seq<Group>, x: Group, ascending: bool)
    requires SortedBy(s, ascending)
    ensures SortedBy(Insert(s, x, ascending), ascending)
  {
    if |s| > 0 && Rank(x, ascending) > Rank(s[0], ascending) {
      var rest := Insert(s[1..], x, ascending);
      InsertKeepsOrder(s[1..], x, ascending);
      InsertPermutes(s[1..], x, ascending);
      HeadBelow(s, ascending);
      forall y | y in rest ensures Rank(s[0], ascending) <= Rank(y, ascending) {
        assert y in multiset(rest);
      }
      ConsSorted(s[0], rest, ascending);
    }
  }

  /** The first entry of a sorted sequence ranks at or below every later one. */
  lemma HeadBelow(s: seq<Group>, ascending: bool)
    requires SortedBy(s, ascending) && |s| > 0
    ensures SortedBy(s[1..], ascending)
    ensures forall y :: y in s[1..] ==> Rank(s[0], ascending) <= Rank(y, ascending)
  {
    forall y | y in s[1..] ensures Rank(s[0], ascending) <= Rank(y, ascending) {
      var m :| 0 <= m < |s[1..]| && s[1..][m] == y;
      assert s[m + 1] == y;
    }
  }

  /** An entry ranked at or below every entry of a sorted sequence can go first. */
  lemma ConsSorted(h: Group, rest: seq<Group>, ascending: bool)
    requires SortedBy(rest, ascending)
    requires forall y :: y in rest ==> Rank(h, ascending) <= Rank(y, ascending)
    ensures SortedBy([h] + rest, ascending)
  {
    var r := [h] + rest;
    forall i, j | 0 <= i < j < |r| ensures Rank(r[i], ascending) <= Rank(r[j], ascending) {
      assert r[j] == rest[j - 1];
      if i > 0 {
        assert r[i] == rest[i - 1];
      }
    }
  }

  /** `sort_values(ascending=...)` on a grouped series: a permutation of the
      entries, ordered by total.  pandas' default quicksort leaves the order
      of equal totals unspecified; this model keeps them in key order. */
  function SortValues(s: seq<Group>, ascending: bool): (r: seq<Group>)
    ensures SortedBy(r, ascending)
    ensures multiset(r) == multiset(s)
  {
    if |s| == 0 then []
    else
      assert s == [s[0]] + s[1..];
      InsertKeepsOrder(SortValues(s[1..], ascending), s[0], ascending);
      InsertPermutes(SortValues(s[1..], ascending), s[0], ascending);
      Insert(SortValues(s[1..], ascending), s[0], ascending)
  }

  /** `head(n)`: the first n entries, or for a negative n all but the last |n|. */
  function Head(s: seq<Group>, n: int): (r: seq<Group>)
    ensures n >= 0 ==> |r| == (if n < |s| then n else |s|)
    ensures n < 0 ==> |r| == (if |s| + n > 0 then |s| + n else 0)
    ensures r <= s
  {
    if n >= 0 then s[..if n < |s| then n else |s|]
    else s[..if |s| + n > 0 then |s| + n else 0]
  }

  /** `idxmax()`: the position of the first maximal value. */
  function FirstMax(vals: seq<real>): (i: nat)
    requires |vals| > 0
    ensures i < |vals|
    ensures forall j :: 0 <= j < |vals| ==> vals[j] <= vals[i]
    ensures forall j :: 0 <= j < i ==> vals[j] < vals[i]
  {
    if |vals| == 1 then 0
    else
      var i := FirstMax(vals[..|vals| - 1]);
      assert forall j :: 0 <= j < |vals| - 1 ==> vals[..|vals| - 1][j] == vals[j];
      if vals[|vals| - 1] > vals[i] then |vals| - 1 else i
  }

  /** `s[s < 0]`: the entries with a strictly negative total, in their order. */
  function Negatives(s: seq<Group>): seq<Group>
  {
    if |s| == 0 then []
    else if s[0].total < 0.0 then [s[0]] + Negatives(s[1..])
    else Negatives(s[1..])
  }

  /** The filter keeps exactly the negative entries, with their multiplicity. */
  lemma {:induction false} NegativesExactly(s: seq<Group>)
    ensures forall x :: multiset(Negatives(s))[x] == (if x.total < 0.0 then multiset(s)[x] else 0)
  {
    if |s| > 0 {
      assert s == [s[0]] + s[1..];
      NegativesExactly(s[1..]);
    }
  }

  /** The filter keeps the order of what it keeps. */
  lemma {:induction false} NegativesKeepOrder(s: seq<Group>, ascending: bool)
    requires SortedBy(s, ascending)
    ensures SortedBy(Negatives(s), ascending)
  {
    if |s| > 0 {
      var rest := Negatives(s[1..]);
      HeadBelow(s, ascending);
      NegativesKeepOrder(s[1..], ascending);
      if s[0].total < 0.0 {
        NegativesExactly(s[1..]);
        forall y | y in rest ensures Rank(s[0], ascending) <= Rank(y, ascending) {
          assert y in multiset(rest);
          assert y in multiset(s[1..]);
        }
        ConsSorted(s[0], rest, ascending);
      }
    }
  }

  // ---------------------------------------------------------------------
  // Properties of sort-then-truncate

  /** After sort-then-truncate, no entry left out outranks an entry kept. */
  lemma {:induction false} TopNKeepsTheLargest(s: seq<Group>, n: int, x: Group, y: Group)
    requires x in s && x !in Head(SortValues(s, false), n)
    requires y in Head(SortValues(s, false), n)
    ensures x.total <= y.total
  {
    var sorted := SortValues(s, false);
    var top := Head(sorted, n);
    assert x in multiset(sorted);
    var i :| 0 <= i < |sorted| && sorted[i] == x;
    var j :| 0 <= j < |top| && top[j] == y;
    assert sorted[j] == y;
    assert forall m :: 0 <= m < |top| ==> top[m] == sorted[m];
    assert j < i;
  }

  /** The ranked list is non-increasing in total. */
  lemma TopNDescending(s: seq<Group>, n: int)
    ensures forall i, j :: 0 <= i < j < |Head(SortValues(s, false), n)| ==>
              Head(SortValues(s, false), n)[i].total >= Head(SortValues(s, false), n)[j].total
  {
    var sorted := SortValues(s, false);
    var top := Head(sorted, n);
    forall i, j | 0 <= i < j < |top| ensures top[i].total >= top[j].total {
      assert top[i] == sorted[i] && top[j] == sorted[j];
      assert Rank(sorted[i], false) <= Rank(sorted[j], false);
    }
  }
  // ---------------------------------------------------------------------
  // Sorting keeps the entries apart

  /** No two entries share a group key. */
  predicate DistinctKeys(s: seq<Group>)
  {
    forall i, j :: 0 <= i < j < |s| ==> s[i].key != s[j].key
  }

  /** A grouped table, being ascending by key, has distinct keys. */
  lemma AscendingDistinct(g: seq<Group>)
    requires Ascending(g)
    ensures DistinctKeys(g)
  {
    forall i, j | 0 <= i < j < |g| ensures g[i].key != g[j].key {
      KeyLessAsymmetric(g[i].key, g[j].key);
    }
  }

  /** An entry whose key no entry of a key-distinct sequence has can go first. */
  lemma ConsDistinct(h: Group, rest: seq<Group>)
    requires DistinctKeys(rest)
    requires forall y :: y in rest ==> y.key != h.key
    ensures DistinctKeys([h] + rest)
  {
    var r := [h] + rest;
    forall i, j | 0 <= i < j < |r| ensures r[i].key != r[j].key {
      assert r[j] == rest[j - 1];
      if i > 0 {
        assert r[i] == rest[i - 1];
      }
    }
  }

  lemma {:induction false} InsertDistinct(s: seq<Group>, x: Group, ascending: bool)
    requires DistinctKeys(s)
    requires forall y :: y in s ==> y.key != x.key
    ensures DistinctKeys(Insert(s, x, ascending))
  {
    if |s| == 0 {
    } else if Rank(x, ascending) <= Rank(s[0], ascending) {
      ConsDistinct(x, s);
    } else {
      var rest := Insert(s[1..], x, ascending);
      InsertDistinct(s[1..], x, ascending);
      InsertPermutes(s[1..], x, ascending);
      forall y | y in rest ensures y.key != s[0].key {
        assert y in multiset(rest);
        if y != x {
          assert y in multiset(s[1..]);
          var m :| 0 <= m < |s[1..]| && s[1..][m] == y;
          assert s[m + 1] == y;
        }
      }
      ConsDistinct(s[0], rest);
    }
  }

  /** Sorting a key-distinct sequence keeps its keys distinct. */
  lemma {:induction false} SortKeepsDistinct(s: seq<Group>, ascending: bool)
    requires DistinctKeys(s)
    ensures DistinctKeys(SortValues(s, ascending))
  {
    if |s| > 0 {
      var rest := SortValues(s[1..], ascending);
      assert DistinctKeys(s[1..]) by {
        forall i, j | 0 <= i < j < |s[1..]| ensures s[1..][i].key != s[1..][j].key {
          assert s[1..][i] == s[i + 1] && s[1..][j] == s[j + 1];
        }
      }
      SortKeepsDistinct(s[1..], ascending);
      forall y | y in rest ensures y.key != s[0].key {
        assert y in multiset(s[1..]);
        var m :| 0 <= m < |s[1..]| && s[1..][m] == y;
        assert s[m + 1] == y;
      }
      InsertDistinct(rest, s[0], ascending);
    }
  }

  /** Sort-then-truncate of a key-distinct sequence keeps a sub-bag of its
      entries, no key twice. */
  lemma TopNDistinct(s: seq<Group>, n: int)
    requires DistinctKeys(s)
    ensures multiset(Head(SortValues(s, false), n)) <= multiset(s)
    ensures DistinctKeys(Head(SortValues(s, false), n))
  {
    var sorted := SortValues(s, false);
    var top := Head(sorted, n);
    SortKeepsDistinct(s, false);
    assert sorted == top + sorted[|top|..];
    assert multiset(sorted) == multiset(top) + multiset(sorted[|top|..]);
    forall i, j | 0 <= i < j < |top| ensures top[i].key != top[j].key {
      assert top[i] == sorted[i] && top[j] == sorted[j];
    }
  }
}
