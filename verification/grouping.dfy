/** `df.groupby(by)[column]` followed by `sum()`, `count()` or `mean()`.

    The input is the (key, value) pair each row contributes; the output is
    one `Group` per distinct key, in ascending key order (pandas' default
    `sort=True`), carrying the sum and the number of the values with that key. */
module Grouping {
  import opened Order

  datatype Group = Group(key: Key, total: real, count: nat)

  /** Keys strictly ascending: sorted, and no key listed twice. */
  predicate Ascending(g: seq<Group>)
  {
    forall i, j :: 0 <= i < j < |g| ==> KeyLess(g[i].key, g[j].key)
  }

  function KeysOf(g: seq<Group>): set<Key>
  {
    set i | 0 <= i < |g| :: g[i].key
  }

  function InputKeys(ps: seq<(Key, real)>): set<Key>
  {
    set i | 0 <= i < |ps| :: ps[i].0
  }

  // ---------------------------------------------------------------------
  // Reference definitions, over the rows

  /** Sum of the values whose key is `k`. */
  function SumFor(ps: seq<(Key, real)>, k: Key): real
  {
    if |ps| == 0 then 0.0
    else SumFor(ps[..|ps| - 1], k) + (if ps[|ps| - 1].0 == k then ps[|ps| - 1].1 else 0.0)
  }

  /** Number of rows whose key is `k`. */
  function CountFor(ps: seq<(Key, real)>, k: Key): nat
  {
    if |ps| == 0 then 0
    else CountFor(ps[..|ps| - 1], k) + (if ps[|ps| - 1].0 == k then 1 else 0)
  }

  /** Sum of all values. */
  function SumAll(ps: seq<(Key, real)>): real
  {
    if |ps| == 0 then 0.0 else SumAll(ps[..|ps| - 1]) + ps[|ps| - 1].1
  }

  // ---------------------------------------------------------------------
  // Observations of a grouped table

  function TotalAt(g: seq<Group>, k: Key): real
  {
    if |g| == 0 then 0.0 else (if g[0].key == k then g[0].total else 0.0) + TotalAt(g[1..], k)
  }

  function CountAt(g: seq<Group>, k: Key): nat
  {
    if |g| == 0 then 0 else (if g[0].key == k then g[0].count else 0) + CountAt(g[1..], k)
  }

  function SumTotals(g: seq<Group>): real
  {
    if |g| == 0 then 0.0 else g[0].total + SumTotals(g[1..])
  }

  function SumCounts(g: seq<Group>): nat
  {
    if |g| == 0 then 0 else g[0].count + SumCounts(g[1..])
  }

  lemma {:induction false} AbsentKey(g: seq<Group>, k: Key)
    requires k !in KeysOf(g)
    ensures TotalAt(g, k) == 0.0 && CountAt(g, k) == 0
  {
    if |g| > 0 {
      assert KeysOf(g[1..]) <= KeysOf(g) by {
        forall x | x in KeysOf(g[1..]) ensures x in KeysOf(g) {
          var j :| 0 <= j < |g[1..]| && g[1..][j].key == x;
          assert g[j + 1].key == x;
        }
      }
      assert g[0].key in KeysOf(g);
      AbsentKey(g[1..], k);
    }
  }

  lemma KeysOfCons(g: seq<Group>)
    requires |g| > 0
    ensures KeysOf(g) == {g[0].key} + KeysOf(g[1..])
  {
    forall x | x in KeysOf(g) ensures x in {g[0].key} + KeysOf(g[1..]) {
      var j :| 0 <= j < |g| && g[j].key == x;
      if j > 0 {
        assert g[1..][j - 1].key == x;
      }
    }
    forall x | x in KeysOf(g[1..]) ensures x in KeysOf(g) {
      var j :| 0 <= j < |g[1..]| && g[1..][j].key == x;
      assert g[j + 1].key == x;
    }
  }

  /** In an ascending table, the observation at a listed key is that entry. */
  lemma {:induction false} LookupListed(g: seq<Group>, i: nat)
    requires Ascending(g) && i < |g|
    ensures TotalAt(g, g[i].key) == g[i].total
    ensures CountAt(g, g[i].key) == g[i].count
  {
    KeysOfCons(g);
    if i == 0 {
      assert g[0].key !in KeysOf(g[1..]) by {
        forall j | 0 <= j < |g[1..]| ensures g[1..][j].key != g[0].key {
          KeyLessAsymmetric(g[0].key, g[j + 1].key);
        }
      }
      AbsentKey(g[1..], g[0].key);
    } else {
      KeyLessAsymmetric(g[0].key, g[i].key);
      LookupListed(g[1..], i - 1);
    }
  }

  // ---------------------------------------------------------------------
  // The fold that builds the grouped table

  /** Prepending an entry whose key is below every listed key keeps a table ascending. */
  lemma ConsAscending(x: Group, g: seq<Group>)
    requires Ascending(g)
    requires forall y :: y in KeysOf(g) ==> KeyLess(x.key, y)
    ensures Ascending([x] + g)
  {
    forall i, j | 0 <= i < j < |[x] + g| ensures KeyLess(([x] + g)[i].key, ([x] + g)[j].key) {
      if i == 0 {
        assert ([x] + g)[j].key == g[j - 1].key;
      } else {
        assert ([x] + g)[i] == g[i - 1] && ([x] + g)[j] == g[j - 1];
      }
    }
  }

  /** The observations of `[x] + g` split into x's part and g's. */
  lemma ObserveCons(x: Group, g: seq<Group>)
    ensures forall y :: TotalAt([x] + g, y) == (if x.key == y then x.total else 0.0) + TotalAt(g, y)
    ensures forall y :: CountAt([x] + g, y) == (if x.key == y then x.count else 0) + CountAt(g, y)
    ensures SumTotals([x] + g) == x.total + SumTotals(g)
    ensures SumCounts([x] + g) == x.count + SumCounts(g)
    ensures KeysOf([x] + g) == {x.key} + KeysOf(g)
  {
    assert ([x] + g)[1..] == g;
    KeysOfCons([x] + g);
  }

  /** Adds one row's (k, v) to a grouped table: the entry for k is bumped,
      or a new entry is inserted before the first larger key. */
  function Accumulate(g: seq<Group>, k: Key, v: real): seq<Group>
  {
    if |g| == 0 then [Group(k, v, 1)]
    else if g[0].key == k then [Group(k, g[0].total + v, g[0].count + 1)] + g[1..]
    else if KeyLess(k, g[0].key) then [Group(k, v, 1)] + g
    else [g[0]] + Accumulate(g[1..], k, v)
  }

  lemma {:induction false} AccumulateKeys(g: seq<Group>, k: Key, v: real)
    ensures KeysOf(Accumulate(g, k, v)) == KeysOf(g) + {k}
  {
    if |g| == 0 {
      ObserveCons(Group(k, v, 1), []);
      assert [Group(k, v, 1)] + [] == [Group(k, v, 1)];
    } else {
      assert g == [g[0]] + g[1..];
      ObserveCons(g[0], g[1..]);
      if g[0].key == k {
        ObserveCons(Group(k, g[0].total + v, g[0].count + 1), g[1..]);
      } else if KeyLess(k, g[0].key) {
        ObserveCons(Group(k, v, 1), g);
      } else {
        AccumulateKeys(g[1..], k, v);
        ObserveCons(g[0], Accumulate(g[1..], k, v));
      }
    }
  }

  lemma {:induction false} AccumulateAscending(g: seq<Group>, k: Key, v: real)
    requires Ascending(g)
    ensures Ascending(Accumulate(g, k, v))
  {
    if |g| == 0 {
    } else if g[0].key == k {
      HeadKeyBelow(g);
      ConsAscending(Group(k, g[0].total + v, g[0].count + 1), g[1..]);
    } else if KeyLess(k, g[0].key) {
      forall y | y in KeysOf(g) ensures KeyLess(k, y) {
        var j :| 0 <= j < |g| && g[j].key == y;
        if j > 0 {
          KeyLessTransitive(k, g[0].key, g[j].key);
        }
      }
      ConsAscending(Group(k, v, 1), g);
    } else {
      KeyLessTotal(k, g[0].key);
      var rest := Accumulate(g[1..], k, v);
      HeadKeyBelow(g);
      AccumulateAscending(g[1..], k, v);
      AccumulateKeys(g[1..], k, v);
      ConsAscending(g[0], rest);
    }
  }

  /** The first key of an ascending table is below every later key. */
  lemma HeadKeyBelow(g: seq<Group>)
    requires Ascending(g) && |g| > 0
    ensures Ascending(g[1..])
    ensures forall y :: y in KeysOf(g[1..]) ==> KeyLess(g[0].key, y)
  {
    forall y | y in KeysOf(g[1..]) ensures KeyLess(g[0].key, y) {
      var j :| 0 <= j < |g[1..]| && g[1..][j].key == y;
      assert g[j + 1].key == y;
    }
  }

  lemma {:induction false} AccumulateObservations(g: seq<Group>, k: Key, v: real, x: Key)
    ensures TotalAt(Accumulate(g, k, v), x) == TotalAt(g, x) + (if x == k then v else 0.0)
    ensures CountAt(Accumulate(g, k, v), x) == CountAt(g, x) + (if x == k then 1 else 0)
  {
    if |g| == 0 {
      ObserveCons(Group(k, v, 1), []);
      assert [Group(k, v, 1)] + [] == [Group(k, v, 1)];
    } else {
      assert g == [g[0]] + g[1..];
      ObserveCons(g[0], g[1..]);
      if g[0].key == k {
        ObserveCons(Group(k, g[0].total + v, g[0].count + 1), g[1..]);
      } else if KeyLess(k, g[0].key) {
        ObserveCons(Group(k, v, 1), g);
      } else {
        AccumulateObservations(g[1..], k, v, x);
        ObserveCons(g[0], Accumulate(g[1..], k, v));
      }
    }
  }

  lemma {:induction false} AccumulateSums(g: seq<Group>, k: Key, v: real)
    ensures SumTotals(Accumulate(g, k, v)) == SumTotals(g) + v
    ensures SumCounts(Accumulate(g, k, v)) == SumCounts(g) + 1
    ensures (forall i :: 0 <= i < |g| ==> g[i].count >= 1) ==>
              forall i :: 0 <= i < |Accumulate(g, k, v)| ==> Accumulate(g, k, v)[i].count >= 1
  {
    if |g| == 0 {
      ObserveCons(Group(k, v, 1), []);
      assert [Group(k, v, 1)] + [] == [Group(k, v, 1)];
    } else {
      assert g == [g[0]] + g[1..];
      ObserveCons(g[0], g[1..]);
      if g[0].key == k {
        ObserveCons(Group(k, g[0].total + v, g[0].count + 1), g[1..]);
      } else if KeyLess(k, g[0].key) {
        ObserveCons(Group(k, v, 1), g);
      } else {
        AccumulateSums(g[1..], k, v);
        ObserveCons(g[0], Accumulate(g[1..], k, v));
      }
    }
  }

  /** `groupby(...)` over the rows' (key, value) pairs, with `sum()` and
      `count()` of every group. */
  function GroupBy(ps: seq<(Key, real)>): (r: seq<Group>)
    ensures Ascending(r)
    ensures KeysOf(r) == InputKeys(ps)
    ensures forall x :: TotalAt(r, x) == SumFor(ps, x)
    ensures forall x :: CountAt(r, x) == CountFor(ps, x)
    ensures SumTotals(r) == SumAll(ps)
    ensures SumCounts(r) == |ps|
    ensures forall i :: 0 <= i < |r| ==> r[i].count >= 1
  {
    if |ps| == 0 then []
    else
      var prefix := ps[..|ps| - 1];
      assert InputKeys(ps) == InputKeys(prefix) + {ps[|ps| - 1].0} by {
        forall x | x in InputKeys(ps) ensures x in InputKeys(prefix) + {ps[|ps| - 1].0} {
          var j :| 0 <= j < |ps| && ps[j].0 == x;
          if j < |ps| - 1 {
            assert prefix[j].0 == x;
          }
        }
      }
      var (k, v) := ps[|ps| - 1];
      var g := GroupBy(prefix);
      AccumulateKeys(g, k, v);
      AccumulateAscending(g, k, v);
      AccumulateSums(g, k, v);
      assert forall x :: TotalAt(Accumulate(g, k, v), x) == SumFor(ps, x) by {
        forall x ensures TotalAt(Accumulate(g, k, v), x) == SumFor(ps, x) {
          AccumulateObservations(g, k, v, x);
        }
      }
      assert forall x :: CountAt(Accumulate(g, k, v), x) == CountFor(ps, x) by {
        forall x ensures CountAt(Accumulate(g, k, v), x) == CountFor(ps, x) {
          AccumulateObservations(g, k, v, x);
        }
      }
      Accumulate(g, k, v)
  }

  /** Every entry of the grouped table is the sum and count of its rows. */
  lemma GroupEntries(ps: seq<(Key, real)>, i: nat)
    requires i < |GroupBy(ps)|
    ensures GroupBy(ps)[i].total == SumFor(ps, GroupBy(ps)[i].key)
    ensures GroupBy(ps)[i].count == CountFor(ps, GroupBy(ps)[i].key)
  {
    LookupListed(GroupBy(ps), i);
  }

  /** One group per distinct key: the table is as long as the number of keys. */
  lemma {:induction false} GroupCount(ps: seq<(Key, real)>)
    ensures |GroupBy(ps)| == |InputKeys(ps)|
  {
    AscendingCardinality(GroupBy(ps));
  }

  lemma {:induction false} AscendingCardinality(g: seq<Group>)
    requires Ascending(g)
    ensures |KeysOf(g)| == |g|
  {
    if |g| > 0 {
      KeysOfCons(g);
      AscendingCardinality(g[1..]);
      assert g[0].key !in KeysOf(g[1..]) by {
        forall j | 0 <= j < |g[1..]| ensures g[1..][j].key != g[0].key {
          KeyLessAsymmetric(g[0].key, g[j + 1].key);
        }
      }
    }
  }

  /** The mean of a group, as `groupby(...).mean()` reports it. */
  function Mean(x: Group): real
  {
    if x.count == 0 then 0.0 else x.total / x.count as real
  }
}
