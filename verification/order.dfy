/** Group keys and the order pandas sorts them in.

    A `groupby` key is a tuple of column values; the columns grouped on are
    either integers (Year, Month) or text (Category, State, ...).  pandas
    sorts the groups ascending: integers numerically, strings by Python's
    `str` comparison (code point by code point, a proper prefix first) and
    tuples lexicographically. */
module Order {

  datatype Atom = Num(n: int) | Text(s: string)

  type Key = seq<Atom>

  /** Python's `a < b` on `str`. */
  predicate StrLess(a: string, b: string)
    decreases |a|
  {
    |b| > 0 && (|a| == 0 || a[0] < b[0] || (a[0] == b[0] && StrLess(a[1..], b[1..])))
  }

  /** Order of atoms; integers and text never share a key column, so placing
      every integer before every text only serves to make the order total. */
  predicate AtomLess(x: Atom, y: Atom)
  {
    match (x, y)
    case (Num(a), Num(b)) => a < b
    case (Num(_), Text(_)) => true
    case (Text(_), Num(_)) => false
    case (Text(a), Text(b)) => StrLess(a, b)
  }

  /** Python's tuple comparison `a < b`. */
  predicate KeyLess(a: Key, b: Key)
    decreases |a|
  {
    |b| > 0 && (|a| == 0 || AtomLess(a[0], b[0]) || (a[0] == b[0] && KeyLess(a[1..], b[1..])))
  }

  // ---------------------------------------------------------------------
  // StrLess is a strict total order

  lemma {:induction false} StrLessIrreflexive(a: string)
    ensures !StrLess(a, a)
    decreases |a|
  {
    if |a| > 0 {
      StrLessIrreflexive(a[1..]);
    }
  }

  lemma {:induction false} StrLessTransitive(a: string, b: string, c: string)
    requires StrLess(a, b) && StrLess(b, c)
    ensures StrLess(a, c)
    decreases |a|
  {
    if |a| > 0 && a[0] == b[0] && b[0] == c[0] {
      StrLessTransitive(a[1..], b[1..], c[1..]);
    }
  }

  lemma {:induction false} StrLessTotal(a: string, b: string)
    ensures a == b || StrLess(a, b) || StrLess(b, a)
    decreases |a|
  {
    if |a| > 0 && |b| > 0 && a[0] == b[0] {
      StrLessTotal(a[1..], b[1..]);
      if a[1..] == b[1..] {
        assert a == [a[0]] + a[1..] && b == [b[0]] + b[1..];
      }
    }
  }

  // ---------------------------------------------------------------------
  // AtomLess and KeyLess are strict total orders

  lemma AtomLessIrreflexive(x: Atom)
    ensures !AtomLess(x, x)
  {
    if x.Text? {
      StrLessIrreflexive(x.s);
    }
  }

  lemma AtomLessTransitive(x: Atom, y: Atom, z: Atom)
    requires AtomLess(x, y) && AtomLess(y, z)
    ensures AtomLess(x, z)
  {
    if x.Text? && y.Text? && z.Text? {
      StrLessTransitive(x.s, y.s, z.s);
    }
  }

  lemma AtomLessTotal(x: Atom, y: Atom)
    ensures x == y || AtomLess(x, y) || AtomLess(y, x)
  {
    if x.Text? && y.Text? {
      StrLessTotal(x.s, y.s);
    }
  }

  lemma {:induction false} KeyLessIrreflexive(a: Key)
    ensures !KeyLess(a, a)
    decreases |a|
  {
    if |a| > 0 {
      AtomLessIrreflexive(a[0]);
      KeyLessIrreflexive(a[1..]);
    }
  }

  lemma {:induction false} KeyLessTransitive(a: Key, b: Key, c: Key)
    requires KeyLess(a, b) && KeyLess(b, c)
    ensures KeyLess(a, c)
    decreases |a|
  {
    if |a| > 0 {
      if AtomLess(a[0], b[0]) && AtomLess(b[0], c[0]) {
        AtomLessTransitive(a[0], b[0], c[0]);
      } else if a[0] == b[0] && b[0] == c[0] {
        KeyLessTransitive(a[1..], b[1..], c[1..]);
      }
    }
  }

  lemma {:induction false} KeyLessTotal(a: Key, b: Key)
    ensures a == b || KeyLess(a, b) || KeyLess(b, a)
    decreases |a|
  {
    if |a| > 0 && |b| > 0 {
      AtomLessTotal(a[0], b[0]);
      if a[0] == b[0] {
        KeyLessTotal(a[1..], b[1..]);
        if a[1..] == b[1..] {
          assert a == [a[0]] + a[1..] && b == [b[0]] + b[1..];
        }
      }
    }
  }

  lemma KeyLessAsymmetric(a: Key, b: Key)
    requires KeyLess(a, b)
    ensures !KeyLess(b, a) && a != b
  {
    KeyLessIrreflexive(a);
    if KeyLess(b, a) {
      KeyLessTransitive(a, b, a);
    }
  }

  /** On one-column integer keys (the Month grouping) the order is `<`. */
  lemma KeyLessOnNumbers(m: int, n: int)
    ensures KeyLess([Num(m)], [Num(n)]) <==> m < n
  {
    assert [Num(m)][1..] == [];
  }

  // ---------------------------------------------------------------------
  // The sorted distinct values of a text column (`sorted(set(values))`)

  predicate Increasing(s: seq<string>)
  {
    forall i, j :: 0 <= i < j < |s| ==> StrLess(s[i], s[j])
  }

  function InsertSorted(s: seq<string>, x: string): (r: seq<string>)
    requires Increasing(s)
    ensures Increasing(r)
    ensures forall y :: y in r <==> y in s || y == x
  {
    if |s| == 0 then [x]
    else if x == s[0] then s
    else if StrLess(x, s[0]) then
      assert forall j :: 0 <= j < |s| ==> StrLess(x, s[j]) by {
        forall j | 0 < j < |s| ensures StrLess(x, s[j]) {
          StrLessTransitive(x, s[0], s[j]);
        }
      }
      [x] + s
    else
      StrLessTotal(x, s[0]);
      var rest := InsertSorted(s[1..], x);
      assert forall y :: y in rest ==> StrLess(s[0], y) by {
        forall y | y in rest ensures StrLess(s[0], y) {
          if y != x {
            var j :| 0 <= j < |s[1..]| && s[1..][j] == y;
            assert s[j + 1] == y;
          }
        }
      }
      [s[0]] + rest
  }

  /** The distinct values of `vals`, ascending; the levels `get_dummies` uses. */
  function Levels(vals: seq<string>): (r: seq<string>)
    ensures Increasing(r)
    ensures forall y :: y in r <==> y in vals
  {
    if |vals| == 0 then []
    else
      var prefix := vals[..|vals| - 1];
      assert vals == prefix + [vals[|vals| - 1]];
      InsertSorted(Levels(prefix), vals[|vals| - 1])
  }

  /** A strictly increasing sequence lists each of its values once. */
  lemma {:induction false} IncreasingCardinality(s: seq<string>)
    requires Increasing(s)
    ensures |set x | x in s| == |s|
  {
    if |s| > 0 {
      var tail := s[1..];
      IncreasingCardinality(tail);
      StrLessIrreflexive(s[0]);
      assert s[0] !in tail;
      assert (set x | x in s) == (set x | x in tail) + {s[0]};
    }
  }
}
