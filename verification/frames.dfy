/** The column-oriented view of a pandas DataFrame used by the churn script:
    an ordered list of named columns of one common height.  A column is
    either numeric (a float or integer dtype) or of object dtype holding
    text; `None` is a missing value (NaN). */
module Frames {
  import opened Common

  datatype Value = Num(x: real) | Text(s: string)

  datatype Data = Numeric(nums: seq<Option<real>>) | Textual(texts: seq<Option<string>>)

  function Length(d: Data): nat
  {
    match d
    case Numeric(v) => |v|
    case Textual(v) => |v|
  }

  /** The cell in row i, whatever the column's dtype. */
  function At(d: Data, i: nat): Option<Value>
    requires i < Length(d)
  {
    match d
    case Numeric(v) => if v[i].Some? then Some(Num(v[i].value)) else None
    case Textual(v) => if v[i].Some? then Some(Text(v[i].value)) else None
  }

  datatype Field = Field(name: string, data: Data)

  datatype Frame = Frame(fields: seq<Field>, height: nat)

  /** Every column has the frame's height. */
  predicate WellFormed(f: Frame)
  {
    forall k :: 0 <= k < |f.fields| ==> Length(f.fields[k].data) == f.height
  }

  /** `df.columns`. */
  function Names(f: Frame): (r: seq<string>)
    ensures |r| == |f.fields|
    ensures forall k :: 0 <= k < |r| ==> r[k] == f.fields[k].name
  {
    seq(|f.fields|, k requires 0 <= k < |f.fields| => f.fields[k].name)
  }

  /** Position of the first column with the given name, or the number of
      columns when there is none (`df[name]` raises KeyError then). */
  function IndexOf(fields: seq<Field>, name: string): (k: nat)
    ensures k <= |fields|
    ensures k < |fields| ==> fields[k].name == name
    ensures forall j :: 0 <= j < k ==> fields[j].name != name
  {
    if |fields| == 0 || fields[0].name == name then 0 else 1 + IndexOf(fields[1..], name)
  }

  /** A name is found exactly when it is among the column names. */
  lemma IndexOfFinds(f: Frame, name: string)
    ensures IndexOf(f.fields, name) < |f.fields| <==> name in Names(f)
  {
    var k := IndexOf(f.fields, name);
    if name in Names(f) {
      var j :| 0 <= j < |Names(f)| && Names(f)[j] == name;
      assert f.fields[j].name == name;
    }
  }

  /** No column has the name exactly when lookup runs off the end. */
  lemma IndexOfAbsent(fields: seq<Field>, name: string)
    ensures IndexOf(fields, name) == |fields| <==> forall x :: x in fields ==> x.name != name
  {
    if IndexOf(fields, name) == |fields| {
      forall x | x in fields ensures x.name != name {
        var j :| 0 <= j < |fields| && fields[j] == x;
      }
    }
  }

  /** A name no column carries is not among the column names. */
  lemma NamesAbsent(f: Frame, name: string)
    requires forall x :: x in f.fields ==> x.name != name
    ensures name !in Names(f)
  {
    forall k | 0 <= k < |f.fields| ensures Names(f)[k] != name {
      assert f.fields[k] in f.fields;
    }
  }

  /** Lookup depends on the names alone. */
  lemma {:induction false} IndexOfSameNames(f: Frame, g: Frame, name: string)
    requires Names(f) == Names(g)
    ensures IndexOf(f.fields, name) == IndexOf(g.fields, name)
    decreases |f.fields|
  {
    if |f.fields| > 0 && f.fields[0].name != name {
      assert Names(Frame(f.fields[1..], 0)) == Names(Frame(g.fields[1..], 0)) by {
        assert forall k :: 0 <= k < |f.fields| - 1 ==> f.fields[1..][k].name == Names(f)[k + 1];
        assert forall k :: 0 <= k < |g.fields| - 1 ==> g.fields[1..][k].name == Names(g)[k + 1];
      }
      IndexOfSameNames(Frame(f.fields[1..], 0), Frame(g.fields[1..], 0), name);
    } else if |f.fields| > 0 {
      assert g.fields[0].name == Names(g)[0];
    }
  }

  /** `df[name] = d` for an existing column k. */
  function Replace(f: Frame, k: nat, d: Data): (r: Frame)
    requires k < |f.fields|
  {
    f.(fields := f.fields[k := Field(f.fields[k].name, d)])
  }

  lemma ReplaceKeepsShape(f: Frame, k: nat, d: Data)
    requires WellFormed(f) && k < |f.fields| && Length(d) == f.height
    ensures WellFormed(Replace(f, k, d))
    ensures Names(Replace(f, k, d)) == Names(f)
  {
  }

  // ---------------------------------------------------------------------
  // `dropna()`

  /** No column of row i is missing. */
  predicate Complete(f: Frame, i: nat)
    requires WellFormed(f) && i < f.height
  {
    forall k :: 0 <= k < |f.fields| ==> At(f.fields[k].data, i).Some?
  }

  /** The complete rows among the first n, in order. */
  function CompleteRows(f: Frame, n: nat): (idx: seq<nat>)
    requires WellFormed(f) && n <= f.height
    ensures forall j :: 0 <= j < |idx| ==> idx[j] < n && Complete(f, idx[j])
    ensures forall j, l :: 0 <= j < l < |idx| ==> idx[j] < idx[l]
    ensures forall i :: 0 <= i < n && Complete(f, i) ==> i in idx
  {
    if n == 0 then []
    else
      var prev := CompleteRows(f, n - 1);
      if Complete(f, n - 1) then prev + [n - 1] else prev
  }

  /** Rows `dropna()` keeps. */
  function KeptRows(f: Frame): seq<nat>
    requires WellFormed(f)
  {
    CompleteRows(f, f.height)
  }

  /** The rows of column d at the given positions. */
  function Select(d: Data, idx: seq<nat>): (r: Data)
    requires forall j :: 0 <= j < |idx| ==> idx[j] < Length(d)
    ensures Length(r) == |idx|
    ensures r.Numeric? <==> d.Numeric?
    ensures forall j :: 0 <= j < |idx| ==> At(r, j) == At(d, idx[j])
  {
    match d
    case Numeric(v) =>
      assert Length(d) == |v|;
      Numeric(seq(|idx|, j requires 0 <= j < |idx| && idx[j] < |v| => v[idx[j]]))
    case Textual(v) =>
      assert Length(d) == |v|;
      Textual(seq(|idx|, j requires 0 <= j < |idx| && idx[j] < |v| => v[idx[j]]))
  }

  /** `dropna()`: the rows with no missing value, in their order. */
  function DropNA(f: Frame): (r: Frame)
    requires WellFormed(f)
    ensures WellFormed(r) && Names(r) == Names(f)
    ensures r.height == |KeptRows(f)| <= f.height
    ensures forall k :: 0 <= k < |r.fields| ==> (r.fields[k].data.Numeric? <==> f.fields[k].data.Numeric?)
    ensures forall k, j :: 0 <= k < |r.fields| && 0 <= j < r.height ==>
              At(r.fields[k].data, j) == At(f.fields[k].data, KeptRows(f)[j])
  {
    var idx := KeptRows(f);
    KeptRowsBound(f);
    var fields := seq(|f.fields|, k requires 0 <= k < |f.fields| =>
                        Field(f.fields[k].name, Select(f.fields[k].data, idx)));
    Frame(fields, |idx|)
  }

  lemma KeptRowsBound(f: Frame)
    requires WellFormed(f)
    ensures |KeptRows(f)| <= f.height
  {
    var idx := KeptRows(f);
    StrictlyIncreasingBound(idx, f.height);
  }

  /** A strictly increasing sequence of naturals below n has at most n entries. */
  lemma {:induction false} StrictlyIncreasingBound(idx: seq<nat>, n: nat)
    requires forall j :: 0 <= j < |idx| ==> idx[j] < n
    requires forall j, l :: 0 <= j < l < |idx| ==> idx[j] < idx[l]
    ensures |idx| <= n
  {
    if |idx| > 0 {
      var prefix := idx[..|idx| - 1];
      assert forall j :: 0 <= j < |prefix| ==> prefix[j] < idx[|idx| - 1];
      StrictlyIncreasingBound(prefix, idx[|idx| - 1]);
    }
  }

  /** Every row left by `dropna()` is complete. */
  lemma DropNAComplete(f: Frame)
    requires WellFormed(f)
    ensures forall j :: 0 <= j < DropNA(f).height ==> Complete(DropNA(f), j)
  {
    var r := DropNA(f);
    var idx := KeptRows(f);
    forall j | 0 <= j < r.height ensures Complete(r, j) {
      assert Complete(f, idx[j]);
      forall k | 0 <= k < |r.fields| ensures At(r.fields[k].data, j).Some? {
        assert At(r.fields[k].data, j) == At(f.fields[k].data, idx[j]);
      }
    }
  }

  /** A row survives `dropna()` exactly when it is complete. */
  lemma DropNAKeepsExactlyComplete(f: Frame, i: nat)
    requires WellFormed(f) && i < f.height
    ensures i in KeptRows(f) <==> Complete(f, i)
  {
  }

  /** When no value is missing, `dropna()` keeps every row. */
  lemma {:induction false} CompleteRowsAll(f: Frame, n: nat)
    requires WellFormed(f) && n <= f.height
    requires forall i :: 0 <= i < f.height ==> Complete(f, i)
    ensures CompleteRows(f, n) == seq(n, i => i)
  {
    if n > 0 {
      CompleteRowsAll(f, n - 1);
      CompleteRowsStep(f, n);
      CountUp(n);
    }
  }

  lemma CompleteRowsStep(f: Frame, n: nat)
    requires WellFormed(f) && 0 < n <= f.height && Complete(f, n - 1)
    ensures CompleteRows(f, n) == CompleteRows(f, n - 1) + [n - 1]
  {
  }

  lemma CountUp(n: nat)
    requires n > 0
    ensures seq(n, i => i) == seq(n - 1, i => i) + [n - 1]
  {
  }

  /** `dropna()` applied twice removes nothing more. */
  lemma DropNAIdempotent(f: Frame)
    requires WellFormed(f)
    ensures DropNA(DropNA(f)) == DropNA(f)
  {
    var r := DropNA(f);
    DropNAComplete(f);
    CompleteRowsAll(r, r.height);
    var rr := DropNA(r);
    assert |rr.fields| == |r.fields|;
    forall k | 0 <= k < |r.fields| ensures rr.fields[k] == r.fields[k] {
      SelectAll(r.fields[k].data, KeptRows(r));
    }
  }

  lemma SelectAll(d: Data, idx: seq<nat>)
    requires idx == seq(Length(d), i => i)
    ensures Select(d, idx) == d
  {
  }
}
