/** `clean_data` of the churn script: coerce TotalCharges to numbers (text
    that is not a number becomes missing), drop every row with a missing
    value, and turn the Churn answers into 1 for "Yes" and 0 otherwise. */
module ChurnClean {
  import opened Common
  import opened NumberText
  import opened Frames

  const TotalCharges := "TotalCharges"
  const Churn := "Churn"

  /** One cell under `pd.to_numeric(errors='coerce')`. */
  function Coerce(v: Option<Value>): Option<Value>
  {
    match v
    case None => None
    case Some(Num(x)) => Some(Num(x))
    case Some(Text(t)) =>
      match ParseNumber(t)
      case None => None
      case Some(x) => Some(Num(x))
  }

  /** `pd.to_numeric(column, errors='coerce')`. */
  function ToNumeric(d: Data): (r: Data)
    ensures r.Numeric? && Length(r) == Length(d)
    ensures forall i :: 0 <= i < Length(d) ==> At(r, i) == Coerce(At(d, i))
  {
    match d
    case Numeric(_) => d
    case Textual(v) =>
      Numeric(seq(|v|, i requires 0 <= i < |v| =>
        if v[i].None? then None else ParseNumber(v[i].value)))
  }

  /** `lambda x: 1 if x == 'Yes' else 0`. */
  function ChurnFlag(v: Option<Value>): real
  {
    if v == Some(Text("Yes")) then 1.0 else 0.0
  }

  /** `df['Churn'].apply(...)`: a numeric column of flags. */
  function EncodeChurn(d: Data): (r: Data)
    ensures r.Numeric? && Length(r) == Length(d)
    ensures forall i :: 0 <= i < Length(d) ==> At(r, i) == Some(Num(ChurnFlag(At(d, i))))
  {
    Numeric(seq(Length(d), i requires 0 <= i < Length(d) => Some(ChurnFlag(At(d, i)))))
  }

  // ---------------------------------------------------------------------
  // The three steps

  function TotalChargesAt(f: Frame): nat
  {
    IndexOf(f.fields, TotalCharges)
  }

  /** The frame after line 40: TotalCharges replaced by its numeric coercion. */
  function Coerced(f: Frame): (r: Frame)
    requires WellFormed(f) && TotalChargesAt(f) < |f.fields|
    ensures WellFormed(r) && Names(r) == Names(f) && r.height == f.height
    ensures r.fields[TotalChargesAt(f)].data.Numeric?
    ensures forall k :: 0 <= k < |f.fields| && k != TotalChargesAt(f) ==> r.fields[k] == f.fields[k]
    ensures forall i :: 0 <= i < f.height ==>
              At(r.fields[TotalChargesAt(f)].data, i) == Coerce(At(f.fields[TotalChargesAt(f)].data, i))
  {
    var k := TotalChargesAt(f);
    ReplaceKeepsShape(f, k, ToNumeric(f.fields[k].data));
    Replace(f, k, ToNumeric(f.fields[k].data))
  }

  /** `clean_data(df)`; a missing TotalCharges or Churn column is the
      KeyError the function raises. */
  function CleanData(f: Frame): (r: Result<Frame>)
    requires WellFormed(f)
    ensures r.Err? <==> TotalCharges !in Names(f) || Churn !in Names(f)
    ensures TotalCharges !in Names(f) ==> r == Err(MissingColumn(TotalCharges))
    ensures TotalCharges in Names(f) && Churn !in Names(f) ==> r == Err(MissingColumn(Churn))
  {
    IndexOfFinds(f, TotalCharges);
    if TotalChargesAt(f) == |f.fields| then Err(MissingColumn(TotalCharges))
    else
      var g := DropNA(Coerced(f));
      IndexOfFinds(g, Churn);
      var ch := IndexOf(g.fields, Churn);
      if ch == |g.fields| then Err(MissingColumn(Churn))
      else Ok(Replace(g, ch, EncodeChurn(g.fields[ch].data)))
  }

  /** `clean_data(None)` is None. */
  function CleanDataOpt(df: Option<Frame>): (r: Option<Result<Frame>>)
    requires df.Some? ==> WellFormed(df.value)
    ensures r.None? <==> df.None?
    ensures df.Some? ==> r == Some(CleanData(df.value))
  {
    match df
    case None => None
    case Some(f) => Some(CleanData(f))
  }

  // ---------------------------------------------------------------------
  // What a successful clean guarantees

  /** The rows that survive: those where every cell is present once
      TotalCharges has been coerced. */
  predicate Survives(f: Frame, i: nat)
    requires WellFormed(f) && i < f.height
  {
    forall k :: 0 <= k < |f.fields| ==>
      (if k == TotalChargesAt(f) then Coerce(At(f.fields[k].data, i)) else At(f.fields[k].data, i)).Some?
  }

  /** Positions, in the input, of the rows a successful clean keeps. */
  function Kept(f: Frame): seq<nat>
    requires WellFormed(f) && TotalChargesAt(f) < |f.fields|
  {
    KeptRows(Coerced(f))
  }

  /** A row is kept exactly when it survives, and kept rows stay in order. */
  lemma KeptExactlySurvivors(f: Frame)
    requires WellFormed(f) && TotalChargesAt(f) < |f.fields|
    ensures forall i :: 0 <= i < f.height ==> (i in Kept(f) <==> Survives(f, i))
    ensures forall j :: 0 <= j < |Kept(f)| ==> Kept(f)[j] < f.height
    ensures forall j, l :: 0 <= j < l < |Kept(f)| ==> Kept(f)[j] < Kept(f)[l]
  {
    var c := Coerced(f);
    forall i | 0 <= i < f.height ensures i in Kept(f) <==> Survives(f, i) {
      DropNAKeepsExactlyComplete(c, i);
      assert Complete(c, i) <==> Survives(f, i) by {
        forall k | 0 <= k < |f.fields|
          ensures At(c.fields[k].data, i) ==
                  (if k == TotalChargesAt(f) then Coerce(At(f.fields[k].data, i)) else At(f.fields[k].data, i))
        {
        }
      }
    }
  }

  /** Shape of the cleaned frame: same columns in the same order, no more
      rows, no missing value, TotalCharges and Churn numeric. */
  lemma CleanDataShape(f: Frame)
    requires WellFormed(f) && CleanData(f).Ok?
    ensures var r := CleanData(f).value;
            && WellFormed(r) && Names(r) == Names(f)
            && r.height == |Kept(f)| <= f.height
            && r.fields[IndexOf(r.fields, TotalCharges)].data.Numeric?
            && r.fields[IndexOf(r.fields, Churn)].data.Numeric?
            && forall j :: 0 <= j < r.height ==> Complete(r, j)
  {
    var c := Coerced(f);
    var g := DropNA(c);
    var ch := IndexOf(g.fields, Churn);
    var r := CleanData(f).value;
    IndexOfFinds(g, Churn);
    DropNAComplete(c);
    ReplaceKeepsShape(g, ch, EncodeChurn(g.fields[ch].data));
    assert IndexOf(r.fields, TotalCharges) == TotalChargesAt(f) by {
      IndexOfSameNames(f, r, TotalCharges);
    }
    assert IndexOf(r.fields, Churn) == ch by {
      IndexOfSameNames(g, r, Churn);
    }
    forall j | 0 <= j < r.height ensures Complete(r, j) {
      assert Complete(g, j);
    }
  }

  /** The labels: 1 exactly for the rows whose answer was the text "Yes",
      0 for every other row. */
  lemma CleanDataLabels(f: Frame)
    requires WellFormed(f) && CleanData(f).Ok?
    ensures var r := CleanData(f).value;
            var ch := IndexOf(f.fields, Churn);
            ch < |f.fields| && |Kept(f)| == r.height &&
            forall j :: 0 <= j < r.height ==>
              && Length(r.fields[ch].data) == r.height
              && At(r.fields[ch].data, j) ==
                 Some(Num(if At(f.fields[ch].data, Kept(f)[j]) == Some(Text("Yes")) then 1.0 else 0.0))
  {
    var c := Coerced(f);
    var g := DropNA(c);
    var r := CleanData(f).value;
    var ch := IndexOf(g.fields, Churn);
    IndexOfFinds(g, Churn);
    IndexOfFinds(f, Churn);
    ReplaceKeepsShape(g, ch, EncodeChurn(g.fields[ch].data));
    assert ch == IndexOf(f.fields, Churn) by {
      IndexOfSameNames(f, g, Churn);
    }
    KeptExactlySurvivors(f);
    forall j | 0 <= j < r.height
      ensures At(r.fields[ch].data, j) ==
              Some(Num(if At(f.fields[ch].data, Kept(f)[j]) == Some(Text("Yes")) then 1.0 else 0.0))
    {
      var i := Kept(f)[j];
      assert At(g.fields[ch].data, j) == At(c.fields[ch].data, i);
      assert c.fields[ch] == f.fields[ch];
    }
  }

  /** Every column other than the two rewritten ones carries the input's
      values on the kept rows; TotalCharges carries their coercion. */
  lemma CleanDataValues(f: Frame)
    requires WellFormed(f) && CleanData(f).Ok?
    ensures var r := CleanData(f).value;
            var tc := TotalChargesAt(f);
            |r.fields| == |f.fields| && |Kept(f)| == r.height &&
            forall k, j :: 0 <= k < |f.fields| && 0 <= j < r.height && f.fields[k].name != Churn ==>
              && Kept(f)[j] < f.height
              && Length(r.fields[k].data) == r.height
              && At(r.fields[k].data, j) ==
                 (if k == tc then Coerce(At(f.fields[k].data, Kept(f)[j])) else At(f.fields[k].data, Kept(f)[j]))
  {
    var c := Coerced(f);
    var g := DropNA(c);
    var r := CleanData(f).value;
    var ch := IndexOf(g.fields, Churn);
    IndexOfFinds(g, Churn);
    ReplaceKeepsShape(g, ch, EncodeChurn(g.fields[ch].data));
    KeptExactlySurvivors(f);
    forall k, j | 0 <= k < |f.fields| && 0 <= j < r.height && f.fields[k].name != Churn
      ensures At(r.fields[k].data, j) ==
              (if k == TotalChargesAt(f) then Coerce(At(f.fields[k].data, Kept(f)[j])) else At(f.fields[k].data, Kept(f)[j]))
    {
      assert Names(g)[k] == f.fields[k].name;
      assert r.fields[k] == g.fields[k];
      assert At(g.fields[k].data, j) == At(c.fields[k].data, Kept(f)[j]);
    }
  }
}
