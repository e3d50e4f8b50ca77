/** The data preparation of `train_churn_model`: one-hot encoding with
    `pd.get_dummies(df, drop_first=True)`, removal of the customer
    identifier, the split into the feature frame X and the answer column y,
    and the accuracy of a prediction. */
module ChurnFeatures {
  import opened Common
  import Order
  import opened Frames

  const CustomerId := "customerID"
  const Churn := "Churn"

  // ---------------------------------------------------------------------
  // `get_dummies(drop_first=True)`

  /** The values of a text column that are not missing, in row order. */
  function Present(v: seq<Option<string>>): (r: seq<string>)
    ensures forall x :: x in r <==> Some(x) in v
  {
    if |v| == 0 then []
    else
      var rest := Present(v[1..]);
      assert forall x :: Some(x) in v <==> v[0] == Some(x) || Some(x) in v[1..] by {
        assert v == [v[0]] + v[1..];
      }
      if v[0].Some? then [v[0].value] + rest else rest
  }

  /** The indicator column of one level: 1 where the cell holds it. */
  function Indicator(v: seq<Option<string>>, level: string): (d: Data)
  {
    Numeric(seq(|v|, i requires 0 <= i < |v| => Some(if v[i] == Some(level) then 1.0 else 0.0)))
  }

  /** The dummy columns of one text column: one per level except the first,
      named "<column>_<level>", levels in sorted order. */
  function Dummies(name: string, v: seq<Option<string>>): (r: seq<Field>)
  {
    var levels := Order.Levels(Present(v));
    if |levels| <= 1 then []
    else seq(|levels| - 1, k requires 0 <= k < |levels| - 1 =>
               Field(name + "_" + levels[k + 1], Indicator(v, levels[k + 1])))
  }

  /** The columns get_dummies leaves alone: the numeric ones, in order. */
  function Passed(fields: seq<Field>): (r: seq<Field>)
    ensures forall x :: x in r <==> x in fields && x.data.Numeric?
  {
    if |fields| == 0 then []
    else
      assert fields == [fields[0]] + fields[1..];
      (if fields[0].data.Numeric? then [fields[0]] else []) + Passed(fields[1..])
  }

  /** The dummy columns of every text column, one block per column, in order. */
  function Encoded(fields: seq<Field>): seq<Field>
  {
    if |fields| == 0 then []
    else
      match fields[0].data
      case Numeric(_) => Encoded(fields[1..])
      case Textual(v) => Dummies(fields[0].name, v) + Encoded(fields[1..])
  }

  /** `pd.get_dummies(df, drop_first=True)`: the numeric columns first, then
      the dummy columns.  Every numeric column is carried over, every other
      column of the result is a dummy of some text column, and the names
      "customerID" and "Churn" can only come from carried-over columns. */
  function GetDummies(f: Frame): (r: Frame)
    ensures r.height == f.height
    ensures forall x :: x in r.fields ==> x.data.Numeric?
    ensures forall x :: x in f.fields && x.data.Numeric? ==> x in r.fields
    ensures forall x :: x in r.fields && x !in f.fields ==>
              exists k :: 0 <= k < |f.fields| && f.fields[k].data.Textual? &&
                          x in Dummies(f.fields[k].name, f.fields[k].data.texts)
    ensures forall k, x ::
              0 <= k < |f.fields| && f.fields[k].data.Textual? && x in Dummies(f.fields[k].name, f.fields[k].data.texts) ==>
                x in r.fields
    ensures forall x :: x in r.fields && (x.name == CustomerId || x.name == Churn) ==> x in f.fields
  {
    EncodedHasAllBlocks(f.fields);
    EncodedNames(f.fields);
    EncodedNamesNoChurn(f.fields);
    EncodedFrom(f.fields);
    Frame(Passed(f.fields) + Encoded(f.fields), f.height)
  }

  /** Every encoded column is a dummy of some text column. */
  lemma {:induction false} EncodedFrom(fields: seq<Field>)
    ensures forall x :: x in Encoded(fields) ==>
              exists k :: 0 <= k < |fields| && fields[k].data.Textual? &&
                          x in Dummies(fields[k].name, fields[k].data.texts)
  {
    if |fields| > 0 {
      EncodedFrom(fields[1..]);
      forall x | x in Encoded(fields)
        ensures exists k :: 0 <= k < |fields| && fields[k].data.Textual? &&
                            x in Dummies(fields[k].name, fields[k].data.texts)
      {
        var head := match fields[0].data
                    case Numeric(_) => []
                    case Textual(v) => Dummies(fields[0].name, v);
        assert Encoded(fields) == head + Encoded(fields[1..]);
        if x !in head {
          var k :| 0 <= k < |fields[1..]| && fields[1..][k].data.Textual? &&
                   x in Dummies(fields[1..][k].name, fields[1..][k].data.texts);
          assert fields[k + 1] == fields[1..][k];
        }
      }
    }
  }

  // Properties of the encoding

  /** An indicator column holds 1 exactly where the cell equals its level,
      and 0 elsewhere. */
  lemma IndicatorMeaning(v: seq<Option<string>>, level: string)
    ensures Length(Indicator(v, level)) == |v|
    ensures forall i :: 0 <= i < |v| ==>
              At(Indicator(v, level), i) == Some(Num(if v[i] == Some(level) then 1.0 else 0.0))
  {
  }

  /** The block of one column, entry by entry. */
  lemma DummiesAt(name: string, v: seq<Option<string>>)
    ensures var levels := Order.Levels(Present(v));
            && |Dummies(name, v)| == (if |levels| <= 1 then 0 else |levels| - 1)
            && forall k :: 0 <= k < |Dummies(name, v)| ==>
                 Dummies(name, v)[k] == Field(name + "_" + levels[k + 1], Indicator(v, levels[k + 1]))
  {
  }

  /** Within one column's block, a row has a 1 in at most one dummy. */
  lemma DummiesExclusive(name: string, v: seq<Option<string>>, i: nat, k: nat, l: nat)
    requires i < |v|
    requires k < l < |Dummies(name, v)|
    ensures Length(Dummies(name, v)[k].data) == |v| && Length(Dummies(name, v)[l].data) == |v|
    ensures !(At(Dummies(name, v)[k].data, i) == Some(Num(1.0)) && At(Dummies(name, v)[l].data, i) == Some(Num(1.0)))
  {
    var levels := Order.Levels(Present(v));
    DummiesAt(name, v);
    var a := levels[k + 1];
    var b := levels[l + 1];
    IndicatorMeaning(v, a);
    IndicatorMeaning(v, b);
    assert Order.StrLess(a, b);
    Order.StrLessIrreflexive(a);
    assert a != b;
  }

  /** The dummy x has a 1 in row i. */
  predicate Hot(x: Field, i: nat)
  {
    x.data.Numeric? && i < |x.data.nums| && x.data.nums[i] == Some(1.0)
  }

  /** Which dummy of a block has a 1 in row i, or the block's width if none:
      the first hot one. */
  function HotAt(block: seq<Field>, i: nat): (k: nat)
    ensures k <= |block|
    ensures k < |block| ==> Hot(block[k], i)
    ensures forall j :: 0 <= j < k ==> !Hot(block[j], i)
  {
    if |block| == 0 then 0
    else if Hot(block[0], i) then 0
    else
      var k := HotAt(block[1..], i);
      assert forall j :: 0 < j <= k ==> block[j] == block[1..][j - 1];
      1 + k
  }

  /** Reading a value back from its dummies: the level of the dummy that is
      set, or the dropped first level when none is. */
  function Decode(levels: seq<string>, block: seq<Field>, i: nat): string
    requires |levels| == |block| + 1
  {
    var k := HotAt(block, i);
    if k < |block| then levels[k + 1] else levels[0]
  }

  /** Dropping the first level loses nothing: every present cell is recovered
      from its dummies. */
  lemma DummiesDecode(name: string, v: seq<Option<string>>, i: nat)
    requires i < |v| && v[i].Some?
    ensures |Order.Levels(Present(v))| == |Dummies(name, v)| + 1
    ensures Decode(Order.Levels(Present(v)), Dummies(name, v), i) == v[i].value
  {
    var levels := Order.Levels(Present(v));
    var block := Dummies(name, v);
    DummiesAt(name, v);
    assert v[i].value in levels;
    var m :| 0 <= m < |levels| && levels[m] == v[i].value;
    OnlyMatchingLevel(levels, v[i].value, m);
    forall k | 0 <= k < |block|
      ensures block[k].data.Numeric? && i < |block[k].data.nums|
      ensures block[k].data.nums[i] == Some(if k + 1 == m then 1.0 else 0.0)
    {
      assert block[k].data == Indicator(v, levels[k + 1]);
    }
    HotAtFinds(block, i, m - 1);
  }

  /** In an increasing list of levels, only position m holds levels[m]. */
  lemma OnlyMatchingLevel(levels: seq<string>, x: string, m: nat)
    requires Order.Increasing(levels) && m < |levels| && levels[m] == x
    ensures forall k :: 0 <= k < |levels| ==> (levels[k] == x <==> k == m)
  {
    Order.StrLessIrreflexive(x);
    forall k | 0 <= k < |levels| && k != m ensures levels[k] != x {
      if k < m {
        assert Order.StrLess(levels[k], levels[m]);
      } else {
        assert Order.StrLess(levels[m], levels[k]);
      }
    }
  }

  /** The first set dummy is found. */
  lemma {:induction false} HotAtFinds(block: seq<Field>, i: nat, m: int)
    requires forall k :: 0 <= k < |block| && k != m ==>
               block[k].data.Numeric? && i < |block[k].data.nums| && block[k].data.nums[i] == Some(0.0)
    requires 0 <= m < |block| ==>
               block[m].data.Numeric? && i < |block[m].data.nums| && block[m].data.nums[i] == Some(1.0)
    ensures HotAt(block, i) == if 0 <= m < |block| then m else |block|
  {
    if |block| > 0 {
      HotAtFinds(block[1..], i, m - 1);
    }
  }

  /** No dummy column is called "customerID": dummy names contain '_'. */
  lemma DummyNameHasSeparator(name: string, level: string)
    ensures name + "_" + level != CustomerId
  {
    var s := name + "_" + level;
    assert s[|name|] == '_';
    if |s| == |CustomerId| {
      assert forall j :: 0 <= j < |CustomerId| ==> CustomerId[j] != '_';
    }
  }

  lemma {:induction false} EncodedNames(fields: seq<Field>)
    ensures forall x :: x in Encoded(fields) ==> x.name != CustomerId && x.data.Numeric?
  {
    if |fields| > 0 {
      EncodedNames(fields[1..]);
      match fields[0].data
      case Numeric(_) =>
      case Textual(v) =>
        var block := Dummies(fields[0].name, v);
        var levels := Order.Levels(Present(v));
        DummiesAt(fields[0].name, v);
        forall x | x in block ensures x.name != CustomerId && x.data.Numeric? {
          var k :| 0 <= k < |block| && block[k] == x;
          DummyNameHasSeparator(fields[0].name, levels[k + 1]);
        }
        assert Encoded(fields) == block + Encoded(fields[1..]);
    }
  }

  /** "customerID" survives encoding exactly when it was a numeric column:
      a text identifier is spread over dummies named "customerID_<id>". */
  lemma CustomerIdSurvivesIffNumeric(f: Frame)
    ensures CustomerId in Names(GetDummies(f)) <==>
            exists x :: x in f.fields && x.name == CustomerId && x.data.Numeric?
  {
    var e := GetDummies(f);
    EncodedNames(f.fields);
    if CustomerId in Names(e) {
      var k :| 0 <= k < |e.fields| && Names(e)[k] == CustomerId;
      assert e.fields[k] in Passed(f.fields) + Encoded(f.fields);
    }
    forall x | x in f.fields && x.name == CustomerId && x.data.Numeric? ensures CustomerId in Names(e) {
      assert x in Passed(f.fields);
      var k :| 0 <= k < |Passed(f.fields)| && Passed(f.fields)[k] == x;
      assert e.fields[k] == x;
      assert Names(e)[k] == CustomerId;
    }
  }

  /** The encoding of a well-formed table is well formed: every dummy has
      the height of the column it encodes. */
  lemma GetDummiesShape(f: Frame)
    requires WellFormed(f)
    ensures WellFormed(GetDummies(f))
  {
    EncodedHeights(f.fields, f.height);
  }

  lemma {:induction false} EncodedHeights(fields: seq<Field>, h: nat)
    requires forall k :: 0 <= k < |fields| ==> Length(fields[k].data) == h
    ensures forall x :: x in Encoded(fields) ==> Length(x.data) == h
  {
    if |fields| > 0 {
      EncodedHeights(fields[1..], h);
      match fields[0].data
      case Numeric(_) =>
      case Textual(v) =>
        assert |v| == h by {
          assert Length(fields[0].data) == h;
        }
        var block := Dummies(fields[0].name, v);
        DummiesAt(fields[0].name, v);
        forall x | x in block ensures Length(x.data) == h {
          var k :| 0 <= k < |block| && block[k] == x;
        }
        assert Encoded(fields) == block + Encoded(fields[1..]);
    }
  }

  /** The distinct values present in a text column. */
  function Distinct(v: seq<Option<string>>): set<string>
  {
    set i | 0 <= i < |v| && v[i].Some? :: v[i].value
  }

  /** A text column with d distinct values yields d - 1 dummy columns. */
  lemma DummiesCount(name: string, v: seq<Option<string>>)
    ensures |Dummies(name, v)| == if |Distinct(v)| == 0 then 0 else |Distinct(v)| - 1
  {
    var levels := Order.Levels(Present(v));
    Order.IncreasingCardinality(levels);
    assert (set x | x in levels) == Distinct(v) by {
      forall x ensures x in levels <==> x in Distinct(v) {
        if Some(x) in v {
          var i :| 0 <= i < |v| && v[i] == Some(x);
          assert v[i].value == x;
        }
      }
    }
    DummiesAt(name, v);
  }

  /** The width get_dummies promises: one column per numeric column, and
      one per distinct value but the first for each text column. */
  function Width(fields: seq<Field>): nat
  {
    if |fields| == 0 then 0
    else
      (match fields[0].data
       case Numeric(_) => 1
       case Textual(v) => if |Distinct(v)| == 0 then 0 else |Distinct(v)| - 1)
      + Width(fields[1..])
  }

  lemma GetDummiesWidth(f: Frame)
    ensures |GetDummies(f).fields| == Width(f.fields)
  {
    PassedEncodedWidth(f.fields);
  }

  lemma {:induction false} PassedEncodedWidth(fields: seq<Field>)
    ensures |Passed(fields)| + |Encoded(fields)| == Width(fields)
  {
    if |fields| > 0 {
      PassedEncodedWidth(fields[1..]);
      match fields[0].data
      case Numeric(_) =>
      case Textual(v) =>
        DummiesCount(fields[0].name, v);
        assert Encoded(fields) == Dummies(fields[0].name, v) + Encoded(fields[1..]);
    }
  }

  // ---------------------------------------------------------------------
  // Dropping columns and splitting X / y

  /** `df.drop(name, axis=1)`: every column with that name removed. */
  function DropColumn(fields: seq<Field>, name: string): (r: seq<Field>)
    ensures forall x :: x in r <==> x in fields && x.name != name
  {
    if |fields| == 0 then []
    else
      assert fields == [fields[0]] + fields[1..];
      (if fields[0].name == name then [] else [fields[0]]) + DropColumn(fields[1..], name)
  }

  datatype Features = Features(x: Frame, y: Data)

  /** f has a numeric column of that name. */
  predicate HasNumeric(f: Frame, name: string)
  {
    exists x :: x in f.fields && x.name == name && x.data.Numeric?
  }

  /** Lines 86-91 as written: encode, drop "customerID" if that column name
      is present afterwards, then split off "Churn".  The split fails exactly
      when the table has no numeric Churn column: a text Churn would have
      been encoded into "Churn_<level>" dummies. */
  function PrepareFeatures(f: Frame): (r: Result<Features>)
    ensures r.Err? <==> !HasNumeric(f, Churn)
    ensures r.Err? ==> r.error == MissingColumn(Churn)
    ensures r.Ok? ==> r.value.x.height == f.height && r.value.y.Numeric?
  {
    var e := GetDummies(f);
    var fields := if CustomerId in Names(e) then DropColumn(e.fields, CustomerId) else e.fields;
    var ch := IndexOf(fields, Churn);
    IndexOfAbsent(fields, Churn);
    assert Churn != CustomerId;
    if ch == |fields| then Err(MissingColumn(Churn))
    else Ok(Features(Frame(DropColumn(fields, Churn), f.height), fields[ch].data))
  }

  /** `train_churn_model(None)` is None. */
  function PrepareFeaturesOpt(df: Option<Frame>): (r: Option<Result<Features>>)
    ensures r.None? <==> df.None?
    ensures df.Some? ==> r == Some(PrepareFeatures(df.value))
  {
    match df
    case None => None
    case Some(f) => Some(PrepareFeatures(f))
  }

  /** What the split promises when it succeeds: X is the encoded table
      less every "Churn" and "customerID" column (the guarded drop removes
      all of the latter, since when the name is absent there is nothing to
      remove), and y is a numeric Churn column of the input, passed through
      unchanged (the one such column, when there is only one). */
  lemma PrepareFeaturesSplit(f: Frame)
    requires PrepareFeatures(f).Ok?
    ensures var r := PrepareFeatures(f).value;
            && (forall z :: z in r.x.fields <==>
                  z in GetDummies(f).fields && z.name != Churn && z.name != CustomerId)
            && Churn !in Names(r.x)
            && CustomerId !in Names(r.x)
            && (exists x :: x in f.fields && x.name == Churn && x.data.Numeric? && r.y == x.data)
            && forall x :: x in f.fields && x.name == Churn && x.data.Numeric? && OnlyColumnNamed(f, x) ==>
                 r.y == x.data
  {
    var e := GetDummies(f);
    var fields := if CustomerId in Names(e) then DropColumn(e.fields, CustomerId) else e.fields;
    var ch := IndexOf(fields, Churn);
    var r := PrepareFeatures(f).value;
    assert forall z :: z in fields <==> z in e.fields && z.name != CustomerId by {
      if CustomerId !in Names(e) {
        forall z | z in e.fields ensures z.name != CustomerId {
          var m :| 0 <= m < |e.fields| && e.fields[m] == z;
          assert Names(e)[m] == z.name;
        }
      }
    }
    assert fields[ch] in e.fields;
    NamesAbsent(r.x, Churn);
    NamesAbsent(r.x, CustomerId);
  }

  /** On a well-formed table, X and y have the table's height. */
  lemma PrepareFeaturesShape(f: Frame)
    requires WellFormed(f) && PrepareFeatures(f).Ok?
    ensures var r := PrepareFeatures(f).value;
            WellFormed(r.x) && Length(r.y) == r.x.height == f.height
  {
    var e := GetDummies(f);
    var r := PrepareFeatures(f).value;
    GetDummiesShape(f);
    PrepareFeaturesSplit(f);
    forall k | 0 <= k < |r.x.fields| ensures Length(r.x.fields[k].data) == f.height {
      assert r.x.fields[k] in e.fields;
      var m :| 0 <= m < |e.fields| && e.fields[m] == r.x.fields[k];
    }
    var fields := if CustomerId in Names(e) then DropColumn(e.fields, CustomerId) else e.fields;
    var ch := IndexOf(fields, Churn);
    assert fields[ch] in e.fields;
    var m :| 0 <= m < |e.fields| && e.fields[m] == fields[ch];
  }

  /** x is the one column of f carrying its name. */
  predicate OnlyColumnNamed(f: Frame, x: Field)
  {
    forall z :: z in f.fields && z.name == x.name ==> z == x
  }

  /** A dummy is never called "Churn": its name has a '_' at the seam. */
  lemma {:induction false} EncodedNamesNoChurn(fields: seq<Field>)
    ensures forall z :: z in Encoded(fields) ==> z.name != Churn
  {
    if |fields| > 0 {
      EncodedNamesNoChurn(fields[1..]);
      match fields[0].data
      case Numeric(_) =>
      case Textual(v) =>
        var block := Dummies(fields[0].name, v);
        var levels := Order.Levels(Present(v));
        forall k | 0 <= k < |block| ensures block[k].name != Churn {
          var s := fields[0].name + "_" + levels[k + 1];
          assert s[|fields[0].name|] == '_';
          if |s| == |Churn| {
            assert forall j :: 0 <= j < |Churn| ==> Churn[j] != '_';
          }
        }
    }
  }

  // ---------------------------------------------------------------------
  // The identifier leak, and the intended preparation

  /** As written, a text identifier column with two or more distinct ids
      reaches the features as dummies "customerID_<id>". */
  lemma IdentifierLeaks(f: Frame, k: nat)
    requires k < |f.fields| && f.fields[k].name == CustomerId && f.fields[k].data.Textual?
    requires |Order.Levels(Present(f.fields[k].data.texts))| >= 2
    requires PrepareFeatures(f).Ok?
    ensures CustomerId + "_" + Order.Levels(Present(f.fields[k].data.texts))[1] in Names(PrepareFeatures(f).value.x)
  {
    var v := f.fields[k].data.texts;
    var levels := Order.Levels(Present(v));
    var d := Field(CustomerId + "_" + levels[1], Indicator(v, levels[1]));
    DummiesAt(CustomerId, v);
    assert d == Dummies(CustomerId, v)[0];
    EncodedHasBlock(f.fields, k);
    assert d in GetDummies(f).fields;
    DummyNameHasSeparator(CustomerId, levels[1]);
    assert d.name != Churn by {
      assert d.name[0] == 'c' && Churn[0] == 'C';
    }
    var e := GetDummies(f);
    var fields := if CustomerId in Names(e) then DropColumn(e.fields, CustomerId) else e.fields;
    assert d in fields;
    var x := PrepareFeatures(f).value.x;
    assert d in x.fields;
    var j :| 0 <= j < |x.fields| && x.fields[j] == d;
    assert Names(x)[j] == d.name;
  }

  /** The blocks of all text columns are part of the encoding. */
  lemma EncodedHasAllBlocks(fields: seq<Field>)
    ensures forall k, x ::
              0 <= k < |fields| && fields[k].data.Textual? && x in Dummies(fields[k].name, fields[k].data.texts) ==>
                x in Encoded(fields)
  {
    forall k | 0 <= k < |fields| && fields[k].data.Textual? {
      EncodedHasBlock(fields, k);
    }
  }

  /** Every text column's block is part of the encoding. */
  lemma {:induction false} EncodedHasBlock(fields: seq<Field>, k: nat)
    requires k < |fields| && fields[k].data.Textual?
    ensures forall x :: x in Dummies(fields[k].name, fields[k].data.texts) ==> x in Encoded(fields)
  {
    if k == 0 {
      assert Encoded(fields) == Dummies(fields[0].name, fields[0].data.texts) + Encoded(fields[1..]);
    } else {
      EncodedHasBlock(fields[1..], k - 1);
      assert fields[1..][k - 1] == fields[k];
      match fields[0].data
      case Numeric(_) =>
      case Textual(v) =>
        assert Encoded(fields) == Dummies(fields[0].name, v) + Encoded(fields[1..]);
    }
  }

  /** Lines 86-91 as evidently intended: the identifier is removed before
      encoding, so no column derived from it reaches the features. */
  function PrepareFeaturesIntended(f: Frame): (r: Result<Features>)
    ensures r.Err? <==> !HasNumeric(f, Churn)
    ensures r.Err? ==> r.error == MissingColumn(Churn)
    ensures r.Ok? ==> r.value.x.height == f.height && r.value.y.Numeric?
    ensures r.Ok? ==> CustomerId !in Names(r.value.x) && Churn !in Names(r.value.x)
  {
    var g := Frame(DropColumn(f.fields, CustomerId), f.height);
    var e := GetDummies(g);
    var ch := IndexOf(e.fields, Churn);
    IndexOfAbsent(e.fields, Churn);
    assert Churn != CustomerId;
    assert forall z :: z in e.fields ==> z.name != CustomerId;
    NamesAbsent(Frame(DropColumn(e.fields, Churn), f.height), Churn);
    NamesAbsent(Frame(DropColumn(e.fields, Churn), f.height), CustomerId);
    if ch == |e.fields| then Err(MissingColumn(Churn))
    else Ok(Features(Frame(DropColumn(e.fields, Churn), f.height), e.fields[ch].data))
  }

  /** f and g have the same columns, and only the identifier columns may
    differ in content. */
  predicate DifferOnlyInIdentifier(f: Frame, g: Frame)
  {
    && f.height == g.height
    && |f.fields| == |g.fields|
    && forall k :: 0 <= k < |f.fields| ==>
         f.fields[k].name == g.fields[k].name &&
         (f.fields[k].name != CustomerId ==> f.fields[k] == g.fields[k])
  }

  lemma {:induction false} DropIdentifierAgrees(a: seq<Field>, b: seq<Field>)
    requires |a| == |b|
    requires forall k :: 0 <= k < |a| ==>
               a[k].name == b[k].name && (a[k].name != CustomerId ==> a[k] == b[k])
    ensures DropColumn(a, CustomerId) == DropColumn(b, CustomerId)
  {
    if |a| > 0 {
      DropIdentifierAgrees(a[1..], b[1..]);
    }
  }

  /** Two tables that differ only in their identifiers get the same features
      and labels from the intended preparation. */
  lemma IntendedIgnoresIdentifier(f: Frame, g: Frame)
    requires DifferOnlyInIdentifier(f, g)
    ensures PrepareFeaturesIntended(f) == PrepareFeaturesIntended(g)
  {
    DropIdentifierAgrees(f.fields, g.fields);
  }

  /** Without a text identifier the two preparations coincide: the fault
      only shows when "customerID" is a text column. */
  lemma WrittenAgreesWithoutTextIdentifier(f: Frame)
    requires forall x :: x in f.fields && x.name == CustomerId ==> x.data.Numeric?
    ensures PrepareFeatures(f) == PrepareFeaturesIntended(f)
  {
    var fs := f.fields;
    var e := GetDummies(f);
    var g := Frame(DropColumn(fs, CustomerId), f.height);
    var fields := if CustomerId in Names(e) then DropColumn(e.fields, CustomerId) else e.fields;
    PassedDrop(fs, CustomerId);
    EncodedDrop(fs);
    DropAppend(Passed(fs), Encoded(fs), CustomerId);
    EncodedNames(fs);
    DropNone(Encoded(fs), CustomerId);
    if CustomerId !in Names(e) {
      forall z | z in e.fields ensures z.name != CustomerId {
        var m :| 0 <= m < |e.fields| && e.fields[m] == z;
        assert Names(e)[m] == z.name;
      }
      DropNone(e.fields, CustomerId);
    }
    assert fields == GetDummies(g).fields;
  }

  /** Dropping a name commutes with keeping the numeric columns. */
  lemma {:induction false} PassedDrop(fields: seq<Field>, name: string)
    ensures Passed(DropColumn(fields, name)) == DropColumn(Passed(fields), name)
  {
    if |fields| > 0 {
      PassedDrop(fields[1..], name);
      var x := fields[0];
      assert DropColumn(fields, name) == (if x.name == name then [] else [x]) + DropColumn(fields[1..], name);
      PassedAppend(if x.name == name then [] else [x], DropColumn(fields[1..], name));
      DropAppend(if x.data.Numeric? then [x] else [], Passed(fields[1..]), name);
      assert [x][1..] == [];
      assert Passed([x]) == (if x.data.Numeric? then [x] else []) + Passed([]);
      assert DropColumn([x], name) == (if x.name == name then [] else [x]) + DropColumn([], name);
    }
  }

  /** Dropping numeric identifier columns leaves the dummies as they were. */
  lemma {:induction false} EncodedDrop(fields: seq<Field>)
    requires forall x :: x in fields && x.name == CustomerId ==> x.data.Numeric?
    ensures Encoded(DropColumn(fields, CustomerId)) == Encoded(fields)
  {
    if |fields| > 0 {
      var x := fields[0];
      var rest := DropColumn(fields[1..], CustomerId);
      var head := match x.data
                  case Numeric(_) => []
                  case Textual(v) => Dummies(x.name, v);
      EncodedDrop(fields[1..]);
      assert Encoded(fields) == head + Encoded(fields[1..]);
      if x.name == CustomerId {
        assert DropColumn(fields, CustomerId) == rest;
      } else {
        assert DropColumn(fields, CustomerId) == [x] + rest;
        assert ([x] + rest)[0] == x && ([x] + rest)[1..] == rest;
        assert Encoded([x] + rest) == head + Encoded(rest);
      }
    }
  }

  lemma {:induction false} PassedAppend(a: seq<Field>, b: seq<Field>)
    ensures Passed(a + b) == Passed(a) + Passed(b)
  {
    if |a| > 0 {
      var h := if a[0].data.Numeric? then [a[0]] else [];
      assert (a + b)[0] == a[0];
      assert (a + b)[1..] == a[1..] + b;
      PassedAppend(a[1..], b);
      calc {
        Passed(a + b);
        h + Passed(a[1..] + b);
        h + (Passed(a[1..]) + Passed(b));
        (h + Passed(a[1..])) + Passed(b);
      }
    } else {
      assert a + b == b;
    }
  }

  lemma {:induction false} DropAppend(a: seq<Field>, b: seq<Field>, name: string)
    ensures DropColumn(a + b, name) == DropColumn(a, name) + DropColumn(b, name)
  {
    if |a| > 0 {
      var h := if a[0].name == name then [] else [a[0]];
      assert (a + b)[0] == a[0];
      assert (a + b)[1..] == a[1..] + b;
      DropAppend(a[1..], b, name);
      calc {
        DropColumn(a + b, name);
        h + DropColumn(a[1..] + b, name);
        h + (DropColumn(a[1..], name) + DropColumn(b, name));
        (h + DropColumn(a[1..], name)) + DropColumn(b, name);
      }
    } else {
      assert a + b == b;
    }
  }

  lemma {:induction false} DropNone(a: seq<Field>, name: string)
    requires forall x :: x in a ==> x.name != name
    ensures DropColumn(a, name) == a
  {
    if |a| > 0 {
      assert a[0] in a;
      DropNone(a[1..], name);
      assert a == [a[0]] + a[1..];
    }
  }

  /** Two customers, told apart by id only. */
  function Customers(first: string, second: string): Frame
  {
    Frame([Field(CustomerId, Textual([Some(first), Some(second)])),
           Field(Churn, Numeric([Some(1.0), Some(0.0)]))], 2)
  }

  /** As written, the features depend on the identifiers: renaming the
      second customer renames a feature column, while the intended
      preparation keeps no identifier column at all. */
  lemma WrittenDependsOnIdentifier(first: string, b: string, c: string)
    requires Order.StrLess(first, b) && Order.StrLess(first, c) && b != c
    ensures DifferOnlyInIdentifier(Customers(first, b), Customers(first, c))
    ensures PrepareFeatures(Customers(first, b)).Ok? && PrepareFeatures(Customers(first, c)).Ok?
    ensures Names(PrepareFeatures(Customers(first, b)).value.x) == [CustomerId + "_" + b]
    ensures Names(PrepareFeatures(Customers(first, c)).value.x) == [CustomerId + "_" + c]
    ensures PrepareFeatures(Customers(first, b)) != PrepareFeatures(Customers(first, c))
    ensures Names(PrepareFeaturesIntended(Customers(first, b)).value.x) == []
  {
    var fb, fc := Customers(first, b), Customers(first, c);
    CustomersDiffer(first, b, c);
    LeakOf(fb, first, b);
    LeakOf(fc, first, c);
    SuffixDiffers(CustomerId + "_", b, c);
    IntendedOf(fb, first, b);
  }

  lemma CustomersDiffer(first: string, b: string, c: string)
    ensures DifferOnlyInIdentifier(Customers(first, b), Customers(first, c))
  {
    var fb, fc := Customers(first, b), Customers(first, c);
    assert fb.fields[1] == fc.fields[1];
  }

  lemma SuffixDiffers(p: string, b: string, c: string)
    requires b != c
    ensures p + b != p + c
  {
    assert (p + b)[|p|..] == b && (p + c)[|p|..] == c;
  }

  /** The features of Customers(first, id) as written: the one dummy column of id. */
  lemma LeakOf(f: Frame, first: string, id: string)
    requires f == Customers(first, id) && Order.StrLess(first, id)
    ensures PrepareFeatures(f).Ok?
    ensures Names(PrepareFeatures(f).value.x) == [CustomerId + "_" + id]
  {
    var v := [Some(first), Some(id)];
    TwoLevels(v, first, id);
    var block := Dummies(CustomerId, v);
    assert |block| == 1 && block[0].name == CustomerId + "_" + id;
    TextThenNumeric(f.fields[0], f.fields[1]);
    assert f.fields == [f.fields[0], f.fields[1]];
    PrepareOfOneBlock(f, block);
  }

  lemma TwoLevels(v: seq<Option<string>>, a: string, b: string)
    requires v == [Some(a), Some(b)] && Order.StrLess(a, b)
    ensures Order.Levels(Present(v)) == [a, b]
  {
    assert Present(v) == [a, b] by {
      assert v[1..] == [Some(b)];
      assert v[1..][1..] == [];
      assert Present([Some(b)]) == [b] + Present([Some(b)][1..]);
    }
    assert Order.Levels([a]) == [a] by {
      assert [a][..0] == [];
    }
    assert [a, b][..1] == [a];
    assert !Order.StrLess(b, a) by {
      if Order.StrLess(b, a) {
        Order.StrLessTransitive(a, b, a);
        Order.StrLessIrreflexive(a);
      }
    }
    Order.StrLessIrreflexive(a);
    assert Order.InsertSorted([a], b) == [a] + Order.InsertSorted([a][1..], b);
    assert [a][1..] == [];
  }

  /** get_dummies of a text column followed by a numeric one. */
  lemma TextThenNumeric(x: Field, y: Field)
    requires x.data.Textual? && y.data.Numeric?
    ensures Passed([x, y]) == [y]
    ensures Encoded([x, y]) == Dummies(x.name, x.data.texts)
  {
    assert [x, y][1..] == [y];
    assert [y][1..] == [];
    assert Passed([y]) == [y] + Passed([y][1..]);
    assert Encoded([y]) == Encoded([y][1..]);
  }

  /** A frame whose encoding is the label followed by one dummy column. */
  lemma PrepareOfOneBlock(f: Frame, block: seq<Field>)
    requires |f.fields| == 2 && f.fields[1].name == Churn
    requires Passed(f.fields) == [f.fields[1]] && Encoded(f.fields) == block
    requires |block| == 1 && block[0].name != CustomerId && block[0].name != Churn
    ensures PrepareFeatures(f).Ok?
    ensures Names(PrepareFeatures(f).value.x) == [block[0].name]
  {
    var e := GetDummies(f);
    assert e.fields == [f.fields[1], block[0]];
    assert CustomerId !in Names(e) by {
      assert Names(e) == [Churn, block[0].name];
    }
    assert IndexOf(e.fields, Churn) == 0;
    assert DropColumn(e.fields, Churn) == block by {
      assert e.fields[1..] == block;
      assert DropColumn(block, Churn) == [block[0]] + DropColumn(block[1..], Churn);
      assert block[1..] == [];
    }
  }

  /** The intended features of Customers(first, second): none, only the answer remains. */
  lemma IntendedOf(f: Frame, first: string, second: string)
    requires f == Customers(first, second)
    ensures PrepareFeaturesIntended(f).Ok?
    ensures Names(PrepareFeaturesIntended(f).value.x) == []
  {
    var answer := f.fields[1];
    assert DropColumn(f.fields, CustomerId) == [answer] by {
      assert f.fields[1..] == [answer];
      assert DropColumn([answer], CustomerId) == [answer] + DropColumn([answer][1..], CustomerId);
      assert [answer][1..] == [];
    }
    assert Passed([answer]) == [answer] + Passed([answer][1..]);
    assert Encoded([answer]) == Encoded([answer][1..]);
    assert [answer][1..] == [];
    assert DropColumn([answer], Churn) == DropColumn([answer][1..], Churn);
  }

  // ---------------------------------------------------------------------
  // `accuracy_score`

  /** The positions where truth and prediction agree. */
  function Agree(a: seq<real>, b: seq<real>): set<nat>
  {
    set i: nat | i < |a| && i < |b| && a[i] == b[i]
  }

  /** The number of agreeing positions, counted from the back. */
  function Matches(a: seq<real>, b: seq<real>): (n: nat)
    requires |a| == |b|
    ensures n <= |a|
    ensures n == |Agree(a, b)|
  {
    if |a| == 0 then
      assert Agree(a, b) == {};
      0
    else
      var m := |a| - 1;
      assert Agree(a, b) == Agree(a[..m], b[..m]) + (if a[m] == b[m] then {m} else {});
      (if a[m] == b[m] then 1 else 0) + Matches(a[..m], b[..m])
  }

  /** `accuracy_score(y_test, y_pred)`: the fraction of equal positions;
      arrays of different lengths are rejected, and an empty pair gives NaN. */
  function Accuracy(yTrue: seq<real>, yPred: seq<real>): (r: Result<Quotient>)
    ensures r.Err? <==> |yTrue| != |yPred|
    ensures r.Err? ==> r.error == InconsistentLengths
    ensures r.Ok? ==> (r.value.Finite? <==> |yTrue| > 0)
    ensures r.Ok? && r.value.Finite? ==> 0.0 <= r.value.value <= 1.0
    ensures r.Ok? && r.value.Finite? ==> r.value.value * |yTrue| as real == |Agree(yTrue, yPred)| as real
  {
    if |yTrue| != |yPred| then Err(InconsistentLengths)
    else
      var m, n := Matches(yTrue, yPred) as real, |yTrue| as real;
      FractionBounds(m, n);
      Ok(Divide(m, n))
  }

  /** A part over a non-empty whole lies between 0 and 1. */
  lemma FractionBounds(m: real, n: real)
    requires 0.0 <= m <= n
    ensures n > 0.0 ==> 0.0 <= m / n <= 1.0
  {
    if n > 0.0 {
      assert m / n * n == m;
    }
  }

  lemma {:induction false} MatchesAll(a: seq<real>, b: seq<real>)
    requires |a| == |b|
    ensures Matches(a, b) == |a| <==> forall i :: 0 <= i < |a| ==> a[i] == b[i]
    ensures Matches(a, b) == 0 <==> forall i :: 0 <= i < |a| ==> a[i] != b[i]
  {
    if |a| > 0 {
      var m := |a| - 1;
      MatchesAll(a[..m], b[..m]);
      assert forall i :: 0 <= i < m ==> a[..m][i] == a[i] && b[..m][i] == b[i];
    }
  }

  /** Accuracy 1 means every prediction is right; 0 means every one is wrong. */
  lemma AccuracyExtremes(yTrue: seq<real>, yPred: seq<real>)
    requires |yTrue| == |yPred| > 0
    ensures Accuracy(yTrue, yPred) == Ok(Finite(1.0)) <==> forall i :: 0 <= i < |yTrue| ==> yTrue[i] == yPred[i]
    ensures Accuracy(yTrue, yPred) == Ok(Finite(0.0)) <==> forall i :: 0 <= i < |yTrue| ==> yTrue[i] != yPred[i]
  {
    MatchesAll(yTrue, yPred);
    Ratio(Matches(yTrue, yPred) as real, |yTrue| as real);
  }

  lemma Ratio(m: real, n: real)
    requires n > 0.0
    ensures m / n == 1.0 <==> m == n
    ensures m / n == 0.0 <==> m == 0.0
  {
    if m / n == 1.0 {
      assert m == (m / n) * n;
    }
  }

  /** The score does not depend on which argument is the truth. */
  lemma AccuracySymmetric(a: seq<real>, b: seq<real>)
    ensures Accuracy(a, b) == Accuracy(b, a)
  {
    assert Agree(a, b) == Agree(b, a);
  }
}
