/** The Superstore sales table and `clean_and_prepare_data`.

    A pandas DataFrame is modelled as a set of present columns and a sequence
    of rows.  Each row holds an `Option` per column the analysis knows about:
    `Some` exactly when the column is present in the table (`WellFormed`),
    so `'X' in df.columns` is a test on the column set.  Columns the analysis
    never reads (Ship Mode, Segment, Row ID, ...) are kept together in
    `others`, because they still take part in duplicate detection. */
module SalesData {
  import opened Common

  // ---------------------------------------------------------------------
  // Calendar dates, as `pd.to_datetime` produces them

  datatype Date = Date(year: int, month: int, day: int)

  predicate IsLeapYear(y: int)
  {
    y % 4 == 0 && (y % 100 != 0 || y % 400 == 0)
  }

  function DaysInMonth(y: int, m: int): int
  {
    if m == 2 then (if IsLeapYear(y) then 29 else 28)
    else if m == 4 || m == 6 || m == 9 || m == 11 then 30
    else 31
  }

  predicate ValidDate(d: Date)
  {
    1 <= d.month <= 12 && 1 <= d.day <= DaysInMonth(d.year, d.month)
  }

  type CalendarDate = d: Date | ValidDate(d) witness Date(2000, 1, 1)

  /** `Series.dt.quarter`. */
  function QuarterOf(month: int): (q: int)
    requires 1 <= month <= 12
    ensures 1 <= q <= 4
    ensures 3 * (q - 1) < month <= 3 * q
  {
    (month - 1) / 3 + 1
  }

  // ---------------------------------------------------------------------
  // Rows and tables

  datatype Column =
    | OrderDate | Sales | Profit | Category | SubCategory | State | OrderId | CustomerId
    | ProfitMargin | Year | Month | Quarter

  datatype Row = Row(
    orderDate: Option<CalendarDate>,
    sales: Option<real>,
    profit: Option<real>,
    category: Option<string>,
    subCategory: Option<string>,
    state: Option<string>,
    orderId: Option<string>,
    customerId: Option<string>,
    profitMargin: Option<Quotient>,
    year: Option<int>,
    month: Option<int>,
    quarter: Option<int>,
    others: seq<string>)

  datatype Table = Table(columns: set<Column>, rows: seq<Row>)

  /** Whether the row carries a value for column c. */
  predicate Has(r: Row, c: Column)
  {
    match c
    case OrderDate => r.orderDate.Some?
    case Sales => r.sales.Some?
    case Profit => r.profit.Some?
    case Category => r.category.Some?
    case SubCategory => r.subCategory.Some?
    case State => r.state.Some?
    case OrderId => r.orderId.Some?
    case CustomerId => r.customerId.Some?
    case ProfitMargin => r.profitMargin.Some?
    case Year => r.year.Some?
    case Month => r.month.Some?
    case Quarter => r.quarter.Some?
  }

  /** Every row has a value in exactly the table's columns. */
  predicate WellFormed(t: Table)
  {
    forall i, c :: 0 <= i < |t.rows| ==> (Has(t.rows[i], c) <==> c in t.columns)
  }

  // ---------------------------------------------------------------------
  // `drop_duplicates()`

  /** Position of the first occurrence of x in s. */
  function FirstIndex<T(==)>(s: seq<T>, x: T): (i: nat)
    requires x in s
    ensures i < |s| && s[i] == x
    ensures forall j :: 0 <= j < i ==> s[j] != x
  {
    if s[0] == x then 0 else 1 + FirstIndex(s[1..], x)
  }

  lemma FirstIndexExtend<T>(s: seq<T>, y: T, x: T)
    requires x in s
    ensures x in s + [y] && FirstIndex(s + [y], x) == FirstIndex(s, x)
  {
    var i := FirstIndex(s, x);
    var k := FirstIndex(s + [y], x);
    assert (s + [y])[i] == x;
    assert forall j :: 0 <= j < |s| ==> (s + [y])[j] == s[j];
  }

  /** `drop_duplicates()` with the default `keep='first'`. */
  function DropDuplicates<T(==,!new)>(s: seq<T>): (r: seq<T>)
    ensures |r| <= |s|
    ensures forall x :: x in r <==> x in s
    ensures forall i, j :: 0 <= i < j < |r| ==> r[i] != r[j]
    ensures forall i, j :: 0 <= i < j < |r| ==> FirstIndex(s, r[i]) < FirstIndex(s, r[j])
  {
    if |s| == 0 then []
    else
      var prefix := s[..|s| - 1];
      var last := s[|s| - 1];
      var d := DropDuplicates(prefix);
      assert s == prefix + [last];
      forall x | x in prefix ensures FirstIndex(s, x) == FirstIndex(prefix, x) {
        FirstIndexExtend(prefix, last, x);
      }
      if last in prefix then d
      else
        assert FirstIndex(s, last) == |prefix| by {
          assert s[|prefix|] == last;
        }
        var r := d + [last];
        assert forall i :: 0 <= i < |d| ==> r[i] == d[i] && d[i] in prefix;
        r
  }

  /** A table without repeated rows is left as it is. */
  lemma {:induction false} DropDuplicatesOfDistinct<T(!new)>(s: seq<T>)
    requires forall i, j :: 0 <= i < j < |s| ==> s[i] != s[j]
    ensures DropDuplicates(s) == s
  {
    if |s| > 0 {
      var prefix := s[..|s| - 1];
      DropDuplicatesOfDistinct(prefix);
      assert s[|s| - 1] !in prefix;
      assert s == prefix + [s[|s| - 1]];
    }
  }

  /** Applying `drop_duplicates()` twice removes nothing more. */
  lemma DropDuplicatesIdempotent<T(!new)>(s: seq<T>)
    ensures DropDuplicates(DropDuplicates(s)) == DropDuplicates(s)
  {
    DropDuplicatesOfDistinct(DropDuplicates(s));
  }

  // ---------------------------------------------------------------------
  // Derived columns

  predicate HasMarginSources(t: Table)
  {
    Profit in t.columns && Sales in t.columns
  }

  predicate HasDateSource(t: Table)
  {
    OrderDate in t.columns
  }

  /** The row after the assignments of `Profit Margin`, `Year`, `Month` and
      `Quarter` that apply. */
  function DeriveRow(r: Row, margin: bool, dates: bool): Row
    requires margin ==> r.profit.Some? && r.sales.Some?
    requires dates ==> r.orderDate.Some?
  {
    var r1 := if margin then r.(profitMargin := Some(Divide(r.profit.value, r.sales.value))) else r;
    if dates then
      var d := r.orderDate.value;
      r1.(year := Some(d.year), month := Some(d.month), quarter := Some(QuarterOf(d.month)))
    else r1
  }

  /** `after` is `before` with the derived columns filled in as the flags say:
      every other column is untouched. */
  predicate Derived(after: Row, before: Row, margin: bool, dates: bool)
  {
    && after.(profitMargin := before.profitMargin, year := before.year,
              month := before.month, quarter := before.quarter) == before
    && (if margin then
          before.profit.Some? && before.sales.Some? && after.profitMargin.Some? &&
          (before.sales.value != 0.0 ==> after.profitMargin.value == Finite(before.profit.value / before.sales.value)) &&
          (before.sales.value == 0.0 ==> after.profitMargin.value == NonFinite)
        else after.profitMargin == before.profitMargin)
    && (if dates then
          before.orderDate.Some? &&
          after.year == Some(before.orderDate.value.year) &&
          after.month == Some(before.orderDate.value.month) &&
          after.quarter.Some? && 1 <= after.quarter.value <= 4 &&
          3 * (after.quarter.value - 1) < before.orderDate.value.month <= 3 * after.quarter.value
        else after.year == before.year && after.month == before.month && after.quarter == before.quarter)
  }

  /** The column set after the derived columns that apply are added. */
  function WithDerived(cols: set<Column>, margin: bool, dates: bool): set<Column>
  {
    cols + (if margin then {ProfitMargin} else {}) + (if dates then {Year, Month, Quarter} else {})
  }

  lemma DeriveRowMeaning(r: Row, cols: set<Column>, margin: bool, dates: bool)
    requires forall c :: Has(r, c) <==> c in cols
    requires margin ==> r.profit.Some? && r.sales.Some?
    requires dates ==> r.orderDate.Some?
    ensures Derived(DeriveRow(r, margin, dates), r, margin, dates)
    ensures forall c :: Has(DeriveRow(r, margin, dates), c) <==> c in WithDerived(cols, margin, dates)
  {
    forall c ensures Has(DeriveRow(r, margin, dates), c) <==> c in WithDerived(cols, margin, dates) {
      assert Has(r, c) <==> c in cols;
    }
  }

  lemma WellFormedByRows(t: Table)
    requires forall i :: 0 <= i < |t.rows| ==> forall c :: Has(t.rows[i], c) <==> c in t.columns
    ensures WellFormed(t)
  {
  }

  /** `clean_and_prepare_data`: drop exact duplicate rows, then add
      `Profit Margin` when Profit and Sales are present and `Year`, `Month`,
      `Quarter` when Order Date is present.  (`pd.to_datetime` has already
      happened: dates arrive parsed.) */
  function CleanAndPrepare(t: Table): (r: Table)
    requires WellFormed(t)
    ensures WellFormed(r)
    ensures r.columns == t.columns
                         + (if HasMarginSources(t) then {ProfitMargin} else {})
                         + (if HasDateSource(t) then {Year, Month, Quarter} else {})
    ensures |r.rows| == |DropDuplicates(t.rows)| <= |t.rows|
    ensures forall i :: 0 <= i < |r.rows| ==>
              Derived(r.rows[i], DropDuplicates(t.rows)[i], HasMarginSources(t), HasDateSource(t))
  {
    var margin := HasMarginSources(t);
    var dates := HasDateSource(t);
    var d := DropDuplicates(t.rows);
    var cols := WithDerived(t.columns, margin, dates);
    forall i | 0 <= i < |d| ensures forall c :: Has(d[i], c) <==> c in t.columns {
      assert d[i] in t.rows;
      var j :| 0 <= j < |t.rows| && t.rows[j] == d[i];
      assert forall c :: Has(t.rows[j], c) <==> c in t.columns;
    }
    var rows := seq(|d|, i requires 0 <= i < |d| => DeriveRow(d[i], margin, dates));
    forall i | 0 <= i < |d|
      ensures Derived(rows[i], d[i], margin, dates)
      ensures forall c :: Has(rows[i], c) <==> c in cols
    {
      DeriveRowMeaning(d[i], t.columns, margin, dates);
    }
    WellFormedByRows(Table(cols, rows));
    Table(cols, rows)
  }

  /** `clean_and_prepare_data(None)` is `None`. */
  function CleanAndPrepareData(df: Option<Table>): (r: Option<Table>)
    requires df.Some? ==> WellFormed(df.value)
    ensures r.None? <==> df.None?
    ensures r.Some? ==> WellFormed(r.value) && |r.value.rows| <= |df.value.rows|
    ensures df.Some? ==> r == Some(CleanAndPrepare(df.value))
  {
    match df
    case None => None
    case Some(t) => Some(CleanAndPrepare(t))
  }
}
