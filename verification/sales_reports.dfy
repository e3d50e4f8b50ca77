/** The computations behind the sales charts and the key-metrics summary:
    the grouped series each function builds before it plots or prints. */
module SalesReports {
  import opened Common
  import opened Order
  import opened Grouping
  import opened Ranking
  import opened SalesData

  /** What a reporting function produces: nothing when its guard
      (`if 'X' not in df.columns: return`) fails, the KeyError raised by an
      unguarded column access, or its table. */
  datatype Report<+T> = Skipped | Failed(error: Error) | Done(value: T)

  function ColumnName(c: Column): string
  {
    match c
    case OrderDate => "Order Date"
    case Sales => "Sales"
    case Profit => "Profit"
    case Category => "Category"
    case SubCategory => "Sub-Category"
    case State => "State"
    case OrderId => "Order ID"
    case CustomerId => "Customer ID"
    case ProfitMargin => "Profit Margin"
    case Year => "Year"
    case Month => "Month"
    case Quarter => "Quarter"
  }

  // ---------------------------------------------------------------------
  // From rows to (key, value) pairs

  /** The value of a column the analysis groups by or counts distinct
      values of (text and integer columns); other columns are never used as
      keys and read as a constant. */
  function KeyAtom(r: Row, c: Column): Atom
  {
    match c
    case Category => Text(r.category.GetOr(""))
    case SubCategory => Text(r.subCategory.GetOr(""))
    case State => Text(r.state.GetOr(""))
    case OrderId => Text(r.orderId.GetOr(""))
    case CustomerId => Text(r.customerId.GetOr(""))
    case Year => Num(r.year.GetOr(0))
    case Month => Num(r.month.GetOr(0))
    case Quarter => Num(r.quarter.GetOr(0))
    case _ => Num(0)
  }

  /** The value of a money column (Sales or Profit). */
  function Measure(r: Row, c: Column): real
  {
    match c
    case Sales => r.sales.GetOr(0.0)
    case Profit => r.profit.GetOr(0.0)
    case _ => 0.0
  }

  function RowKey(r: Row, cols: seq<Column>): Key
  {
    seq(|cols|, j requires 0 <= j < |cols| => KeyAtom(r, cols[j]))
  }

  /** Each row's group key and measured value: the input of `df.groupby(by)[m]`. */
  function Pairs(rows: seq<Row>, cols: seq<Column>, m: Column): (ps: seq<(Key, real)>)
    ensures |ps| == |rows|
    ensures forall i :: 0 <= i < |rows| ==> ps[i] == (RowKey(rows[i], cols), Measure(rows[i], m))
  {
    seq(|rows|, i requires 0 <= i < |rows| => (RowKey(rows[i], cols), Measure(rows[i], m)))
  }

  /** The group keys that occur in the rows. */
  function RowKeys(rows: seq<Row>, cols: seq<Column>): set<Key>
  {
    set i | 0 <= i < |rows| :: RowKey(rows[i], cols)
  }

  /** `df[m].sum()`. */
  function ColumnSum(rows: seq<Row>, m: Column): real
  {
    if |rows| == 0 then 0.0 else ColumnSum(rows[..|rows| - 1], m) + Measure(rows[|rows| - 1], m)
  }

  /** `df.groupby(by)[m].sum()` (and `.count()`), one entry per key. */
  function GroupSum(rows: seq<Row>, cols: seq<Column>, m: Column): seq<Group>
  {
    GroupBy(Pairs(rows, cols, m))
  }

  lemma {:induction false} PairsTotal(rows: seq<Row>, cols: seq<Column>, m: Column)
    ensures SumAll(Pairs(rows, cols, m)) == ColumnSum(rows, m)
  {
    if |rows| > 0 {
      var prefix := rows[..|rows| - 1];
      assert Pairs(rows, cols, m)[..|rows| - 1] == Pairs(prefix, cols, m);
      PairsTotal(prefix, cols, m);
    }
  }

  /** What a grouped sum means in terms of the rows: exactly one entry per
      key occurring in the data, ascending, each the sum and count of its
      rows, and together they add up to the column total. */
  lemma GroupSumMeaning(rows: seq<Row>, cols: seq<Column>, m: Column)
    ensures Ascending(GroupSum(rows, cols, m))
    ensures KeysOf(GroupSum(rows, cols, m)) == RowKeys(rows, cols)
    ensures |GroupSum(rows, cols, m)| == |RowKeys(rows, cols)|
    ensures forall i :: 0 <= i < |GroupSum(rows, cols, m)| ==>
              GroupSum(rows, cols, m)[i].total == SumFor(Pairs(rows, cols, m), GroupSum(rows, cols, m)[i].key) &&
              GroupSum(rows, cols, m)[i].count == CountFor(Pairs(rows, cols, m), GroupSum(rows, cols, m)[i].key)
    ensures SumTotals(GroupSum(rows, cols, m)) == ColumnSum(rows, m)
    ensures SumCounts(GroupSum(rows, cols, m)) == |rows|
  {
    var ps := Pairs(rows, cols, m);
    assert InputKeys(ps) == RowKeys(rows, cols) by {
      forall k | k in RowKeys(rows, cols) ensures k in InputKeys(ps) {
        var i :| 0 <= i < |rows| && RowKey(rows[i], cols) == k;
        assert ps[i].0 == k;
      }
    }
    GroupCount(ps);
    PairsTotal(rows, cols, m);
    forall i | 0 <= i < |GroupBy(ps)|
      ensures GroupBy(ps)[i].total == SumFor(ps, GroupBy(ps)[i].key)
      ensures GroupBy(ps)[i].count == CountFor(ps, GroupBy(ps)[i].key)
    {
      GroupEntries(ps, i);
    }
  }

  // ---------------------------------------------------------------------
  // plot_monthly_sales_trends: df.groupby(['Year', 'Month'])['Sales'].sum()

  function MonthlySales(t: Table): (r: Report<seq<Group>>)
    ensures r.Skipped? <==> Year !in t.columns
    ensures r.Failed? <==> Year in t.columns && (Month !in t.columns || Sales !in t.columns)
    ensures r.Done? ==>
              && Ascending(r.value)
              && KeysOf(r.value) == RowKeys(t.rows, [Year, Month])
              && (forall i :: 0 <= i < |r.value| ==>
                    r.value[i].total == SumFor(Pairs(t.rows, [Year, Month], Sales), r.value[i].key))
              && SumTotals(r.value) == ColumnSum(t.rows, Sales)
  {
    if Year !in t.columns then Skipped
    else if Month !in t.columns then Failed(MissingColumn(ColumnName(Month)))
    else if Sales !in t.columns then Failed(MissingColumn(ColumnName(Sales)))
    else
      GroupSumMeaning(t.rows, [Year, Month], Sales);
      Done(GroupSum(t.rows, [Year, Month], Sales))
  }

  // ---------------------------------------------------------------------
  // plot_profit_heatmap: df.groupby(['Category', 'Sub-Category'])['Profit'].sum()

  /** The long form of the heatmap's matrix; `unstack` only lays the same
      entries out as a grid (absent combinations become blank cells). */
  function ProfitByCategory(t: Table): (r: Report<seq<Group>>)
    ensures r.Skipped? <==> Category !in t.columns || SubCategory !in t.columns
    ensures r.Failed? <==> Category in t.columns && SubCategory in t.columns && Profit !in t.columns
    ensures r.Done? ==>
              && Ascending(r.value)
              && KeysOf(r.value) == RowKeys(t.rows, [Category, SubCategory])
              && (forall i :: 0 <= i < |r.value| ==>
                    r.value[i].total == SumFor(Pairs(t.rows, [Category, SubCategory], Profit), r.value[i].key))
              && SumTotals(r.value) == ColumnSum(t.rows, Profit)
  {
    if Category !in t.columns || SubCategory !in t.columns then Skipped
    else if Profit !in t.columns then Failed(MissingColumn(ColumnName(Profit)))
    else
      GroupSumMeaning(t.rows, [Category, SubCategory], Profit);
      Done(GroupSum(t.rows, [Category, SubCategory], Profit))
  }

  // ---------------------------------------------------------------------
  // plot_top_states_by_sales:
  //   df.groupby('State')['Sales'].sum().sort_values(ascending=False).head(top_n)

  function TopStates(t: Table, topN: int): (r: Report<seq<Group>>)
    ensures r.Skipped? <==> State !in t.columns
    ensures r.Failed? <==> State in t.columns && Sales !in t.columns
    ensures r.Done? ==>
              var all := GroupSum(t.rows, [State], Sales);
              && (topN >= 0 ==> |r.value| == Min(topN, |RowKeys(t.rows, [State])|))
              && (forall i, j :: 0 <= i < j < |r.value| ==> r.value[i].total >= r.value[j].total)
              && multiset(r.value) <= multiset(all)
              && (forall i, j :: 0 <= i < j < |r.value| ==> r.value[i].key != r.value[j].key)
              && (forall x, y :: x in all && x !in r.value && y in r.value ==> x.total <= y.total)
  {
    if State !in t.columns then Skipped
    else if Sales !in t.columns then Failed(MissingColumn(ColumnName(Sales)))
    else
      var all := GroupSum(t.rows, [State], Sales);
      var top := Head(SortValues(all, false), topN);
      GroupSumMeaning(t.rows, [State], Sales);
      TopNDescending(all, topN);
      AscendingDistinct(all);
      TopNDistinct(all, topN);
      forall x, y | x in all && x !in top && y in top ensures x.total <= y.total {
        TopNKeepsTheLargest(all, topN, x, y);
      }
      Done(top)
  }

  function Min(a: int, b: int): int
  {
    if a < b then a else b
  }

  // ---------------------------------------------------------------------
  // analyze_category_performance

  datatype CategoryMetrics = CategoryMetrics(
    category: Key,
    totalSales: real,
    totalProfit: real,
    orderCount: nat,
    marginPercent: Quotient)

  /** One metrics row per sales group, with the category's profit looked up
      in the profit grouping. */
  function CategoryRows(salesGroups: seq<Group>, profitGroups: seq<Group>): (r: seq<CategoryMetrics>)
    ensures |r| == |salesGroups|
    ensures forall i :: 0 <= i < |r| ==>
              && r[i].category == salesGroups[i].key
              && r[i].totalSales == salesGroups[i].total
              && r[i].orderCount == salesGroups[i].count
              && r[i].totalProfit == TotalAt(profitGroups, salesGroups[i].key)
              && r[i].marginPercent == Scale(Divide(r[i].totalProfit, r[i].totalSales), 100.0)
    ensures SumOrderCounts(r) == SumCounts(salesGroups)
  {
    if |salesGroups| == 0 then []
    else
      var g := salesGroups[0];
      var profit := TotalAt(profitGroups, g.key);
      [CategoryMetrics(g.key, g.total, profit, g.count, Scale(Divide(profit, g.total), 100.0))]
        + CategoryRows(salesGroups[1..], profitGroups)
  }

  function SumOrderCounts(m: seq<CategoryMetrics>): nat
  {
    if |m| == 0 then 0 else m[0].orderCount + SumOrderCounts(m[1..])
  }

  /** `df.groupby('Category').agg({'Sales': 'sum', 'Profit': 'sum', 'Order ID': 'count'})`
      with `Profit Margin % = Total Profit / Total Sales * 100`. */
  function CategoryPerformance(t: Table): (r: Report<seq<CategoryMetrics>>)
    ensures r.Skipped? <==> Category !in t.columns
    ensures r.Failed? <==> Category in t.columns &&
                           (Sales !in t.columns || Profit !in t.columns || OrderId !in t.columns)
    ensures r.Done? ==>
              && |r.value| == |RowKeys(t.rows, [Category])|
              && (forall i, j :: 0 <= i < j < |r.value| ==> KeyLess(r.value[i].category, r.value[j].category))
              && (forall i :: 0 <= i < |r.value| ==>
                    var k := r.value[i].category;
                    && k in RowKeys(t.rows, [Category])
                    && r.value[i].totalSales == SumFor(Pairs(t.rows, [Category], Sales), k)
                    && r.value[i].totalProfit == SumFor(Pairs(t.rows, [Category], Profit), k)
                    && r.value[i].orderCount == CountFor(Pairs(t.rows, [Category], Sales), k)
                    && r.value[i].marginPercent == Scale(Divide(r.value[i].totalProfit, r.value[i].totalSales), 100.0))
              && SumOrderCounts(r.value) == |t.rows|
  {
    if Category !in t.columns then Skipped
    else if Sales !in t.columns then Failed(MissingColumn(ColumnName(Sales)))
    else if Profit !in t.columns then Failed(MissingColumn(ColumnName(Profit)))
    else if OrderId !in t.columns then Failed(MissingColumn(ColumnName(OrderId)))
    else
      CategoryRowsMeaning(t.rows);
      Done(CategoryRows(GroupSum(t.rows, [Category], Sales), GroupSum(t.rows, [Category], Profit)))
  }

  lemma CategoryRowsMeaning(rows: seq<Row>)
    ensures var m := CategoryRows(GroupSum(rows, [Category], Sales), GroupSum(rows, [Category], Profit));
            && |m| == |RowKeys(rows, [Category])|
            && (forall i, j :: 0 <= i < j < |m| ==> KeyLess(m[i].category, m[j].category))
            && (forall i :: 0 <= i < |m| ==>
                  var k := m[i].category;
                  && k in RowKeys(rows, [Category])
                  && m[i].totalSales == SumFor(Pairs(rows, [Category], Sales), k)
                  && m[i].totalProfit == SumFor(Pairs(rows, [Category], Profit), k)
                  && m[i].orderCount == CountFor(Pairs(rows, [Category], Sales), k)
                  && m[i].marginPercent == Scale(Divide(m[i].totalProfit, m[i].totalSales), 100.0))
            && SumOrderCounts(m) == |rows|
  {
    var salesGroups := GroupSum(rows, [Category], Sales);
    var profitGroups := GroupSum(rows, [Category], Profit);
    var m := CategoryRows(salesGroups, profitGroups);
    GroupSumMeaning(rows, [Category], Sales);
    assert forall x :: TotalAt(profitGroups, x) == SumFor(Pairs(rows, [Category], Profit), x);
    forall i | 0 <= i < |m|
      ensures m[i].category in RowKeys(rows, [Category])
      ensures m[i].totalProfit == SumFor(Pairs(rows, [Category], Profit), m[i].category)
    {
      assert salesGroups[i].key in KeysOf(salesGroups);
    }
  }

  // ---------------------------------------------------------------------
  // calculate_key_metrics

  datatype KeyMetrics = KeyMetrics(
    totalSales: real,
    totalProfit: real,
    totalOrders: nat,
    averageOrderValue: Quotient,
    profitMarginPercent: Quotient,
    uniqueCustomers: Option<nat>)

  /** The values of column c, row by row. */
  function ColumnValues(rows: seq<Row>, c: Column): (vs: seq<Atom>)
    ensures |vs| == |rows|
  {
    seq(|rows|, i requires 0 <= i < |rows| => KeyAtom(rows[i], c))
  }

  /** `df[c].nunique()`. */
  function DistinctCount(rows: seq<Row>, c: Column): nat
  {
    |set a | a in ColumnValues(rows, c)|
  }

  lemma {:induction false} DistinctValuesBounds(s: seq<Atom>)
    ensures |set a | a in s| <= |s|
    ensures |s| > 0 ==> |set a | a in s| >= 1
  {
    if |s| > 0 {
      var prefix := s[..|s| - 1];
      DistinctValuesBounds(prefix);
      assert s == prefix + [s[|s| - 1]];
      assert (set a | a in s) == (set a | a in prefix) + {s[|s| - 1]};
    }
  }

  function CalculateKeyMetrics(t: Table): (r: Result<KeyMetrics>)
    ensures r.Err? <==> Sales !in t.columns || Profit !in t.columns
    ensures r.Ok? ==>
              var m := r.value;
              && m.totalSales == ColumnSum(t.rows, Sales)
              && m.totalProfit == ColumnSum(t.rows, Profit)
              && m.totalOrders == (if OrderId in t.columns then DistinctCount(t.rows, OrderId) else |t.rows|)
              && m.totalOrders <= |t.rows|
              && (m.totalOrders == 0 <==> |t.rows| == 0)
              && (m.averageOrderValue.Finite? <==> |t.rows| > 0)
              && (m.averageOrderValue.Finite? ==> m.averageOrderValue.value * m.totalOrders as real == m.totalSales)
              && m.profitMarginPercent == Scale(Divide(m.totalProfit, m.totalSales), 100.0)
              && (m.uniqueCustomers.Some? <==> CustomerId in t.columns)
              && (m.uniqueCustomers.Some? ==> m.uniqueCustomers.value == DistinctCount(t.rows, CustomerId))
              && (m.uniqueCustomers.Some? ==> m.uniqueCustomers.value <= |t.rows|)
  {
    if Sales !in t.columns then Err(MissingColumn(ColumnName(Sales)))
    else if Profit !in t.columns then Err(MissingColumn(ColumnName(Profit)))
    else
      var totalSales := ColumnSum(t.rows, Sales);
      var totalProfit := ColumnSum(t.rows, Profit);
      DistinctValuesBounds(ColumnValues(t.rows, OrderId));
      DistinctValuesBounds(ColumnValues(t.rows, CustomerId));
      var totalOrders := if OrderId in t.columns then DistinctCount(t.rows, OrderId) else |t.rows|;
      Ok(KeyMetrics(
        totalSales,
        totalProfit,
        totalOrders,
        Divide(totalSales, totalOrders as real),
        Scale(Divide(totalProfit, totalSales), 100.0),
        if CustomerId in t.columns then Some(DistinctCount(t.rows, CustomerId)) else None))
  }

  /** The category table accounts for every sale: its Total Sales add up to
      the overall Total Sales of the key metrics. */
  lemma CategorySalesAddUp(t: Table)
    requires CategoryPerformance(t).Done? && CalculateKeyMetrics(t).Ok?
    ensures SumCategorySales(CategoryPerformance(t).value) == CalculateKeyMetrics(t).value.totalSales
  {
    var salesGroups := GroupSum(t.rows, [Category], Sales);
    GroupSumMeaning(t.rows, [Category], Sales);
    CategoryRowsSales(salesGroups, GroupSum(t.rows, [Category], Profit));
  }

  function SumCategorySales(m: seq<CategoryMetrics>): real
  {
    if |m| == 0 then 0.0 else m[0].totalSales + SumCategorySales(m[1..])
  }

  lemma {:induction false} CategoryRowsSales(salesGroups: seq<Group>, profitGroups: seq<Group>)
    ensures SumCategorySales(CategoryRows(salesGroups, profitGroups)) == SumTotals(salesGroups)
  {
    if |salesGroups| > 0 {
      CategoryRowsSales(salesGroups[1..], profitGroups);
    }
  }
}
