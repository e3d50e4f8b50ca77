/** `generate_business_insights`: three fixed rules over grouped sales,
    emitted in the order sales trends, profitability, geography.  Each
    insight carries the grouped entry (or entries) that triggered it; the
    recommendation text around them is presentation and not modelled. */
module Insights {
  import opened Common
  import opened Order
  import opened Grouping
  import opened Ranking
  import opened SalesData
  import opened SalesReports

  datatype Insight =
    | SalesTrend(peak: Group)              // month with the highest mean sale
    | Profitability(lossMakers: seq<Group>) // sub-categories losing money
    | Geography(top: Group)                // state with the highest total sales

  /** Position of an insight's rule in the fixed rule order. */
  function Topic(x: Insight): nat
  {
    match x
    case SalesTrend(_) => 0
    case Profitability(_) => 1
    case Geography(_) => 2
  }

  function Means(g: seq<Group>): (m: seq<real>)
    ensures |m| == |g|
    ensures forall i :: 0 <= i < |g| ==> m[i] == Mean(g[i])
  {
    seq(|g|, i requires 0 <= i < |g| => Mean(g[i]))
  }

  function Totals(g: seq<Group>): (m: seq<real>)
    ensures |m| == |g|
    ensures forall i :: 0 <= i < |g| ==> m[i] == g[i].total
  {
    seq(|g|, i requires 0 <= i < |g| => g[i].total)
  }

  /** `best` is what `idxmax` picks from the ascending grouping g under the
      given score: a maximum, and of all maxima the one with the smallest key. */
  predicate IsFirstMax(g: seq<Group>, best: Group, byMean: bool)
  {
    && best in g
    && (forall x :: x in g ==> Score(x, byMean) <= Score(best, byMean))
    && (forall x :: x in g && Score(x, byMean) == Score(best, byMean) ==>
          x.key == best.key || KeyLess(best.key, x.key))
  }

  function Score(x: Group, byMean: bool): real
  {
    if byMean then Mean(x) else x.total
  }

  /** `idxmax` over an ascending grouping. */
  function IdxMax(g: seq<Group>, byMean: bool): (best: Group)
    requires |g| > 0 && Ascending(g)
    ensures IsFirstMax(g, best, byMean)
  {
    var scores := if byMean then Means(g) else Totals(g);
    assert forall j :: 0 <= j < |g| ==> scores[j] == Score(g[j], byMean);
    var i := FirstMax(scores);
    forall x | x in g && Score(x, byMean) == Score(g[i], byMean)
      ensures x.key == g[i].key || KeyLess(g[i].key, x.key)
    {
      var j :| 0 <= j < |g| && g[j] == x;
      assert !(j < i);
    }
    g[i]
  }

  // ---------------------------------------------------------------------
  // The three rules

  /** `df.groupby('Month')['Sales'].mean()`. */
  function MonthGroups(t: Table): seq<Group>
  {
    GroupSum(t.rows, [Month], Sales)
  }

  /** `df.groupby('Sub-Category')['Profit'].sum()`. */
  function SubCategoryGroups(t: Table): seq<Group>
  {
    GroupSum(t.rows, [SubCategory], Profit)
  }

  /** `df.groupby('State')['Sales'].sum()`. */
  function StateGroups(t: Table): seq<Group>
  {
    GroupSum(t.rows, [State], Sales)
  }

  /** `subcat_profit.sort_values()` then `subcat_profit[subcat_profit < 0]`. */
  function LossMakers(t: Table): (r: seq<Group>)
    ensures forall x :: x in r <==> x in SubCategoryGroups(t) && x.total < 0.0
    ensures SortedBy(r, true)
    ensures forall i, j :: 0 <= i < j < |r| ==> r[i] != r[j]
  {
    GroupSumMeaning(t.rows, [SubCategory], Profit);
    NegativesOfSorted(SubCategoryGroups(t));
    Negatives(SortValues(SubCategoryGroups(t), true))
  }

  /** The negative entries of a sorted grouping: exactly those of the
      grouping, ascending, each once. */
  lemma NegativesOfSorted(g: seq<Group>)
    requires Ascending(g)
    ensures var r := Negatives(SortValues(g, true));
            && (forall x :: x in r <==> x in g && x.total < 0.0)
            && SortedBy(r, true)
            && forall i, j :: 0 <= i < j < |r| ==> r[i] != r[j]
  {
    var sorted := SortValues(g, true);
    NegativesExactly(sorted);
    NegativesKeepOrder(sorted, true);
    var r := Negatives(sorted);
    forall x ensures x in r <==> x in g && x.total < 0.0 {
      assert x in r <==> x in multiset(r);
      assert x in g <==> x in multiset(g);
    }
    forall x ensures multiset(r)[x] <= 1 {
      GroupsDistinct(g, x);
    }
    DistinctByMultiplicity(r);
  }

  lemma DistinctByMultiplicity(s: seq<Group>)
    requires forall x :: multiset(s)[x] <= 1
    ensures forall i, j :: 0 <= i < j < |s| ==> s[i] != s[j]
  {
    forall i, j | 0 <= i < j < |s| ensures s[i] != s[j] {
      assert s == s[..i] + [s[i]] + s[i + 1..j] + [s[j]] + s[j + 1..];
      var m := multiset(s[..i]) + multiset{s[i]} + multiset(s[i + 1..j]) + multiset{s[j]} + multiset(s[j + 1..]);
      assert multiset(s) == m;
      assert m[s[i]] >= 1 + multiset{s[j]}[s[i]];
    }
  }

  /** An ascending grouping holds every entry once. */
  lemma GroupsDistinct(g: seq<Group>, x: Group)
    requires Ascending(g)
    ensures multiset(g)[x] <= 1
  {
    if x in g {
      var i :| 0 <= i < |g| && g[i] == x;
      assert g == g[..i] + [x] + g[i + 1..];
      assert x !in g[..i] by {
        forall j | 0 <= j < i ensures g[j] != x {
          KeyLessAsymmetric(g[j].key, g[i].key);
        }
      }
      assert x !in g[i + 1..] by {
        forall j | i < j < |g| ensures g[j] != x {
          KeyLessAsymmetric(g[i].key, g[j].key);
        }
      }
      assert multiset(g) == multiset(g[..i]) + multiset{x} + multiset(g[i + 1..]);
    }
  }

  predicate TrendFails(t: Table)
  {
    Month in t.columns && (Sales !in t.columns || |t.rows| == 0)
  }

  predicate GeographyFails(t: Table)
  {
    State in t.columns && (Sales !in t.columns || |t.rows| == 0)
  }

  /** Rule 1: present when Month is; KeyError without Sales, ValueError
      from `idxmax` on an empty table. */
  function TrendRule(t: Table): (r: Result<seq<Insight>>)
    ensures r.Err? <==> TrendFails(t)
    ensures r.Ok? ==> |r.value| == (if Month in t.columns then 1 else 0)
    ensures r.Ok? ==> forall x :: x in r.value ==>
              x.SalesTrend? && IsFirstMax(MonthGroups(t), x.peak, true)
  {
    if Month !in t.columns then Ok([])
    else if Sales !in t.columns then Err(MissingColumn(ColumnName(Sales)))
    else
      GroupSumMeaning(t.rows, [Month], Sales);
      if |MonthGroups(t)| == 0 then
        assert |t.rows| == 0;
        Err(EmptyArgmax)
      else
        assert |t.rows| > 0 by {
          assert MonthGroups(t)[0].key in KeysOf(MonthGroups(t));
        }
        Ok([SalesTrend(IdxMax(MonthGroups(t), true))])
  }

  /** Ties for the best mean go to the earliest month: the month keys are
      integers, compared as numbers. */
  lemma TrendPeakIsEarliestMonth(t: Table, peak: Group, m: int, y: Group, n: int)
    requires TrendRule(t).Ok? && SalesTrend(peak) in TrendRule(t).value
    requires peak.key == [Num(m)]
    requires y in MonthGroups(t) && y.key == [Num(n)] && Mean(y) == Mean(peak)
    ensures m <= n
  {
    KeyLessOnNumbers(m, n);
  }

  /** Rule 2: present when Sub-Category and Profit are and some
      sub-category's summed profit is negative. */
  function ProfitabilityRule(t: Table): (r: seq<Insight>)
    ensures |r| <= 1
    ensures |r| == 1 <==> SubCategory in t.columns && Profit in t.columns &&
                          exists x :: x in SubCategoryGroups(t) && x.total < 0.0
    ensures forall x :: x in r ==> x.Profitability? && x.lossMakers == LossMakers(t) && |x.lossMakers| > 0
  {
    if SubCategory in t.columns && Profit in t.columns then
      var losses := LossMakers(t);
      if |losses| > 0 then
        assert losses[0] in losses;
        [Profitability(losses)]
      else
        assert forall x :: x in SubCategoryGroups(t) ==> x.total >= 0.0;
        []
    else []
  }

  /** Rule 3: present when State is; KeyError without Sales, ValueError
      from `idxmax` on an empty table. */
  function GeographyRule(t: Table): (r: Result<seq<Insight>>)
    ensures r.Err? <==> GeographyFails(t)
    ensures r.Ok? ==> |r.value| == (if State in t.columns then 1 else 0)
    ensures r.Ok? ==> forall x :: x in r.value ==>
              x.Geography? && IsFirstMax(StateGroups(t), x.top, false)
  {
    if State !in t.columns then Ok([])
    else if Sales !in t.columns then Err(MissingColumn(ColumnName(Sales)))
    else
      GroupSumMeaning(t.rows, [State], Sales);
      if |StateGroups(t)| == 0 then
        assert |t.rows| == 0;
        Err(EmptyArgmax)
      else
        assert |t.rows| > 0 by {
          assert StateGroups(t)[0].key in KeysOf(StateGroups(t));
        }
        Ok([Geography(IdxMax(StateGroups(t), false))])
  }

  /** The insight list: the rules run in order, and the first exception
      raised ends the function. */
  function BusinessInsights(t: Table): (r: Result<seq<Insight>>)
    ensures r.Err? <==> TrendFails(t) || GeographyFails(t)
  {
    match TrendRule(t)
    case Err(e) => Err(e)
    case Ok(trend) =>
      match GeographyRule(t)
      case Err(e) => Err(e)
      case Ok(geo) => Ok(trend + ProfitabilityRule(t) + geo)
  }

  /** What each emitted insight says about the table. */
  predicate Justified(t: Table, x: Insight)
  {
    match x
    case SalesTrend(peak) => IsFirstMax(MonthGroups(t), peak, true)
    case Profitability(losses) => losses == LossMakers(t) && |losses| > 0
    case Geography(top) => IsFirstMax(StateGroups(t), top, false)
  }

  /** The three rule outputs, each of at most one insight of its own kind. */
  predicate RuleParts(trend: seq<Insight>, profit: seq<Insight>, geo: seq<Insight>)
  {
    && |trend| <= 1 && |profit| <= 1 && |geo| <= 1
    && (forall x :: x in trend ==> x.SalesTrend?)
    && (forall x :: x in profit ==> x.Profitability?)
    && (forall x :: x in geo ==> x.Geography?)
  }

  lemma Assembled(trend: seq<Insight>, profit: seq<Insight>, geo: seq<Insight>)
    requires RuleParts(trend, profit, geo)
    ensures var s := trend + profit + geo;
            && (forall i, j :: 0 <= i < j < |s| ==> Topic(s[i]) < Topic(s[j]))
            && ((exists x :: x in s && x.SalesTrend?) <==> |trend| == 1)
            && ((exists x :: x in s && x.Profitability?) <==> |profit| == 1)
            && ((exists x :: x in s && x.Geography?) <==> |geo| == 1)
            && (forall x :: x in s <==> x in trend || x in profit || x in geo)
  {
    var s := trend + profit + geo;
    forall i | 0 <= i < |s|
      ensures Topic(s[i]) == (if i < |trend| then 0 else if i < |trend| + |profit| then 1 else 2)
    {
      if i < |trend| {
        assert s[i] == trend[i] && trend[i] in trend;
      } else if i < |trend| + |profit| {
        assert s[i] == profit[i - |trend|] && profit[i - |trend|] in profit;
      } else {
        assert s[i] == geo[i - |trend| - |profit|] && geo[i - |trend| - |profit|] in geo;
      }
    }
    if |trend| == 1 { assert s[0] == trend[0]; }
    if |profit| == 1 { assert s[|trend|] == profit[0]; }
    if |geo| == 1 { assert s[|trend| + |profit|] == geo[0]; }
  }

  /** Insights come out in rule order, at most one per rule. */
  lemma InsightsInRuleOrder(t: Table)
    requires BusinessInsights(t).Ok?
    ensures var s := BusinessInsights(t).value;
            forall i, j :: 0 <= i < j < |s| ==> Topic(s[i]) < Topic(s[j])
  {
    Assembled(TrendRule(t).value, ProfitabilityRule(t), GeographyRule(t).value);
  }

  /** Each rule contributes an insight exactly when its condition holds. */
  lemma InsightsPresence(t: Table)
    requires BusinessInsights(t).Ok?
    ensures var s := BusinessInsights(t).value;
            && ((exists x :: x in s && x.SalesTrend?) <==> Month in t.columns)
            && ((exists x :: x in s && x.Profitability?) <==>
                  SubCategory in t.columns && Profit in t.columns &&
                  exists g :: g in SubCategoryGroups(t) && g.total < 0.0)
            && ((exists x :: x in s && x.Geography?) <==> State in t.columns)
  {
    Assembled(TrendRule(t).value, ProfitabilityRule(t), GeographyRule(t).value);
  }

  /** Every insight is justified by the grouped data. */
  lemma InsightsJustified(t: Table)
    requires BusinessInsights(t).Ok?
    ensures forall x :: x in BusinessInsights(t).value ==> Justified(t, x)
  {
    Assembled(TrendRule(t).value, ProfitabilityRule(t), GeographyRule(t).value);
  }
}
