# Business analytics core in Dafny

This project models the data-handling core of two pandas analysis scripts.
Each operation is a pure Dafny function over immutable tables. The
properties proved are the contracts listed under "Model"; "Left out" names
what the model does not cover or states more weakly than the code does.

- **Superstore sales analysis** (`01_superstore_sales/sales_analysis.py`):
  - `clean_and_prepare_data`: removes duplicate rows and derives `Profit Margin`, `Year`, `Month` and `Quarter`.
  - The grouped series behind the four charts:
    - monthly sales;
    - profit by category and sub-category;
    - the top-N states by sales;
    - the per-category metrics table.
  - `calculate_key_metrics`.
  - The three rules of `generate_business_insights`:
    - the peak month;
    - the loss-making sub-categories;
    - the top state.
- **Telco churn analysis** (`02_telco_churn/churn_analysis.py`):
  - `clean_data`:
    - coerces `TotalCharges` with `pd.to_numeric(errors='coerce')`;
    - applies `dropna()`;
    - maps `Churn` to 1 for "Yes" and 0 otherwise.
  - The data preparation of `train_churn_model`:
    - `get_dummies(drop_first=True)`;
    - the `customerID` drop;
    - the X / y split.
  - `accuracy_score`.

Modules, in dependency order:

| file | module | what it holds |
|---|---|---|
| common.dfy | Common | `Option`, `Result`, the `Error` kinds, and `Quotient`. A pandas division yields a finite value, or inf/NaN when the divisor is 0. |
| order.dfy | Order | Group keys (tuples of text or integer atoms) and their lexicographic order. Also the sorted distinct levels `get_dummies` uses. |
| grouping.dfy | Grouping | `groupby(...).sum()` / `count()` as a fold over rows. Includes a per-key reference definition over the input rows. |
| ranking.dfy | Ranking | On a grouped series: `sort_values`, `head`, `idxmax`, and the filter `s[s < 0]`. |
| sales_data.dfy | SalesData | The sales table and `drop_duplicates`. Also `clean_and_prepare_data`. |
| sales_reports.dfy | SalesReports | The grouped series of the four charts, the category metrics, and `calculate_key_metrics`. |
| insights.dfy | Insights | `generate_business_insights`. |
| number_text.dfy | NumberText | The text-to-number reading of `pd.to_numeric`. |
| frames.dfy | Frames | The churn DataFrame as named columns. Also `dropna()`. |
| churn_clean.dfy | ChurnClean | `clean_data`. |
| churn_features.dfy | ChurnFeatures | `get_dummies`, the column drops, the X / y split, and `accuracy_score`. |

Some conditions are outcomes of the source rather than crashes:

- `df is None` returns `None`. This is `Option.None`.
- A function that returns early when a column is absent gives `Report.Skipped`.
- A `KeyError` on an unguarded column access is `Err(MissingColumn(name))`.
- `idxmax` of an empty series is `Err(EmptyArgmax)`.
- `accuracy_score` on arrays of different lengths is `Err(InconsistentLengths)`.

Three behaviours of the code, and how the model treats them:

- **Zero divisor.** The code divides without a guard, so pandas yields inf or NaN. The model yields `Quotient.NonFinite` for both.
- **Ties in `sort_values`.** The code uses pandas' default quicksort, which leaves the order of equal totals unspecified. The model keeps ties in key order, and its contracts state only the order of totals and the permutation.
- **Empty table after cleaning.** The code carries on with an empty table and does not report it separately. The model does the same.

## Model

| member | source | states |
|---|---|---|
| Common.Divide | 01_superstore_sales/sales_analysis.py:60 | A division is finite exactly when the divisor is non-zero, and then it times the divisor gives back the dividend |
| SalesData.QuarterOf | 01_superstore_sales/sales_analysis.py:66 | `dt.quarter` is the quarter 1..4 whose three months contain the month |
| SalesData.DropDuplicates | 01_superstore_sales/sales_analysis.py:56 | `drop_duplicates` keeps exactly the distinct rows, each once, in order of first occurrence, and never adds rows |
| SalesData.DropDuplicatesIdempotent | 01_superstore_sales/sales_analysis.py:56 | Dropping duplicates twice changes nothing more |
| SalesData.DropDuplicatesOfDistinct | 01_superstore_sales/sales_analysis.py:56 | A table without duplicate rows is left unchanged |
| SalesData.DeriveRowMeaning | 01_superstore_sales/sales_analysis.py:58-66 | The derived row has Profit/Sales as its margin, inf/NaN when Sales is 0, and year, month and quarter from the order date. Every other column is untouched, and exactly the derived columns are added to the row's columns |
| SalesData.CleanAndPrepare | 01_superstore_sales/sales_analysis.py:52-71 | The result has the input's columns, plus Profit Margin when Profit and Sales exist, plus Year/Month/Quarter when Order Date exists. Row i is the i-th distinct input row with those columns derived |
| SalesData.CleanAndPrepareData | 01_superstore_sales/sales_analysis.py:44-47 | `None` passes through. Otherwise the result is the cleaned and prepared table, well formed and with no more rows than the input |
| Grouping.GroupBy | 01_superstore_sales/sales_analysis.py:81 | One entry per distinct key, in strictly ascending key order. Each entry's total and count equal the sum and number of the input values with that key. The totals add up to the sum of all values |
| Grouping.GroupEntries | 01_superstore_sales/sales_analysis.py:81 | Every listed entry carries the reference sum and count of its key |
| Grouping.GroupCount | 01_superstore_sales/sales_analysis.py:81 | There are exactly as many entries as distinct input keys |
| SalesReports.GroupSumMeaning | 01_superstore_sales/sales_analysis.py:81 | Grouping table rows by columns and summing a money column gives ascending keys, namely those in the rows, with per-key sums and counts. The totals add up to the column sum and the counts to the number of rows |
| SalesReports.PairsTotal | 01_superstore_sales/sales_analysis.py:219 | Summing the measured values of all rows gives the column's `sum()` |
| SalesReports.MonthlySales | 01_superstore_sales/sales_analysis.py:76-81 | Skipped exactly without Year. It raises exactly when Month or Sales is missing. Otherwise it gives the per-(Year, Month) sales sums over exactly the observed pairs, which add up to total sales |
| SalesReports.ProfitByCategory | 01_superstore_sales/sales_analysis.py:106-112 | Skipped exactly without Category or Sub-Category. It raises exactly without Profit. Otherwise it gives the profit sum of each observed (Category, Sub-Category) pair |
| SalesReports.TopStates | 01_superstore_sales/sales_analysis.py:128-133 | Skipped exactly without State, and raises without Sales. Otherwise it gives min(top_n, number of states) entries with totals non-increasing. They are a sub-multiset of the per-state sums, with no state twice. No state left out sells more than one kept |
| Ranking.SortValues | 01_superstore_sales/sales_analysis.py:133 | `sort_values` gives a permutation of the series ordered by total, ascending or descending |
| Ranking.Head | 01_superstore_sales/sales_analysis.py:133 | `head(n)` is a prefix of length min(n, size), or all but the last -n entries for negative n |
| Ranking.TopNKeepsTheLargest | 01_superstore_sales/sales_analysis.py:133 | After sort-descending-then-head, every entry left out has a total at most that of every entry kept |
| Ranking.TopNDescending | 01_superstore_sales/sales_analysis.py:133 | The kept entries are in non-increasing order of total |
| Ranking.TopNDistinct | 01_superstore_sales/sales_analysis.py:133 | Sort-then-truncate of a series with distinct keys keeps a sub-multiset of its entries, no key twice |
| Ranking.SortKeepsDistinct | 01_superstore_sales/sales_analysis.py:133 | Sorting a series with distinct keys keeps them distinct |
| Ranking.AscendingDistinct | 01_superstore_sales/sales_analysis.py:133 | A grouped series, ascending by key, has no key twice |
| SalesReports.CategoryPerformance | 01_superstore_sales/sales_analysis.py:153-167 | Skipped exactly without Category. It raises exactly when Sales, Profit or Order ID is missing. Otherwise it gives one row per observed category in ascending order, with summed sales and profit, the number of rows as order count, and margin % = 100 × profit / sales. The order counts add up to the number of rows |
| SalesReports.CategoryRowsMeaning | 01_superstore_sales/sales_analysis.py:158-167 | The metrics rows built from the two groupings have each category's sales sum, profit sum, order count and margin, one row per observed category |
| SalesReports.CategoryRows | 01_superstore_sales/sales_analysis.py:158-167 | Joining the sales and profit groupings keeps one row per sales group. Each row carries the profit the profit grouping has for its key, and the order counts add up |
| SalesReports.CalculateKeyMetrics | 01_superstore_sales/sales_analysis.py:219-233 | Raises exactly without Sales or Profit. Total orders is the number of distinct order ids, or of rows when there is no Order ID column. It is 0 exactly for an empty table and never above the row count. The average order value is finite exactly for a non-empty table and times total orders gives total sales. Unique customers are reported exactly when Customer ID exists, and are then the number of distinct customer ids |
| SalesReports.CategorySalesAddUp | 01_superstore_sales/sales_analysis.py:158-162 | The categories' total sales add up to the overall total sales of `calculate_key_metrics` |
| SalesReports.DistinctValuesBounds | 01_superstore_sales/sales_analysis.py:221 | `nunique()` is at most the number of rows and at least 1 for a non-empty column |
| Ranking.FirstMax | 01_superstore_sales/sales_analysis.py:252 | `idxmax` is the first position holding the maximum |
| Insights.IdxMax | 01_superstore_sales/sales_analysis.py:251-252 | The chosen group has the highest mean (or total), and every earlier group has a strictly lower one |
| Ranking.NegativesExactly | 01_superstore_sales/sales_analysis.py:259 | `s[s < 0]` keeps exactly the entries with negative totals, with their multiplicity |
| Ranking.NegativesKeepOrder | 01_superstore_sales/sales_analysis.py:258-259 | Filtering a sorted series leaves it sorted |
| Insights.LossMakers | 01_superstore_sales/sales_analysis.py:258-259 | The loss makers are exactly the sub-categories with negative profit, each once, in ascending order of profit |
| Insights.TrendRule | 01_superstore_sales/sales_analysis.py:250-254 | Raises exactly when Month exists and Sales is missing or the table is empty. Otherwise it gives one insight exactly when Month exists, naming the first month with the highest mean sale |
| Insights.TrendPeakIsEarliestMonth | 01_superstore_sales/sales_analysis.py:251-252 | When several months share the highest mean sale, the earliest month number is reported |
| Insights.ProfitabilityRule | 01_superstore_sales/sales_analysis.py:257-263 | At most one insight. It appears exactly when Sub-Category and Profit exist and some sub-category loses money, and it lists the loss makers |
| Insights.GeographyRule | 01_superstore_sales/sales_analysis.py:266-269 | Raises exactly when State exists and Sales is missing or the table is empty. Otherwise it gives one insight exactly when State exists, naming the first state with the highest sales |
| Insights.BusinessInsights | 01_superstore_sales/sales_analysis.py:247-269 | The insight list fails exactly when the trend or geography rule raises |
| Insights.InsightsInRuleOrder | 01_superstore_sales/sales_analysis.py:247-269 | The insights appear in the order trends, profitability, geography, each at most once |
| Insights.InsightsPresence | 01_superstore_sales/sales_analysis.py:250-269 | Each kind of insight is present exactly when its guard holds (for profitability, also when a loss maker exists) |
| Insights.InsightsJustified | 01_superstore_sales/sales_analysis.py:250-269 | Every insight reported is backed by the data: a true peak month, the exact loss makers, a true top state |
| Insights.NegativesOfSorted | 01_superstore_sales/sales_analysis.py:258-259 | The negative part of a sorted grouping holds each negative entry once, ascending |
| NumberText.ParseNatText | 02_telco_churn/churn_analysis.py:40 | The decimal text of a natural number reads back as that number |
| NumberText.PlainDecimal | 02_telco_churn/churn_analysis.py:40 | "<digits>.<digits>" reads as its whole part plus its fraction |
| NumberText.TwoDigitFraction | 02_telco_churn/churn_analysis.py:40 | Two digits after the point denote hundredths |
| NumberText.ParseNumber | 02_telco_churn/churn_analysis.py:40 | A blank string, such as the " " entries of TotalCharges, is not a number and so is coerced to missing. Every string read as a number contains a digit |
| NumberText.SpacesIgnored | 02_telco_churn/churn_analysis.py:40 | Surrounding white space does not change what a string reads as |
| ChurnClean.ToNumeric | 02_telco_churn/churn_analysis.py:40 | The coerced column is numeric and as long as the input. Each cell is its coercion: numbers stay, text reads as its number or becomes missing |
| ChurnClean.Coerced | 02_telco_churn/churn_analysis.py:40 | Only the TotalCharges column changes, to its numeric coercion. Names, height and the other columns stay |
| Frames.DropNA | 02_telco_churn/churn_analysis.py:41 | `dropna()` keeps the same columns and dtypes. It keeps the rows with no missing cell, in order, with their values, and never adds rows |
| Frames.DropNAComplete | 02_telco_churn/churn_analysis.py:41 | No row left by `dropna()` has a missing cell |
| Frames.DropNAIdempotent | 02_telco_churn/churn_analysis.py:41 | `dropna()` applied twice removes nothing more |
| Frames.CompleteRows | 02_telco_churn/churn_analysis.py:41 | The kept row positions are strictly increasing, all complete, and include every complete row |
| Frames.StrictlyIncreasingBound | 02_telco_churn/churn_analysis.py:41 | Hence `dropna()` keeps at most as many rows as the input has |
| Frames.IndexOfFinds | 02_telco_churn/churn_analysis.py:40-42 | `df[name]` finds a column exactly when the name is among the columns |
| ChurnClean.EncodeChurn | 02_telco_churn/churn_analysis.py:42 | The new Churn column is numeric, as long as before, 1 where the answer was "Yes" and 0 elsewhere |
| ChurnClean.CleanData | 02_telco_churn/churn_analysis.py:34-44 | `clean_data` fails exactly when TotalCharges or Churn is missing, with a KeyError on TotalCharges first |
| ChurnClean.CleanDataOpt | 02_telco_churn/churn_analysis.py:36-37 | `clean_data(None)` is `None` |
| ChurnClean.KeptExactlySurvivors | 02_telco_churn/churn_analysis.py:40-41 | A row is kept exactly when none of its cells is missing once TotalCharges is coerced, and kept rows stay in order |
| ChurnClean.CleanDataShape | 02_telco_churn/churn_analysis.py:40-42 | The cleaned frame has the same columns and no more rows, no missing value, and numeric TotalCharges and Churn |
| ChurnClean.CleanDataLabels | 02_telco_churn/churn_analysis.py:42 | Each cleaned Churn cell is 1 exactly when the original answer in that row was "Yes", and 0 otherwise |
| ChurnClean.CleanDataValues | 02_telco_churn/churn_analysis.py:40-41 | Every other column carries the original values of the kept rows, and TotalCharges carries their coercion |
| Order.Levels | 02_telco_churn/churn_analysis.py:86 | The levels of a column are its distinct present values in strictly ascending order |
| ChurnFeatures.Present | 02_telco_churn/churn_analysis.py:86 | The present values are exactly the non-missing cells |
| ChurnFeatures.IndicatorMeaning | 02_telco_churn/churn_analysis.py:86 | A dummy column holds 1 exactly where the cell equals its level, 0 elsewhere |
| ChurnFeatures.DummiesExclusive | 02_telco_churn/churn_analysis.py:86 | No row has 1 in two dummy columns of the same text column |
| ChurnFeatures.DummiesDecode | 02_telco_churn/churn_analysis.py:86 | The dummy columns determine the value: the hot column's level, or the dropped first level when none is hot, is the original cell |
| ChurnFeatures.DummiesCount | 02_telco_churn/churn_analysis.py:86 | A text column with d distinct values gives d - 1 dummy columns |
| ChurnFeatures.GetDummies | 02_telco_churn/churn_analysis.py:86 | `get_dummies` keeps the height and gives only numeric columns. Every numeric input column is carried over, and every other output column is a dummy of some text column. Every dummy of every text column is in the output. Columns named customerID or Churn come only from carried-over input columns |
| ChurnFeatures.GetDummiesWidth | 02_telco_churn/churn_analysis.py:86 | The encoded frame has one column per numeric column plus, for each text column, one per distinct value but the first |
| ChurnFeatures.Passed | 02_telco_churn/churn_analysis.py:86 | Exactly the numeric columns pass through `get_dummies` unchanged |
| ChurnFeatures.GetDummiesShape | 02_telco_churn/churn_analysis.py:86 | Encoding a well-formed frame gives a well-formed frame: every dummy is as tall as its column |
| ChurnFeatures.CustomerIdSurvivesIffNumeric | 02_telco_churn/churn_analysis.py:86-87 | After encoding, a column named customerID exists exactly when the input had a numeric customerID column |
| ChurnFeatures.DropColumn | 02_telco_churn/churn_analysis.py:88 | `drop(name, axis=1)` removes exactly the columns with that name |
| ChurnFeatures.PrepareFeatures | 02_telco_churn/churn_analysis.py:86-91 | The split raises a KeyError on Churn exactly when the table has no numeric Churn column, since a text Churn is encoded into Churn_<level> dummies. Otherwise X has the table's height and y is numeric |
| ChurnFeatures.PrepareFeaturesSplit | 02_telco_churn/churn_analysis.py:86-91 | X holds exactly the encoded columns not named Churn or customerID. y is the data of a numeric Churn column of the input, and of the only one when there is one |
| ChurnFeatures.PrepareFeaturesShape | 02_telco_churn/churn_analysis.py:86-91 | For a well-formed table, X is well formed and y has as many entries as X and the table have rows |
| ChurnFeatures.PrepareFeaturesOpt | 02_telco_churn/churn_analysis.py:81-82 | `train_churn_model(None)` is `None` |
| ChurnFeatures.IdentifierLeaks | 02_telco_churn/churn_analysis.py:86-88 | As written, a text customerID column with two or more ids puts the dummy column of its second id into X |
| ChurnFeatures.WrittenDependsOnIdentifier | 02_telco_churn/churn_analysis.py:86-88 | As written, two tables that differ only in a customer's id get different feature columns, each named after the id |
| ChurnFeatures.PrepareFeaturesIntended | 02_telco_churn/churn_analysis.py:86-91 | With the identifier dropped before encoding, the split fails exactly when the written one does. On success X has no customerID and no Churn column, and y is numeric |
| ChurnFeatures.IntendedIgnoresIdentifier | 02_telco_churn/churn_analysis.py:86-88 | Dropping the identifier before encoding makes X and y independent of the ids |
| ChurnFeatures.WrittenAgreesWithoutTextIdentifier | 02_telco_churn/churn_analysis.py:86-88 | When customerID is absent or numeric, the written preparation gives the same X and y as the intended one |
| ChurnFeatures.Matches | 02_telco_churn/churn_analysis.py:99 | The match count is the number of positions where truth and prediction agree |
| ChurnFeatures.Accuracy | 02_telco_churn/churn_analysis.py:99 | Arrays of different lengths are rejected. The score is defined exactly for non-empty arrays, lies between 0 and 1, and times the length gives the number of agreeing positions |
| ChurnFeatures.AccuracyExtremes | 02_telco_churn/churn_analysis.py:99 | Accuracy is 1 exactly when every prediction is right, and 0 exactly when every one is wrong |
| ChurnFeatures.AccuracySymmetric | 02_telco_churn/churn_analysis.py:99 | Swapping truth and prediction does not change the score |

## Left out

- Reading the CSV files, printing, and all plotting (matplotlib/seaborn) are I/O. The `main` drivers and `visualize_churn` are left out for the same reason. The charts' input series are modelled.
- `pd.to_datetime`: order dates arrive already parsed as valid calendar dates. The text formats pandas accepts are not modelled.
- `.round(2)` in the category metrics: a decimal rounding of floating-point values. The model keeps exact sums and ratios.
- Floating point: money is `real`, so sums are exact and never overflow. The model has no NaN in Sales or Profit, and inf and NaN are one `NonFinite` value.
- `train_test_split`, `LogisticRegression.fit` / `predict` and `classification_report` are randomised or numeric library code. Accuracy takes the predictions as input.
- `unstack()` only reshapes the (Category, Sub-Category) sums into a matrix. Those sums are modelled.
- The in-place mutation of the caller's DataFrame (`inplace=True`, column assignment) is not modelled. Each function returns a new table instead.
- Columns other than those the scripts use are opaque in the sales table. In the churn frame, every column is modelled.
- Ranking.SortValues: ties between equal totals are kept in key order. pandas' default quicksort does not promise any tie order, so the contracts state only the order of totals and the permutation.
- SalesReports.KeyAtom: a missing text or integer key reads as "" or 0, so rows with a missing key form one group. pandas drops such rows from `groupby`. This never arises for the columns the scripts group by, and the model does not treat it separately.
- NumberText.ParseNumber: values are exact reals with no double range. Text beyond that range, such as "1e400", reads as a finite number. pandas reports a range error for it and coerces the cell to missing, so `dropna()` drops a row that the model keeps. Of the other spellings, only "inf" and "infinity" differ: pandas reads them, in any case and with an optional sign, as infinite, while the model reads them as not a number. Both reject digit-group underscores and hexadecimal forms, and both read "nan" as missing.
- ChurnFeatures.GetDummies: dummy columns whose generated names collide with an existing column are not disambiguated. Neither is a frame with two columns of the same name.
- The unguarded `df['Sales']` KeyError paths in `calculate_key_metrics` and the insight rules are modelled as `Err`. The `idxmax` ValueError on an empty series is `Err(EmptyArgmax)`.

## Findings

| source | as written | input that shows it | evidently intended | confidence | as-written member | corrected member |
|---|---|---|---|---|---|---|
| 02_telco_churn/churn_analysis.py:86-88 | `customerID` is a text column, so `get_dummies` replaces it with `customerID_<id>` columns. The test for a `customerID` column then fails, so nothing is dropped and the ids become model features | A frame with `customerID` = ["A", "B"] and numeric `Churn` = [1, 0] gives X the single column `customerID_B` | The identifier is removed before encoding, so X does not depend on customer ids | high; not executed | ChurnFeatures.WrittenDependsOnIdentifier | ChurnFeatures.IntendedIgnoresIdentifier |
