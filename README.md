# Customer purchase behaviour dashboard: the order-analytics core in Dafny

The dashboard in `app.py` builds a fixed table of fifteen orders. It adds two
derived columns, `TotalAmount` and `Month`. It then keeps the rows whose region
and gender are selected in two sidebar boxes. From that filtered view it shows
four headline figures: total revenue, distinct customers, average order value
and the share of repeat customers. It also shows three series: the five
best-selling categories, revenue per month and the number of orders per region.

This project models that pipeline as pure functions over `seq<Order>` and
proves what each step promises. The modules follow the pipeline:

- `Text` (`text.dfy`): Python's string ordering, which pandas uses to sort
  group labels, and the zero-padded digit strings of a `"YYYY-MM"` period.
- `Orders` (`orders.dfy`): the order record, its two derived columns, the
  revenue sum and the fifteen-row table.
- `Filtering` (`filtering.dfy`): the region/gender row mask.
- `Grouping` (`grouping.dfy`): `groupby(column)` reduced by `sum()` of
  `TotalAmount` or by `size()`. It is modelled as a fold that inserts each row
  into a list of groups kept in ascending label order, which is pandas'
  default `sort=True`.
- `Kpis` (`kpis.dfy`): the four headline figures.
- `Charts` (`charts.dfy`): sorting by value (descending), `head(5)`, and the
  three chart series.
- `Dashboard` (`dashboard.dfy`): one pass of the page for a given selection,
  as a `Summary` value.
- `SampleData` (`sample.dfy`): the figures the page shows for the built-in
  table, both with the default selection and with only the North region.

The sidebar selections are plain sets of strings. By default each box selects
every value present in its column (`unique()`). The average order value is an
`Option<real>`: `None` stands for pandas' NaN on an empty view. The repeat
share is an exact `real`.

With only the North region selected, the code keeps four orders: 1001, 1004,
1007 and 1012 (revenue 960). The model follows the code, and
`SampleData.SampleNorthView` proves four.

## Model

| member | source | states |
|---|---|---|
| Text.Less | app.py:58-67 | Python's `str` `<`, which orders the group labels: the first differing character decides, and a proper prefix sorts first. Its order laws are stated by the four `Text` lemmas below. |
| Text.LessIrreflexive | app.py:67 | No label sorts strictly before itself under Python's string order. |
| Text.LessTransitive | app.py:67 | Python's string order is transitive. |
| Text.LessTotal | app.py:67 | Of two different labels, one sorts strictly before the other, so sorted group labels have one defined order. |
| Text.LessIsNumericOrder | app.py:29 | For digit strings of equal length, string order is the order of the numbers they spell. |
| Text.Pad2 | app.py:29 | Writes a month as exactly two digits whose decimal value is the month. |
| Text.Pad4 | app.py:29 | Writes a year as exactly four digits whose decimal value is the year. |
| Orders.Dataset | app.py:11-26 | The inline sample table, column by column: fifteen orders with their IDs, customers, dates, genders, regions, categories, quantities and unit prices. Its figures are stated by the `SampleData` lemmas. |
| Orders.TotalAmount | app.py:28 | The derived `TotalAmount` column: quantity times unit price of one order. `Kpis.RevenueOfFilter` and `SampleData.SampleRevenue` state what it adds up to. |
| Orders.Month | app.py:29 | The derived `Month` column: the order date's monthly period written as `"YYYY-MM"`. Its meaning is stated by the `Orders.MonthKey*` lemmas. |
| Orders.TotalRevenue | app.py:39 | The sum of `TotalAmount` over some rows, 0 for none. Stated by `Kpis.TotalRevenueAppend` and `Kpis.RevenueOfFilter`. |
| Orders.MonthKey | app.py:29 | The `Month` period string has seven characters: four digits, a dash, two digits. |
| Orders.MonthKeyRoundTrip | app.py:29 | Parsing the period string gives back the order's year and month. |
| Orders.MonthKeyIdentifiesMonth | app.py:29 | Two orders share a `Month` value exactly when they share year and month; the day plays no part. |
| Orders.MonthKeyOrderIsChronological | app.py:29 | One `Month` value sorts before another exactly when its year/month is earlier. |
| Filtering.Selected | app.py:36 | The row mask: a row is kept when its region is selected and its gender is selected. `Filtering.FilterOrdersFacts` states the view it produces. |
| Filtering.FilterOrders | app.py:36 | The filtered view is never longer than the table. |
| Filtering.FilterOrdersFacts | app.py:36 | The view keeps the table's order. It holds exactly the rows whose region and gender are both selected, each as often as in the table. |
| Filtering.FilterEmptySelection | app.py:36 | An empty region or gender selection gives an empty view. |
| Filtering.FilterAllSelected | app.py:33-36 | When every row is selected, the view is the whole table. |
| Filtering.FilterIdempotent | app.py:36 | Filtering the view again with the same selection changes nothing. |
| Grouping.GroupBy | app.py:42-76 | `groupby(column)` reduced by `sum()` of `TotalAmount` or by `size()`. Its result is stated by `Grouping.GroupByFacts` and `Grouping.GroupValues`. |
| Grouping.Select | app.py:42 | The rows picked for one label are exactly the rows carrying that label. |
| Grouping.GroupByFacts | app.py:42 | `groupby` gives labels in strictly ascending order, one per value in the column and no other. Each group's value is the sum or count of that label's rows, and the values add up to the total of all rows. |
| Grouping.GroupValues | app.py:58 | Every group's label occurs in the column, and its value is the sum or count over exactly the rows with that label. |
| Grouping.SizeGroupsPositive | app.py:42 | `groupby(...).size()` never reports an empty group. |
| Grouping.GroupKeysCount | app.py:58-76 | A series never has more labels than entries; when it has as many, no label repeats. |
| Kpis.RevenueOfFilter | app.py:28-39 | Total revenue of the view equals the sum of quantity times unit price over exactly the selected rows of the table. |
| Kpis.TotalRevenueAppend | app.py:39 | Revenue adds up over any split of the rows. |
| Kpis.TotalCustomers | app.py:40 | `nunique()` of the customer column: the number of distinct customer IDs in the view. Stated by `Kpis.TotalCustomersBound`. |
| Kpis.TotalCustomersBound | app.py:40 | Distinct customers are at most the orders, and equal the orders exactly when no customer ID appears twice. |
| Kpis.RepeatCustomers | app.py:42 | `groupby("CustomerID").size().gt(1).sum()`: the number of customer groups of more than one order. Stated by `Kpis.RepeatCustomersAreRepeatedIds`, `Kpis.RepeatCustomersBound` and `Kpis.NoRepeatCustomers`. |
| Kpis.RepeatCustomersAreRepeatedIds | app.py:42 | The repeat-customer count is the number of customer IDs that occur more than once. |
| Kpis.RepeatCustomersBound | app.py:42 | Repeat customers are at most the distinct customers. Distinct customers plus repeat customers are at most the orders. |
| Kpis.NoRepeatCustomers | app.py:42 | The repeat count is 0 exactly when no customer ID occurs twice. |
| Kpis.Percentage | app.py:43 | A share of a whole lies in [0, 100], is 0 when the whole is 0, and otherwise scales back to `part * 100`. |
| Kpis.RepeatPercentage | app.py:43 | The repeat share is 0 when there are no customers; otherwise it is `repeat * 100 / total`. It always lies in [0, 100]. |
| Kpis.AverageOrderValue | app.py:41 | The average is absent exactly for an empty view; otherwise it times the number of orders is the revenue. |
| Charts.InsertByValue | app.py:58 | Inserting a group into a non-increasing series keeps it non-increasing, adds exactly that group, and adds its value to the total. |
| Charts.SortByValueDesc | app.py:58 | `sort_values(ascending=False)` gives a non-increasing series holding exactly the same groups, with the same total. |
| Charts.Head | app.py:58 | `head(n)` keeps the first `min(n, length)` entries unchanged. |
| Charts.TopCategories | app.py:58 | Revenue per category, sorted largest first, cut to five. Stated by `Charts.TopCategoriesShape`, `Charts.TopCategoriesAreTop` and `Charts.TopCategoriesComplete`. |
| Charts.RankedCategories | app.py:58 | Before the cut, the ranked categories are non-increasing and distinct: one per category in the view, each with its own revenue. |
| Charts.TopCategoriesShape | app.py:58 | The top list has at most five entries, exactly `min(5, categories)` of them. They are distinct categories of the view, each with its own revenue, in non-increasing order. |
| Charts.TopCategoriesAreTop | app.py:58 | A category left out of the top list earns no more than any category kept in it. |
| Charts.TopCategoriesComplete | app.py:58 | With five categories or fewer, the top list keeps all of them, and its values add up to total revenue. |
| Charts.CategoryRevenuesSumToTotal | app.py:58 | Without the top-five cut, the per-category revenues add up to total revenue. |
| Charts.MonthlyRevenue | app.py:67 | Revenue per `Month` label, in ascending label order. Stated by `Charts.MonthlyRevenueFacts` and `Charts.MonthlyRevenueChronological`. |
| Charts.MonthlyRevenueFacts | app.py:67 | Monthly labels are strictly ascending, one per month present. Each value is that month's revenue, and the values add up to total revenue. |
| Charts.MonthlyRevenueChronological | app.py:29-67 | An earlier entry of the monthly series belongs to an earlier calendar month. |
| Charts.RegionDistribution | app.py:76 | `value_counts()` of the region column: orders per region, largest count first. Stated by `Charts.RegionDistributionFacts`. |
| Charts.RegionDistributionFacts | app.py:76 | `value_counts()` gives one entry per region present, in non-increasing order. Each entry counts that region's orders and is at least 1, and the counts add up to the number of orders in the view. |
| Dashboard.Summarize | app.py:36-76 | One pass of the page: filters the rows by the selection, then computes the four headline figures and the three series from the view. Stated by the `Dashboard` lemmas below and, for the sample table, by the `SampleData` lemmas. |
| Dashboard.SummaryKpisConsistent | app.py:36-43 | For every selection: the view is no larger than the table; revenue can be recomputed from the table; customers plus repeat customers are at most the orders; repeat customers are at most customers; the average is absent exactly for an empty view. |
| Dashboard.SummarySeriesConsistent | app.py:58-76 | For every selection: at most five top categories; monthly revenues add up to the headline revenue; region counts add up to the number of orders in the view. |
| Dashboard.EmptySelection | app.py:36-43 | An empty selection shows zero revenue, no customers, no average, a 0% repeat share and empty series. |
| Dashboard.RegionOptions | app.py:33 | The choices of the region box, and its default selection: every region present (`unique()`), as `Grouping.KeysOf` of the region column. |
| Dashboard.GenderOptions | app.py:34 | The choices of the gender box, and its default selection: every gender present (`unique()`), as `Grouping.KeysOf` of the gender column. |
| Dashboard.DefaultSelectionKeepsAll | app.py:33-36 | With the default selection (every value present), the view is the whole table. |
| SampleData.OrderIds | app.py:12 | Lists the order IDs of a view, one per row, in order. |
| SampleData.SampleRevenue | app.py:11-39 | The built-in table's total revenue is 3090. |
| SampleData.SampleCustomerIds | app.py:13-40 | The built-in table has 13 distinct customers, C001 to C013. |
| SampleData.SampleRepeatCustomers | app.py:13-42 | In the built-in table exactly C001 and C002 order more than once, so the repeat count is 2. |
| SampleData.SampleDefaultView | app.py:11-43 | The default selection keeps all 15 orders. Revenue is 3090, customers 13, average order value 206, repeat customers 2, repeat share 200/13 (about 15.4%). |
| SampleData.SampleNorthView | app.py:20-41 | North only keeps orders 1001, 1004, 1007 and 1012: four orders, revenue 960, average order value 240. |

## Left out

- Streamlit page setup, the sidebar widgets, metric formatting and the success banner (app.py:6-8, 32-34, 45-51, 81) are user interface. The two selections are plain input sets. The default selection is modelled as the set of values present (`RegionOptions`, `GenderOptions`).
- matplotlib/seaborn plotting (app.py:59-63, 68-73, 77-79) is presentation only. The model stops at the series each chart is drawn from.
- `pd.to_datetime` text parsing (app.py:14-18) is not modelled. Dates are (year, month, day) values, and years are limited to 0..9999 so that a year has four digits. The day is carried but no figure reads it.
- Floating point is not modelled. The mean and the repeat share are exact reals. NaN for an empty view is `None`. f-string rounding is not modelled.
- Integers are unbounded. pandas' int64 overflow of `Quantity * UnitPrice` and of sums is not modelled; the sample data stays far below it.
- Charts.SortByValueDesc: does not state which order groups with equal values come in, because pandas does not fix the tie order of `sort_values`. For the same reason, Charts.TopCategoriesAreTop states which values are kept at the cut, not which of several tied categories is kept.
- Summary.recordCount is the size of the filtered view. The page does not print it, but every figure is computed from that view.
- SampleData.SampleNorthView: states the order IDs, count, revenue and average of the North view. It does not state its customer figures.
