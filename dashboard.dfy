/** One pass of the page: the sidebar selection filters the table, and every
    figure and series on the page is computed from the filtered view. */
module Dashboard {
  import opened Orders
  import opened Filtering
  import opened Grouping
  import opened Kpis
  import opened Charts

  /** Everything the page displays, in a form any renderer can draw. */
  datatype Summary = Summary(
    recordCount: nat,
    totalRevenue: int,
    totalCustomers: nat,
    averageOrderValue: Option<real>,
    repeatCustomers: nat,
    repeatPercentage: real,
    topCategories: seq<Group>,
    monthlyRevenue: seq<Group>,
    regionDistribution: seq<Group>)

  /** The figures of the page for one sidebar selection. */
  function Summarize(data: seq<Order>, regions: set<string>, genders: set<string>): Summary {
    var view := FilterOrders(data, regions, genders);
    Summary(
      |view|,
      TotalRevenue(view),
      TotalCustomers(view),
      AverageOrderValue(view),
      RepeatCustomers(view),
      RepeatPercentage(view),
      TopCategories(view),
      MonthlyRevenue(view),
      RegionDistribution(view))
  }

  /** The headline figures agree with each other for every selection: the
      view is no larger than the table, revenue is recomputable from the
      table, customers are at most the orders and repeat customers at most
      the customers, and the average is absent exactly for an empty view. */
  lemma SummaryKpisConsistent(data: seq<Order>, regions: set<string>, genders: set<string>)
    ensures Summarize(data, regions, genders).recordCount <= |data|
    ensures Summarize(data, regions, genders).totalRevenue == SelectedRevenue(data, regions, genders)
    ensures Summarize(data, regions, genders).totalCustomers + Summarize(data, regions, genders).repeatCustomers
         <= Summarize(data, regions, genders).recordCount
    ensures Summarize(data, regions, genders).repeatCustomers <= Summarize(data, regions, genders).totalCustomers
    ensures Summarize(data, regions, genders).averageOrderValue.None?
        <==> Summarize(data, regions, genders).recordCount == 0
  {
    RevenueOfFilter(data, regions, genders);
    RepeatCustomersBound(FilterOrders(data, regions, genders));
  }

  /** The chart series agree with the headline figures for every selection:
      at most five categories, months adding up to the revenue, and region
      counts adding up to the number of orders in the view. */
  lemma SummarySeriesConsistent(data: seq<Order>, regions: set<string>, genders: set<string>)
    ensures |Summarize(data, regions, genders).topCategories| <= 5
    ensures SumValues(Summarize(data, regions, genders).monthlyRevenue) == Summarize(data, regions, genders).totalRevenue
    ensures SumValues(Summarize(data, regions, genders).regionDistribution) == Summarize(data, regions, genders).recordCount
  {
    var view := FilterOrders(data, regions, genders);
    TopCategoriesShape(view);
    MonthlyRevenueFacts(view);
    RegionDistributionFacts(view);
  }

  /** With nothing selected in either box the page shows an empty view: zero
      revenue, no customers, no average (the NaN case), a 0% repeat share,
      and empty series. */
  lemma EmptySelection(data: seq<Order>, regions: set<string>, genders: set<string>)
    requires regions == {} || genders == {}
    ensures Summarize(data, regions, genders) == Summary(0, 0, 0, None, 0, 0.0, [], [], [])
  {
    FilterEmptySelection(data, regions, genders);
    assert KeysOf([], CustomerColumn) == {};
  }

  /** The choices each sidebar box offers, and selects by default:
      `unique()` of its column. */
  function RegionOptions(data: seq<Order>): set<string> {
    KeysOf(data, RegionColumn)
  }

  function GenderOptions(data: seq<Order>): set<string> {
    KeysOf(data, GenderColumn)
  }

  /** With the default selection the view is the whole table. */
  lemma DefaultSelectionKeepsAll(data: seq<Order>)
    ensures FilterOrders(data, RegionOptions(data), GenderOptions(data)) == data
  {
    FilterAllSelected(data, RegionOptions(data), GenderOptions(data));
  }
}
