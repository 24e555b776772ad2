/** The sample table of fifteen orders run through the page: the figures the
    page shows for the default selection and for the North region alone.
    Each figure is established from a literal table of what it is on every
    suffix of the rows, so that every step stays small. */
module SampleData {
  import opened Orders
  import opened Filtering
  import opened Grouping
  import opened Kpis
  import opened Dashboard

  /** The order IDs of a view, in order. */
  function OrderIds(rs: seq<Order>): (ids: seq<int>)
    ensures |ids| == |rs|
    ensures forall i :: 0 <= i < |rs| ==> ids[i] == rs[i].orderId
  {
    if rs == [] then [] else [rs[0].orderId] + OrderIds(rs[1..])
  }

  /** Two different rows with one property make a selection of two or more. */
  lemma TwoMembers(s: seq<Order>, a: Order, b: Order)
    requires a in s && b in s && a != b
    ensures |s| >= 2
  {
  }

  /** The revenue of some rows from their suffix sums: `sums[i]` is the
      revenue of rows `i` onwards, so `sums[0]` is the revenue of all. */
  lemma {:induction false} RevenueBySuffixSums(s: seq<Order>, sums: seq<int>)
    requires |sums| == |s| + 1 && sums[|s|] == 0
    requires forall i :: 0 <= i < |s| ==> sums[i] == TotalAmount(s[i]) + sums[i + 1]
    ensures TotalRevenue(s) == sums[0]
  {
    if s != [] {
      RevenueBySuffixSums(s[1..], sums[1..]);
    }
  }

  lemma SampleRevenue()
    ensures TotalRevenue(Dataset) == 3090
  {
    RevenueBySuffixSums(Dataset, [3090, 2790, 2690, 2640, 2560, 2310, 2230, 2050, 1650, 1600, 1480, 1180, 780, 690, 500, 0]);
  }

  /** The view of some rows from the views of their suffixes: `ids[i]` and
      `revenues[i]` are the order IDs and the revenue of the view of rows `i`
      onwards, each growing by row `i` exactly when that row is selected. */
  lemma {:induction false} FilterBySuffixes(s: seq<Order>, regions: set<string>, genders: set<string>,
                                            ids: seq<seq<int>>, revenues: seq<int>, k: nat)
    requires k <= |s| && |ids| == |s| + 1 && |revenues| == |s| + 1 && ids[|s|] == [] && revenues[|s|] == 0
    requires forall i :: 0 <= i < |s| ==>
      if Selected(s[i], regions, genders)
      then ids[i] == [s[i].orderId] + ids[i + 1] && revenues[i] == TotalAmount(s[i]) + revenues[i + 1]
      else ids[i] == ids[i + 1] && revenues[i] == revenues[i + 1]
    ensures OrderIds(FilterOrders(s[k..], regions, genders)) == ids[k]
    ensures TotalRevenue(FilterOrders(s[k..], regions, genders)) == revenues[k]
    decreases |s| - k
  {
    if k < |s| {
      FilterBySuffixes(s, regions, genders, ids, revenues, k + 1);
      assert s[k..][1..] == s[k + 1..];
      if Selected(s[k], regions, genders) {
        var r := FilterOrders(s[k + 1..], regions, genders);
        assert ([s[k]] + r)[1..] == r;
      }
    }
  }

  /** The customer-ID column, row by row. */
  function CustomerColumnValues(rs: seq<Order>): seq<string> {
    if rs == [] then [] else [rs[0].customerId] + CustomerColumnValues(rs[1..])
  }

  lemma {:induction false} CustomerIdsOfColumn(rs: seq<Order>)
    ensures CustomerIds(rs) == set c | c in CustomerColumnValues(rs)
  {
    if rs != [] {
      CustomerIdsOfColumn(rs[1..]);
      assert rs == [rs[0]] + rs[1..];
      CustomerIdsCons(rs[0], rs[1..]);
    }
  }

  /** The customer-ID column of some rows, given entry by entry. */
  lemma {:induction false} CustomerColumnOf(s: seq<Order>, column: seq<string>)
    requires |column| == |s|
    requires forall i :: 0 <= i < |s| ==> column[i] == s[i].customerId
    ensures CustomerColumnValues(s) == column
  {
    if s != [] {
      CustomerColumnOf(s[1..], column[1..]);
      assert column == [column[0]] + column[1..];
    }
  }

  lemma SampleColumnSet(column: seq<string>)
    requires column == ["C001", "C002", "C003", "C001", "C004", "C005", "C006", "C007", "C008", "C002", "C009", "C010", "C011", "C012", "C013"]
    ensures (set c | c in column) == {"C001", "C002", "C003", "C004", "C005", "C006", "C007", "C008", "C009", "C010", "C011", "C012", "C013"}
    ensures |set c | c in column| == 13
  {
    var ids := {"C001", "C002", "C003", "C004", "C005", "C006", "C007", "C008", "C009", "C010", "C011", "C012", "C013"};
    forall x | x in column ensures x in ids {
      var k :| 0 <= k < |column| && column[k] == x;
    }
    assert |ids| == 13;
  }

  lemma SampleCustomerSet(rs: seq<Order>)
    requires CustomerColumnValues(rs) == ["C001", "C002", "C003", "C001", "C004", "C005", "C006", "C007", "C008", "C002", "C009", "C010", "C011", "C012", "C013"]
    ensures CustomerIds(rs) == {"C001", "C002", "C003", "C004", "C005", "C006", "C007", "C008", "C009", "C010", "C011", "C012", "C013"}
    ensures TotalCustomers(rs) == 13
  {
    CustomerIdsOfColumn(rs);
    SampleColumnSet(CustomerColumnValues(rs));
  }

  /** The sample data has 13 distinct customers. */
  lemma SampleCustomerIds()
    ensures CustomerIds(Dataset) == {"C001", "C002", "C003", "C004", "C005", "C006", "C007", "C008", "C009", "C010", "C011", "C012", "C013"}
    ensures TotalCustomers(Dataset) == 13
  {
    CustomerColumnOf(Dataset, ["C001", "C002", "C003", "C001", "C004", "C005", "C006", "C007", "C008", "C002", "C009", "C010", "C011", "C012", "C013"]);
    SampleCustomerSet(Dataset);
  }

  /** A customer seen on two different rows is a repeat customer. */
  lemma SeenTwice(rs: seq<Order>, i: nat, j: nat)
    requires i < |rs| && j < |rs| && rs[i] != rs[j] && rs[i].customerId == rs[j].customerId
    ensures rs[i].customerId in RepeatedIds(rs)
  {
    var c := rs[i].customerId;
    assert KeyOf(rs[i], CustomerColumn) == c && KeyOf(rs[j], CustomerColumn) == c;
    TwoMembers(Select(rs, CustomerColumn, c), rs[i], rs[j]);
  }

  lemma FillsUp<T>(a: set<T>, b: set<T>)
    requires a <= b && |b| <= |a|
    ensures a == b
  {
    assert b == a + (b - a) && a * (b - a) == {};
    assert |b - a| == 0;
  }

  /** Fifteen orders from thirteen customers, two of whom (C001 and C002)
      are each seen on two different rows: exactly those two repeat. */
  lemma TwoRepeatCustomers(rs: seq<Order>, i1: nat, j1: nat, i2: nat, j2: nat)
    requires |rs| == 15 && TotalCustomers(rs) == 13
    requires i1 < |rs| && j1 < |rs| && rs[i1].orderId != rs[j1].orderId
    requires rs[i1].customerId == "C001" && rs[j1].customerId == "C001"
    requires i2 < |rs| && j2 < |rs| && rs[i2].orderId != rs[j2].orderId
    requires rs[i2].customerId == "C002" && rs[j2].customerId == "C002"
    ensures RepeatedIds(rs) == {"C001", "C002"}
    ensures RepeatCustomers(rs) == 2
  {
    RepeatCustomersBound(rs);
    RepeatCustomersAreRepeatedIds(rs);
    SeenTwice(rs, i1, j1);
    SeenTwice(rs, i2, j2);
    assert |{"C001", "C002"}| == 2;
    FillsUp({"C001", "C002"}, RepeatedIds(rs));
  }

  /** In the sample data exactly C001 and C002 ordered more than once. */
  lemma SampleRepeatCustomers()
    ensures RepeatedIds(Dataset) == {"C001", "C002"}
    ensures RepeatCustomers(Dataset) == 2
  {
    assert Dataset[0].orderId != Dataset[3].orderId && Dataset[1].orderId != Dataset[9].orderId;
    assert Dataset[0].customerId == "C001" && Dataset[3].customerId == "C001";
    assert Dataset[1].customerId == "C002" && Dataset[9].customerId == "C002";
    SampleCustomerIds();
    TwoRepeatCustomers(Dataset, 0, 3, 1, 9);
  }

  /** The sample data with both boxes at their defaults: every row is kept,
      revenue is 3090, there are 13 distinct customers, exactly 2 of them
      (C001 and C002) ordered more than once, and so the page shows an average
      order value of 206 and a repeat share of 200/13 (15.4%). */
  lemma SampleDefaultView()
    ensures FilterOrders(Dataset, RegionOptions(Dataset), GenderOptions(Dataset)) == Dataset
    ensures Summarize(Dataset, RegionOptions(Dataset), GenderOptions(Dataset)).recordCount == 15
    ensures Summarize(Dataset, RegionOptions(Dataset), GenderOptions(Dataset)).totalRevenue == 3090
    ensures Summarize(Dataset, RegionOptions(Dataset), GenderOptions(Dataset)).totalCustomers == 13
    ensures Summarize(Dataset, RegionOptions(Dataset), GenderOptions(Dataset)).averageOrderValue == Some(206.0)
    ensures Summarize(Dataset, RegionOptions(Dataset), GenderOptions(Dataset)).repeatCustomers == 2
    ensures Summarize(Dataset, RegionOptions(Dataset), GenderOptions(Dataset)).repeatPercentage == 200.0 / 13.0
  {
    DefaultSelectionKeepsAll(Dataset);
    SampleRevenue();
    SampleCustomerIds();
    SampleRepeatCustomers();
  }

  /** The rows of the sample data in the North region: the 1st, 4th, 7th and
      12th. */
  lemma NorthRows()
    ensures forall i :: 0 <= i < |Dataset| ==>
      (Selected(Dataset[i], {"North"}, {"Male", "Female"}) <==> i == 0 || i == 3 || i == 6 || i == 11)
  {
  }

  /** The view of the sample data for the North region alone, by its order
      IDs and its revenue. */
  lemma NorthFilter()
    ensures OrderIds(FilterOrders(Dataset, {"North"}, {"Male", "Female"})) == [1001, 1004, 1007, 1012]
    ensures TotalRevenue(FilterOrders(Dataset, {"North"}, {"Male", "Female"})) == 960
  {
    NorthRows();
    FilterBySuffixes(Dataset, {"North"}, {"Male", "Female"},
      [[1001, 1004, 1007, 1012], [1004, 1007, 1012], [1004, 1007, 1012], [1004, 1007, 1012],
       [1007, 1012], [1007, 1012], [1007, 1012], [1012], [1012], [1012], [1012], [1012], [], [], [], []],
      [960, 660, 660, 660, 580, 580, 580, 400, 400, 400, 400, 400, 0, 0, 0, 0], 0);
    assert Dataset[0..] == Dataset;
  }

  /** The sample data filtered to the North region: four orders, 1001, 1004,
      1007 and 1012, with revenue 960 and so an average order value of 240. */
  lemma SampleNorthView()
    ensures OrderIds(FilterOrders(Dataset, {"North"}, {"Male", "Female"})) == [1001, 1004, 1007, 1012]
    ensures Summarize(Dataset, {"North"}, {"Male", "Female"}).recordCount == 4
    ensures Summarize(Dataset, {"North"}, {"Male", "Female"}).totalRevenue == 960
    ensures Summarize(Dataset, {"North"}, {"Male", "Female"}).averageOrderValue == Some(240.0)
  {
    NorthFilter();
  }
}
