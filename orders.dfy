/** The order table of the dashboard: one record per order, its two derived
    columns (`TotalAmount` and `Month`), the sum of the `TotalAmount` column,
    and the fixed fifteen-row dataset the page is built from. */
module Orders {
  import opened Text

  /** Calendar dates as parsed from "YYYY-MM-DD" text. Years are written with
      four digits; the day of month is kept but no derived column reads it. */
  type Year = y: int | 0 <= y <= 9999
  type MonthOfYear = m: int | 1 <= m <= 12 witness 1
  type DayOfMonth = d: int | 1 <= d <= 31 witness 1

  datatype Date = Date(year: Year, month: MonthOfYear, day: DayOfMonth)

  /** One row of the table, with the columns the page reads. */
  datatype Order = Order(
    orderId: int,
    customerId: string,
    orderDate: Date,
    gender: string,
    region: string,
    category: string,
    quantity: int,
    unitPrice: int)

  /** The derived `TotalAmount` column: the line revenue of one order. */
  function TotalAmount(o: Order): int {
    o.quantity * o.unitPrice
  }

  /** A date truncated to its monthly period and written as "YYYY-MM". */
  function MonthKey(d: Date): (k: string)
    ensures |k| == 7 && k[4] == '-'
    ensures AllDigits(k[..4]) && AllDigits(k[5..])
  {
    var k := Pad4(d.year) + "-" + Pad2(d.month);
    assert k[..4] == Pad4(d.year) && k[5..] == Pad2(d.month);
    k
  }

  /** Reads the year and month back out of a "YYYY-MM" key. */
  function ParseMonthKey(k: string): (ym: (int, int))
    requires |k| == 7 && AllDigits(k[..4]) && AllDigits(k[5..])
  {
    (DecimalValue(k[..4]), DecimalValue(k[5..]))
  }

  /** The derived `Month` column. */
  function Month(o: Order): string {
    MonthKey(o.orderDate)
  }

  /** The key keeps the year and the month of the date, and nothing else. */
  lemma MonthKeyRoundTrip(d: Date)
    ensures ParseMonthKey(MonthKey(d)) == (d.year, d.month)
  {
    var k := MonthKey(d);
    assert k[..4] == Pad4(d.year) && k[5..] == Pad2(d.month);
  }

  /** Two dates share a month key exactly when they share year and month. */
  lemma MonthKeyIdentifiesMonth(d1: Date, d2: Date)
    ensures MonthKey(d1) == MonthKey(d2) <==> d1.year == d2.year && d1.month == d2.month
  {
    MonthKeyRoundTrip(d1);
    MonthKeyRoundTrip(d2);
  }

  /** Sorting month keys as strings sorts the months chronologically. */
  lemma MonthKeyOrderIsChronological(d1: Date, d2: Date)
    ensures Less(MonthKey(d1), MonthKey(d2))
      <==> d1.year < d2.year || (d1.year == d2.year && d1.month < d2.month)
  {
    var y1, y2 := Pad4(d1.year), Pad4(d2.year);
    var m1, m2 := Pad2(d1.month), Pad2(d2.month);
    assert MonthKey(d1) == y1 + ("-" + m1);
    assert MonthKey(d2) == y2 + ("-" + m2);
    LessOnEqualLengthPrefix(y1, "-" + m1, y2, "-" + m2);
    LessOnEqualLengthPrefix("-", m1, "-", m2);
    assert "-" + m1 == ['-'] + m1 && "-" + m2 == ['-'] + m2;
    LessIsNumericOrder(y1, y2);
    LessIsNumericOrder(m1, m2);
    MonthKeyRoundTrip(d1);
    MonthKeyRoundTrip(d2);
    assert y1 == y2 <==> d1.year == d2.year;
  }

  /** The sum of the `TotalAmount` column over some rows; 0 for none. */
  function TotalRevenue(rs: seq<Order>): int {
    if rs == [] then 0 else TotalAmount(rs[0]) + TotalRevenue(rs[1..])
  }

  /** The inline sample data the dashboard is built from. */
  const Dataset: seq<Order> := [
    Order(1001, "C001", Date(2024, 1, 5), "Male", "North", "Electronics", 1, 300),
    Order(1002, "C002", Date(2024, 1, 6), "Female", "South", "Fashion", 2, 50),
    Order(1003, "C003", Date(2024, 1, 10), "Male", "West", "Groceries", 10, 5),
    Order(1004, "C001", Date(2024, 2, 15), "Male", "North", "Fashion", 1, 80),
    Order(1005, "C004", Date(2024, 2, 20), "Female", "East", "Electronics", 1, 250),
    Order(1006, "C005", Date(2024, 3, 1), "Male", "South", "Groceries", 20, 4),
    Order(1007, "C006", Date(2024, 3, 5), "Female", "North", "Fashion", 3, 60),
    Order(1008, "C007", Date(2024, 3, 12), "Female", "West", "Electronics", 2, 200),
    Order(1009, "C008", Date(2024, 4, 2), "Male", "East", "Groceries", 5, 10),
    Order(1010, "C002", Date(2024, 4, 8), "Female", "South", "Fashion", 1, 120),
    Order(1011, "C009", Date(2024, 5, 5), "Female", "West", "Fashion", 4, 75),
    Order(1012, "C010", Date(2024, 5, 9), "Male", "North", "Electronics", 1, 400),
    Order(1013, "C011", Date(2024, 6, 1), "Male", "South", "Groceries", 15, 6),
    Order(1014, "C012", Date(2024, 6, 15), "Female", "East", "Fashion", 2, 95),
    Order(1015, "C013", Date(2024, 6, 20), "Male", "West", "Electronics", 1, 500)
  ]
}
