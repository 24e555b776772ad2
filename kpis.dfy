/** The four headline figures computed from the filtered view: total revenue,
    distinct customers, average order value and the share of repeat
    customers. */
module Kpis {
  import opened Orders
  import opened Filtering
  import opened Grouping

  datatype Option<T> = None | Some(value: T)

  /** Revenue recomputed straight from the unfiltered table: quantity times
      unit price over the rows the mask selects. */
  function SelectedRevenue(s: seq<Order>, regions: set<string>, genders: set<string>): int {
    if s == [] then 0
    else (if Selected(s[0], regions, genders) then s[0].quantity * s[0].unitPrice else 0)
         + SelectedRevenue(s[1..], regions, genders)
  }

  /** Total revenue of the view is the sum of quantity times unit price over
      exactly the selected rows. */
  lemma {:induction false} RevenueOfFilter(s: seq<Order>, regions: set<string>, genders: set<string>)
    ensures TotalRevenue(FilterOrders(s, regions, genders)) == SelectedRevenue(s, regions, genders)
  {
    if s != [] {
      RevenueOfFilter(s[1..], regions, genders);
      var rest := FilterOrders(s[1..], regions, genders);
      if Selected(s[0], regions, genders) {
        assert ([s[0]] + rest)[1..] == rest;
      }
    }
  }

  /** Revenue adds up over a split of the rows. */
  lemma {:induction false} TotalRevenueAppend(a: seq<Order>, b: seq<Order>)
    ensures TotalRevenue(a + b) == TotalRevenue(a) + TotalRevenue(b)
  {
    if a == [] {
      assert a + b == b;
    } else {
      TotalRevenueAppend(a[1..], b);
      assert (a + b)[1..] == a[1..] + b;
    }
  }

  /** The customer IDs present in the view. */
  function CustomerIds(rs: seq<Order>): set<string> {
    KeysOf(rs, CustomerColumn)
  }

  /** `CustomerID.nunique()`. */
  function TotalCustomers(rs: seq<Order>): nat {
    |CustomerIds(rs)|
  }

  predicate NoRepeatedCustomer(rs: seq<Order>) {
    forall i, j :: 0 <= i < j < |rs| ==> rs[i].customerId != rs[j].customerId
  }

  lemma CustomerIdsCons(o: Order, tail: seq<Order>)
    ensures CustomerIds([o] + tail) == {o.customerId} + CustomerIds(tail)
  {
    var rs := [o] + tail;
    forall x ensures x in CustomerIds(rs) <==> x in {o.customerId} + CustomerIds(tail) {
      if x == o.customerId {
        assert rs[0] == o && KeyOf(o, CustomerColumn) == x;
      }
      if x in CustomerIds(rs) {
        var p :| p in rs && KeyOf(p, CustomerColumn) == x;
        var i :| 0 <= i < |rs| && rs[i] == p;
        if i > 0 { assert tail[i - 1] == p; }
      }
      if x in CustomerIds(tail) {
        var p :| p in tail && KeyOf(p, CustomerColumn) == x;
        assert p in rs;
      }
    }
  }

  /** No customer repeats in `rs` exactly when none repeats in its tail and
      the first customer does not reappear there. */
  lemma NoRepeatedCustomerCons(rs: seq<Order>)
    requires rs != []
    ensures NoRepeatedCustomer(rs)
        <==> NoRepeatedCustomer(rs[1..]) && rs[0].customerId !in CustomerIds(rs[1..])
  {
    var tail := rs[1..];
    if rs[0].customerId in CustomerIds(tail) {
      var o :| o in tail && KeyOf(o, CustomerColumn) == rs[0].customerId;
      var j :| 0 <= j < |tail| && tail[j] == o;
      assert rs[j + 1] == o;
    }
    if !NoRepeatedCustomer(tail) {
      var i, j :| 0 <= i < j < |tail| && tail[i].customerId == tail[j].customerId;
      assert rs[i + 1] == tail[i] && rs[j + 1] == tail[j];
    }
    if NoRepeatedCustomer(tail) && rs[0].customerId !in CustomerIds(tail) {
      forall i, j | 0 <= i < j < |rs| ensures rs[i].customerId != rs[j].customerId {
        if i == 0 {
          assert rs[j] == tail[j - 1] && tail[j - 1] in tail;
          assert KeyOf(tail[j - 1], CustomerColumn) in CustomerIds(tail);
        } else {
          assert rs[i] == tail[i - 1] && rs[j] == tail[j - 1];
        }
      }
    }
  }

  /** There are never more customers than orders, and exactly as many only
      when no customer ordered twice. */
  lemma {:induction false} TotalCustomersBound(rs: seq<Order>)
    ensures TotalCustomers(rs) <= |rs|
    ensures TotalCustomers(rs) == |rs| <==> NoRepeatedCustomer(rs)
  {
    if rs != [] {
      var tail := rs[1..];
      TotalCustomersBound(tail);
      assert rs == [rs[0]] + tail;
      CustomerIdsCons(rs[0], tail);
      NoRepeatedCustomerCons(rs);
    }
  }

  /** The number of groups whose value exceeds `n` (`.gt(n).sum()`). */
  function CountAbove(gs: seq<Group>, n: int): nat {
    if gs == [] then 0 else (if gs[0].value > n then 1 else 0) + CountAbove(gs[1..], n)
  }

  /** `groupby("CustomerID").size().gt(1).sum()`. */
  function RepeatCustomers(rs: seq<Order>): nat {
    CountAbove(GroupBy(rs, CustomerColumn, Size), 1)
  }

  /** How many orders customer `c` placed. */
  function Occurrences(rs: seq<Order>, c: string): nat {
    |Select(rs, CustomerColumn, c)|
  }

  /** The customers who ordered more than once. */
  function RepeatedIds(rs: seq<Order>): set<string> {
    set c | c in CustomerIds(rs) && Occurrences(rs, c) > 1
  }

  function LabelsAbove(gs: seq<Group>, n: int): set<string> {
    set g | g in gs && g.value > n :: g.key
  }

  lemma LabelsAboveCons(g: Group, gs: seq<Group>, n: int)
    ensures LabelsAbove([g] + gs, n) == (if g.value > n then {g.key} else {}) + LabelsAbove(gs, n)
  {
    var r := [g] + gs;
    forall x ensures x in LabelsAbove(r, n) <==> x in (if g.value > n then {g.key} else {}) + LabelsAbove(gs, n) {
      if x in LabelsAbove(r, n) {
        var h :| h in r && h.value > n && h.key == x;
        var i :| 0 <= i < |r| && r[i] == h;
        if i > 0 { assert gs[i - 1] == h; }
      }
      if x in LabelsAbove(gs, n) {
        var h :| h in gs && h.value > n && h.key == x;
        assert h in r;
      }
    }
  }

  lemma {:induction false} CountAboveLabels(gs: seq<Group>, n: int)
    requires DistinctKeys(gs)
    ensures CountAbove(gs, n) == |LabelsAbove(gs, n)|
  {
    if gs != [] {
      var h, tail := gs[0], gs[1..];
      DistinctKeysTail(gs);
      CountAboveLabels(tail, n);
      assert LabelsAbove(tail, n) <= GroupKeys(tail);
      assert gs == [h] + tail;
      LabelsAboveCons(h, tail, n);
    }
  }

  /** The repeat-customer count is the number of customer IDs that occur more
      than once in the view. */
  lemma RepeatCustomersAreRepeatedIds(rs: seq<Order>)
    ensures RepeatCustomers(rs) == |RepeatedIds(rs)|
  {
    var gs := GroupBy(rs, CustomerColumn, Size);
    GroupByFacts(rs, CustomerColumn, Size);
    GroupValues(rs, CustomerColumn, Size);
    StrictlyAscendingDistinct(gs);
    CountAboveLabels(gs, 1);
    assert LabelsAbove(gs, 1) == RepeatedIds(rs) by {
      forall x ensures x in LabelsAbove(gs, 1) <==> x in RepeatedIds(rs) {
        if x in RepeatedIds(rs) {
          assert x in GroupKeys(gs);
          var g :| g in gs && g.key == x;
        }
      }
    }
  }

  lemma {:induction false} CountAboveBound(gs: seq<Group>, n: int)
    ensures CountAbove(gs, n) <= |gs|
  {
    if gs != [] {
      CountAboveBound(gs[1..], n);
    }
  }

  /** Groups of one or more rows: the rows number at least one per group plus
      one more per group of two or more, and exactly one per group when no
      group has two. */
  lemma {:induction false} SizesCoverGroups(gs: seq<Group>)
    requires forall g :: g in gs ==> g.value >= 1
    ensures SumValues(gs) >= |gs| + CountAbove(gs, 1)
    ensures CountAbove(gs, 1) == 0 ==> SumValues(gs) == |gs|
  {
    if gs != [] {
      assert gs[0] in gs;
      forall g | g in gs[1..] ensures g.value >= 1 {
        assert g in gs;
      }
      SizesCoverGroups(gs[1..]);
    }
  }

  /** Repeat customers are a subset of the customers, and a customer who
      repeats accounts for at least two orders. */
  lemma RepeatCustomersBound(rs: seq<Order>)
    ensures RepeatCustomers(rs) <= TotalCustomers(rs)
    ensures TotalCustomers(rs) + RepeatCustomers(rs) <= |rs|
  {
    var gs := GroupBy(rs, CustomerColumn, Size);
    GroupByFacts(rs, CustomerColumn, Size);
    StrictlyAscendingDistinct(gs);
    DistinctKeysCount(gs);
    SizeGroupsPositive(rs, CustomerColumn);
    SizesCoverGroups(gs);
    CountAboveBound(gs, 1);
  }

  /** There is no repeat customer exactly when no customer ordered twice. */
  lemma NoRepeatCustomers(rs: seq<Order>)
    ensures RepeatCustomers(rs) == 0 <==> NoRepeatedCustomer(rs)
  {
    var gs := GroupBy(rs, CustomerColumn, Size);
    GroupByFacts(rs, CustomerColumn, Size);
    StrictlyAscendingDistinct(gs);
    DistinctKeysCount(gs);
    SizeGroupsPositive(rs, CustomerColumn);
    SizesCoverGroups(gs);
    TotalCustomersBound(rs);
  }

  /** `part / whole * 100` for `0 <= part <= whole`, `whole > 0`: a share
      between 0 and 100 that scales back to `part`. */
  lemma ShareOfWhole(part: real, whole: real)
    requires 0.0 <= part <= whole && whole > 0.0
    ensures 0.0 <= part / whole * 100.0 <= 100.0
    ensures (part / whole * 100.0) * whole == part * 100.0
  {
    assert part / whole <= 1.0;
  }

  /** `part / whole * 100` as a percentage, or 0 when `whole` is 0. */
  function Percentage(part: nat, whole: nat): (p: real)
    requires part <= whole
    ensures 0.0 <= p <= 100.0
    ensures whole == 0 ==> p == 0.0
    ensures whole > 0 ==> p * (whole as real) == (part as real) * 100.0
  {
    if whole > 0 then
      ShareOfWhole(part as real, whole as real);
      (part as real) / (whole as real) * 100.0
    else
      0.0
  }

  /** `repeat_customers / total_customers * 100`, or 0 when there are no
      customers. */
  function RepeatPercentage(rs: seq<Order>): (p: real)
    ensures 0.0 <= p <= 100.0
    ensures TotalCustomers(rs) == 0 ==> p == 0.0
    ensures TotalCustomers(rs) > 0 ==>
      p * (TotalCustomers(rs) as real) == (RepeatCustomers(rs) as real) * 100.0
  {
    RepeatCustomersBound(rs);
    Percentage(RepeatCustomers(rs), TotalCustomers(rs))
  }

  /** `TotalAmount.mean()`: `None` for an empty view, where pandas gives NaN. */
  function AverageOrderValue(rs: seq<Order>): (a: Option<real>)
    ensures a.None? <==> rs == []
    ensures a.Some? ==> a.value * (|rs| as real) == TotalRevenue(rs) as real
  {
    if rs == [] then None else Some((TotalRevenue(rs) as real) / (|rs| as real))
  }
}
