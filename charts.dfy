/** The three grouped series behind the charts: the five best-selling
    categories, revenue per month, and the number of orders per region. */
module Charts {
  import opened Text
  import opened Orders
  import opened Grouping

  predicate NonIncreasing(gs: seq<Group>) {
    forall i, j :: 0 <= i < j < |gs| ==> gs[i].value >= gs[j].value
  }

  /** A group no smaller than everything after it can head a non-increasing
      sequence. */
  lemma ConsNonIncreasing(h: Group, gs: seq<Group>)
    requires NonIncreasing(gs) && forall x :: x in gs ==> x.value <= h.value
    ensures NonIncreasing([h] + gs)
    ensures SumValues([h] + gs) == h.value + SumValues(gs)
  {
    var r := [h] + gs;
    assert r[1..] == gs;
    forall i, j | 0 <= i < j < |r| ensures r[i].value >= r[j].value {
      assert r[j] == gs[j - 1];
      if i > 0 { assert r[i] == gs[i - 1]; }
    }
  }

  /** In a non-increasing sequence the first group is the largest. */
  lemma HeadIsLargest(gs: seq<Group>)
    requires NonIncreasing(gs) && gs != []
    ensures forall x :: x in gs ==> x.value <= gs[0].value
  {
    forall x | x in gs ensures x.value <= gs[0].value {
      var i :| 0 <= i < |gs| && gs[i] == x;
    }
  }

  /** Everything in a sequence holding the elements of `tail` plus `g` stays
      below a bound that `g` and `tail` stay below. */
  lemma BoundedAfterInsert(g: Group, tail: seq<Group>, rest: seq<Group>, bound: int)
    requires multiset(rest) == multiset(tail) + multiset{g}
    requires g.value <= bound && forall x :: x in tail ==> x.value <= bound
    ensures forall x :: x in rest ==> x.value <= bound
  {
    forall x | x in rest ensures x.value <= bound {
      assert x in multiset(rest);
      if x != g {
        assert x in multiset(tail);
      }
    }
  }

  lemma NonIncreasingTail(gs: seq<Group>)
    requires NonIncreasing(gs) && gs != []
    ensures NonIncreasing(gs[1..])
  {
    forall i, j | 0 <= i < j < |gs| - 1 ensures gs[1..][i].value >= gs[1..][j].value {
      assert gs[1..][i] == gs[i + 1] && gs[1..][j] == gs[j + 1];
    }
  }

  /** Inserting in front of groups no larger than `g`. */
  lemma InsertInFront(g: Group, gs: seq<Group>)
    requires NonIncreasing(gs) && (gs == [] || g.value >= gs[0].value)
    ensures NonIncreasing([g] + gs)
    ensures multiset([g] + gs) == multiset(gs) + multiset{g}
    ensures SumValues([g] + gs) == g.value + SumValues(gs)
  {
    if gs != [] {
      HeadIsLargest(gs);
    }
    ConsNonIncreasing(g, gs);
  }

  /** Inserting behind a first group larger than `g`. */
  lemma InsertBehind(g: Group, gs: seq<Group>, rest: seq<Group>)
    requires NonIncreasing(gs) && gs != [] && g.value < gs[0].value
    requires NonIncreasing(rest)
    requires multiset(rest) == multiset(gs[1..]) + multiset{g}
    requires SumValues(rest) == g.value + SumValues(gs[1..])
    ensures NonIncreasing([gs[0]] + rest)
    ensures multiset([gs[0]] + rest) == multiset(gs) + multiset{g}
    ensures SumValues([gs[0]] + rest) == g.value + SumValues(gs)
  {
    assert gs == [gs[0]] + gs[1..];
    assert multiset(gs) == multiset{gs[0]} + multiset(gs[1..]);
    assert SumValues(gs) == gs[0].value + SumValues(gs[1..]);
    HeadIsLargest(gs);
    BoundedAfterInsert(g, gs[1..], rest, gs[0].value);
    ConsNonIncreasing(gs[0], rest);
  }

  /** Places `g` before the first group with a smaller value. */
  function InsertByValue(g: Group, gs: seq<Group>): (r: seq<Group>)
    requires NonIncreasing(gs)
    ensures NonIncreasing(r)
    ensures multiset(r) == multiset(gs) + multiset{g}
    ensures SumValues(r) == g.value + SumValues(gs)
  {
    if gs == [] || g.value >= gs[0].value then
      InsertInFront(g, gs);
      [g] + gs
    else
      NonIncreasingTail(gs);
      var rest := InsertByValue(g, gs[1..]);
      InsertBehind(g, gs, rest);
      [gs[0]] + rest
  }

  /** `sort_values(ascending=False)`: the same groups, largest value first.
      Groups with equal values may come in any order. */
  function SortByValueDesc(gs: seq<Group>): (r: seq<Group>)
    ensures NonIncreasing(r)
    ensures multiset(r) == multiset(gs)
    ensures SumValues(r) == SumValues(gs)
  {
    if gs == [] then []
    else
      assert gs == [gs[0]] + gs[1..];
      InsertByValue(gs[0], SortByValueDesc(gs[1..]))
  }

  /** `head(n)`: the first `n` entries, or all of them when there are fewer. */
  function Head(gs: seq<Group>, n: nat): (r: seq<Group>)
    ensures |r| == if |gs| < n then |gs| else n
    ensures forall i :: 0 <= i < |r| ==> r[i] == gs[i]
  {
    if |gs| <= n then gs else gs[..n]
  }

  /** The revenue of category `k` in the view. */
  function CategoryRevenue(rs: seq<Order>, k: string): int {
    TotalRevenue(Select(rs, CategoryColumn, k))
  }

  /** `groupby("Category")["TotalAmount"].sum().sort_values(ascending=False).head(5)`. */
  function TopCategories(rs: seq<Order>): seq<Group> {
    Head(SortByValueDesc(GroupBy(rs, CategoryColumn, Revenue)), 5)
  }

  /** `groupby("Month")["TotalAmount"].sum()`. */
  function MonthlyRevenue(rs: seq<Order>): seq<Group> {
    GroupBy(rs, MonthColumn, Revenue)
  }

  /** `Region.value_counts()`. */
  function RegionDistribution(rs: seq<Order>): seq<Group> {
    SortByValueDesc(GroupBy(rs, RegionColumn, Size))
  }

  lemma GroupKeysOfPermutation(a: seq<Group>, b: seq<Group>)
    requires multiset(a) == multiset(b)
    ensures GroupKeys(a) == GroupKeys(b)
  {
    forall x ensures x in GroupKeys(a) <==> x in GroupKeys(b) {
      if x in GroupKeys(a) {
        var g :| g in a && g.key == x;
        assert g in multiset(b);
      }
      if x in GroupKeys(b) {
        var g :| g in b && g.key == x;
        assert g in multiset(a);
      }
    }
  }

  /** Reordering groups with distinct labels keeps the labels distinct. */
  lemma PermutationKeepsDistinctKeys(a: seq<Group>, b: seq<Group>)
    requires multiset(a) == multiset(b) && DistinctKeys(a)
    ensures DistinctKeys(b)
  {
    GroupKeysOfPermutation(a, b);
    DistinctKeysCount(a);
    assert |a| == |multiset(a)| == |multiset(b)| == |b|;
    GroupKeysCount(b);
  }

  /** A prefix keeps the order and the distinct labels of what it is cut
      from, and holds nothing else. */
  lemma HeadKeepsOrder(s: seq<Group>, n: nat)
    ensures NonIncreasing(s) ==> NonIncreasing(Head(s, n))
    ensures DistinctKeys(s) ==> DistinctKeys(Head(s, n))
    ensures forall g :: g in Head(s, n) ==> g in s
  {
    var r := Head(s, n);
    forall g | g in r ensures g in s {
      var i :| 0 <= i < |r| && r[i] == g;
      assert s[i] == g;
    }
  }

  /** Every category outside the top list sells no more than any category in
      it, provided the list was cut from a non-increasing ordering. */
  lemma HeadIsTop(s: seq<Group>, n: nat, h: Group)
    requires NonIncreasing(s) && h in s && h.key !in GroupKeys(Head(s, n))
    ensures forall g :: g in Head(s, n) ==> h.value <= g.value
  {
    var r := Head(s, n);
    var j :| 0 <= j < |s| && s[j] == h;
    assert j >= |r|;
    forall g | g in r ensures h.value <= g.value {
      var i :| 0 <= i < |r| && r[i] == g;
      assert s[i] == g;
    }
  }

  /** The category groups ranked by revenue, before the cut: distinct
      categories of the view, each with its own revenue, largest first. */
  lemma RankedCategories(rs: seq<Order>)
    ensures NonIncreasing(SortByValueDesc(GroupBy(rs, CategoryColumn, Revenue)))
    ensures DistinctKeys(SortByValueDesc(GroupBy(rs, CategoryColumn, Revenue)))
    ensures GroupKeys(SortByValueDesc(GroupBy(rs, CategoryColumn, Revenue))) == KeysOf(rs, CategoryColumn)
    ensures |SortByValueDesc(GroupBy(rs, CategoryColumn, Revenue))| == |KeysOf(rs, CategoryColumn)|
    ensures forall g :: g in SortByValueDesc(GroupBy(rs, CategoryColumn, Revenue)) ==>
      g.key in KeysOf(rs, CategoryColumn) && g.value == CategoryRevenue(rs, g.key)
  {
    var gs := GroupBy(rs, CategoryColumn, Revenue);
    var s := SortByValueDesc(gs);
    GroupByFacts(rs, CategoryColumn, Revenue);
    GroupValues(rs, CategoryColumn, Revenue);
    StrictlyAscendingDistinct(gs);
    DistinctKeysCount(gs);
    PermutationKeepsDistinctKeys(gs, s);
    GroupKeysOfPermutation(gs, s);
    assert |s| == |gs| by {
      assert |multiset(s)| == |multiset(gs)|;
    }
    forall g | g in s ensures g in gs {
      assert g in multiset(gs);
    }
  }

  /** The top-category series has at most five entries, distinct categories
      of the view, each with its own revenue, largest first. */
  lemma TopCategoriesShape(rs: seq<Order>)
    ensures |TopCategories(rs)| <= 5
    ensures |TopCategories(rs)| == if |KeysOf(rs, CategoryColumn)| < 5 then |KeysOf(rs, CategoryColumn)| else 5
    ensures NonIncreasing(TopCategories(rs))
    ensures DistinctKeys(TopCategories(rs))
    ensures forall g :: g in TopCategories(rs) ==>
      g.key in KeysOf(rs, CategoryColumn) && g.value == CategoryRevenue(rs, g.key)
  {
    RankedCategories(rs);
    HeadKeepsOrder(SortByValueDesc(GroupBy(rs, CategoryColumn, Revenue)), 5);
  }

  /** No category left out of the top list sells more than one kept in it. */
  lemma TopCategoriesAreTop(rs: seq<Order>, o: Order, g: Group)
    requires o in rs && o.category !in GroupKeys(TopCategories(rs)) && g in TopCategories(rs)
    ensures CategoryRevenue(rs, o.category) <= g.value
  {
    var s := SortByValueDesc(GroupBy(rs, CategoryColumn, Revenue));
    RankedCategories(rs);
    assert KeyOf(o, CategoryColumn) in GroupKeys(s);
    var h :| h in s && h.key == o.category;
    HeadIsTop(s, 5, h);
  }

  /** With five categories or fewer, the top list keeps every category and
      its revenues add up to the total revenue of the view. */
  lemma TopCategoriesComplete(rs: seq<Order>)
    requires |KeysOf(rs, CategoryColumn)| <= 5
    ensures GroupKeys(TopCategories(rs)) == KeysOf(rs, CategoryColumn)
    ensures SumValues(TopCategories(rs)) == TotalRevenue(rs)
  {
    RankedCategories(rs);
    GroupByFacts(rs, CategoryColumn, Revenue);
  }

  /** Without the top-five cut, the per-category revenues add up to the total
      revenue of the view. */
  lemma CategoryRevenuesSumToTotal(rs: seq<Order>)
    ensures SumValues(GroupBy(rs, CategoryColumn, Revenue)) == TotalRevenue(rs)
    ensures SumValues(SortByValueDesc(GroupBy(rs, CategoryColumn, Revenue))) == TotalRevenue(rs)
  {
    GroupByFacts(rs, CategoryColumn, Revenue);
  }

  /** The monthly series: one entry per month present in the view, in
      strictly ascending key order, each with that month's revenue, and the
      entries add up to the total revenue. */
  lemma MonthlyRevenueFacts(rs: seq<Order>)
    ensures StrictlyAscending(MonthlyRevenue(rs))
    ensures GroupKeys(MonthlyRevenue(rs)) == KeysOf(rs, MonthColumn)
    ensures forall g :: g in MonthlyRevenue(rs) ==> g.value == TotalRevenue(Select(rs, MonthColumn, g.key))
    ensures SumValues(MonthlyRevenue(rs)) == TotalRevenue(rs)
  {
    GroupByFacts(rs, MonthColumn, Revenue);
    GroupValues(rs, MonthColumn, Revenue);
  }

  /** The monthly series runs in calendar order: an order counted in an
      earlier entry was placed in an earlier month. */
  lemma MonthlyRevenueChronological(rs: seq<Order>, i: nat, j: nat, o1: Order, o2: Order)
    requires i < j < |MonthlyRevenue(rs)|
    requires Month(o1) == MonthlyRevenue(rs)[i].key && Month(o2) == MonthlyRevenue(rs)[j].key
    ensures o1.orderDate.year < o2.orderDate.year
         || (o1.orderDate.year == o2.orderDate.year && o1.orderDate.month < o2.orderDate.month)
  {
    GroupByFacts(rs, MonthColumn, Revenue);
    MonthKeyOrderIsChronological(o1.orderDate, o2.orderDate);
  }

  /** The region series: one entry per region present in the view, each
      counting that region's orders (so at least one), largest count first,
      and the counts add up to the number of orders in the view. */
  lemma RegionDistributionFacts(rs: seq<Order>)
    ensures NonIncreasing(RegionDistribution(rs))
    ensures DistinctKeys(RegionDistribution(rs))
    ensures GroupKeys(RegionDistribution(rs)) == KeysOf(rs, RegionColumn)
    ensures forall g :: g in RegionDistribution(rs) ==>
      g.value == |Select(rs, RegionColumn, g.key)| && g.value >= 1
    ensures SumValues(RegionDistribution(rs)) == |rs|
  {
    var gs := GroupBy(rs, RegionColumn, Size);
    var s := RegionDistribution(rs);
    GroupByFacts(rs, RegionColumn, Size);
    GroupValues(rs, RegionColumn, Size);
    SizeGroupsPositive(rs, RegionColumn);
    StrictlyAscendingDistinct(gs);
    PermutationKeepsDistinctKeys(gs, s);
    GroupKeysOfPermutation(gs, s);
    forall g | g in s ensures g in gs {
      assert g in multiset(gs);
    }
  }
}
