/** `groupby(column)` followed by `sum()` of `TotalAmount` or by `size()`, as
    pandas computes it with its default `sort=True`: one group per distinct
    key, the groups in ascending key order. */
module Grouping {
  import opened Text
  import opened Orders

  /** The column the rows are grouped on. */
  datatype Column = CustomerColumn | CategoryColumn | MonthColumn | RegionColumn | GenderColumn

  /** What each group reduces to: the sum of `TotalAmount`, or its row count. */
  datatype Measure = Revenue | Size

  /** One group of a grouped series: its label and its reduced value. */
  datatype Group = Group(key: string, value: int)

  function KeyOf(o: Order, c: Column): string {
    match c
    case CustomerColumn => o.customerId
    case CategoryColumn => o.category
    case MonthColumn => Month(o)
    case RegionColumn => o.region
    case GenderColumn => o.gender
  }

  /** What one row contributes to its group. */
  function Weight(o: Order, m: Measure): int {
    match m
    case Revenue => TotalAmount(o)
    case Size => 1
  }

  /** The measure reduced over a whole sequence of rows. */
  function Tally(rs: seq<Order>, m: Measure): int {
    match m
    case Revenue => TotalRevenue(rs)
    case Size => |rs|
  }

  /** The rows whose `c` column holds `k`, in order. */
  function Select(rs: seq<Order>, c: Column, k: string): (r: seq<Order>)
    ensures forall o :: o in r <==> o in rs && KeyOf(o, c) == k
  {
    if rs == [] then []
    else
      assert rs == [rs[0]] + rs[1..];
      if KeyOf(rs[0], c) == k then [rs[0]] + Select(rs[1..], c, k) else Select(rs[1..], c, k)
  }

  /** The distinct values of column `c`. */
  function KeysOf(rs: seq<Order>, c: Column): set<string> {
    set o | o in rs :: KeyOf(o, c)
  }

  function GroupKeys(gs: seq<Group>): set<string> {
    set g | g in gs :: g.key
  }

  predicate StrictlyAscending(gs: seq<Group>) {
    forall i, j :: 0 <= i < j < |gs| ==> Less(gs[i].key, gs[j].key)
  }

  predicate DistinctKeys(gs: seq<Group>) {
    forall i, j :: 0 <= i < j < |gs| ==> gs[i].key != gs[j].key
  }

  /** The value of the first group labelled `k`, or 0 when there is none. */
  function Lookup(gs: seq<Group>, k: string): int {
    if gs == [] then 0 else if gs[0].key == k then gs[0].value else Lookup(gs[1..], k)
  }

  function SumValues(gs: seq<Group>): int {
    if gs == [] then 0 else gs[0].value + SumValues(gs[1..])
  }

  /** Adds `v` to group `k`, opening the group at its sorted place if absent. */
  function AddTo(gs: seq<Group>, k: string, v: int): seq<Group> {
    if gs == [] then [Group(k, v)]
    else if gs[0].key == k then [Group(k, gs[0].value + v)] + gs[1..]
    else if Less(k, gs[0].key) then [Group(k, v)] + gs
    else [gs[0]] + AddTo(gs[1..], k, v)
  }

  /** `rs.groupby(c)` reduced by `m`. */
  function GroupBy(rs: seq<Order>, c: Column, m: Measure): seq<Group> {
    if rs == [] then [] else AddTo(GroupBy(rs[1..], c, m), KeyOf(rs[0], c), Weight(rs[0], m))
  }

  lemma {:induction false} LookupAbsent(gs: seq<Group>, k: string)
    requires k !in GroupKeys(gs)
    ensures Lookup(gs, k) == 0
  {
    if gs != [] {
      assert gs[0] in gs;
      assert GroupKeys(gs[1..]) <= GroupKeys(gs) by {
        forall g | g in gs[1..] ensures g in gs { }
      }
      LookupAbsent(gs[1..], k);
    }
  }

  lemma StrictlyAscendingTail(gs: seq<Group>)
    requires gs != [] && StrictlyAscending(gs)
    ensures StrictlyAscending(gs[1..])
  {
  }

  lemma GroupKeysCons(g: Group, gs: seq<Group>)
    ensures GroupKeys([g] + gs) == {g.key} + GroupKeys(gs)
  {
    var r := [g] + gs;
    forall x ensures x in GroupKeys(r) <==> x in {g.key} + GroupKeys(gs) {
      if x in GroupKeys(r) {
        var h :| h in r && h.key == x;
        var i :| 0 <= i < |r| && r[i] == h;
        if i > 0 { assert gs[i - 1] == h; }
      }
      if x in GroupKeys(gs) {
        var h :| h in gs && h.key == x;
        assert h in r;
      }
    }
  }

  /** Every label of an ascending list lies above its first label. */
  lemma AscendingAboveHead(gs: seq<Group>, k: string)
    requires gs != [] && StrictlyAscending(gs) && k in GroupKeys(gs[1..])
    ensures Less(gs[0].key, k)
  {
    var g :| g in gs[1..] && g.key == k;
    var t :| 0 <= t < |gs[1..]| && gs[1..][t] == g;
    assert gs[t + 1] == g;
  }

  lemma AddToHit(gs: seq<Group>, k: string, v: int)
    requires StrictlyAscending(gs) && gs != [] && gs[0].key == k
    ensures StrictlyAscending(AddTo(gs, k, v))
    ensures GroupKeys(AddTo(gs, k, v)) == GroupKeys(gs) + {k}
    ensures SumValues(AddTo(gs, k, v)) == SumValues(gs) + v
  {
    var h := Group(k, gs[0].value + v);
    var r := AddTo(gs, k, v);
    assert r == [h] + gs[1..];
    assert r[1..] == gs[1..];
    forall i | 0 <= i < |r| ensures r[i].key == gs[i].key {
      if i > 0 { assert r[i] == gs[i]; }
    }
    GroupKeysCons(h, gs[1..]);
    GroupKeysCons(gs[0], gs[1..]);
    assert gs == [gs[0]] + gs[1..];
  }

  lemma AddToHitLookup(gs: seq<Group>, k: string, v: int)
    requires gs != [] && gs[0].key == k
    ensures forall k' :: Lookup(AddTo(gs, k, v), k') == Lookup(gs, k') + (if k' == k then v else 0)
  {
    var r := AddTo(gs, k, v);
    assert r[1..] == gs[1..];
    forall k' ensures Lookup(r, k') == Lookup(gs, k') + (if k' == k then v else 0) {
      if k' != k {
        assert Lookup(r, k') == Lookup(gs[1..], k');
      }
    }
  }

  lemma AddToFront(gs: seq<Group>, k: string, v: int)
    requires StrictlyAscending(gs) && gs != [] && Less(k, gs[0].key)
    ensures StrictlyAscending(AddTo(gs, k, v))
    ensures GroupKeys(AddTo(gs, k, v)) == GroupKeys(gs) + {k}
    ensures SumValues(AddTo(gs, k, v)) == SumValues(gs) + v
    ensures forall k' :: Lookup(AddTo(gs, k, v), k') == Lookup(gs, k') + (if k' == k then v else 0)
  {
    LessIrreflexive(k);
    var r := AddTo(gs, k, v);
    assert r == [Group(k, v)] + gs;
    assert r[1..] == gs;
    forall i, j | 0 <= i < j < |r| ensures Less(r[i].key, r[j].key) {
      if i == 0 && j > 1 {
        LessTransitive(k, gs[0].key, gs[j - 1].key);
      }
    }
    GroupKeysCons(Group(k, v), gs);
    assert k !in GroupKeys(gs) by {
      GroupKeysCons(gs[0], gs[1..]);
      assert gs == [gs[0]] + gs[1..];
      if k in GroupKeys(gs[1..]) {
        AscendingAboveHead(gs, k);
        LessAsymmetric(k, gs[0].key);
      }
    }
    LookupAbsent(gs, k);
  }

  /** The step past a smaller first label keeps the labels ascending. */
  lemma AddToBehindAscending(gs: seq<Group>, k: string, v: int)
    requires StrictlyAscending(gs) && gs != [] && Less(gs[0].key, k)
    requires StrictlyAscending(AddTo(gs[1..], k, v))
    requires GroupKeys(AddTo(gs[1..], k, v)) == GroupKeys(gs[1..]) + {k}
    ensures StrictlyAscending(AddTo(gs, k, v))
  {
    LessIrreflexive(k);
    LessAsymmetric(gs[0].key, k);
    var rest := AddTo(gs[1..], k, v);
    var r := AddTo(gs, k, v);
    assert r == [gs[0]] + rest;
    forall i, j | 0 <= i < j < |r| ensures Less(r[i].key, r[j].key) {
      if i == 0 {
        assert r[j] == rest[j - 1];
        assert r[j].key in GroupKeys(rest);
        if r[j].key != k {
          AscendingAboveHead(gs, r[j].key);
        }
      } else {
        assert r[i] == rest[i - 1] && r[j] == rest[j - 1];
      }
    }
  }

  /** The step past a smaller first label, given the facts for the tail. */
  lemma AddToBehind(gs: seq<Group>, k: string, v: int)
    requires gs != [] && Less(gs[0].key, k)
    requires GroupKeys(AddTo(gs[1..], k, v)) == GroupKeys(gs[1..]) + {k}
    requires SumValues(AddTo(gs[1..], k, v)) == SumValues(gs[1..]) + v
    requires forall k' :: Lookup(AddTo(gs[1..], k, v), k') == Lookup(gs[1..], k') + (if k' == k then v else 0)
    ensures GroupKeys(AddTo(gs, k, v)) == GroupKeys(gs) + {k}
    ensures SumValues(AddTo(gs, k, v)) == SumValues(gs) + v
    ensures forall k' :: Lookup(AddTo(gs, k, v), k') == Lookup(gs, k') + (if k' == k then v else 0)
  {
    LessIrreflexive(k);
    LessAsymmetric(gs[0].key, k);
    var rest := AddTo(gs[1..], k, v);
    var r := AddTo(gs, k, v);
    assert r == [gs[0]] + rest;
    assert r[1..] == rest;
    GroupKeysCons(gs[0], gs[1..]);
    assert gs == [gs[0]] + gs[1..];
    GroupKeysCons(gs[0], rest);
  }

  lemma {:induction false} AddToFacts(gs: seq<Group>, k: string, v: int)
    requires StrictlyAscending(gs)
    ensures StrictlyAscending(AddTo(gs, k, v))
    ensures GroupKeys(AddTo(gs, k, v)) == GroupKeys(gs) + {k}
    ensures SumValues(AddTo(gs, k, v)) == SumValues(gs) + v
    ensures forall k' :: Lookup(AddTo(gs, k, v), k') == Lookup(gs, k') + (if k' == k then v else 0)
  {
    if gs == [] {
      GroupKeysCons(Group(k, v), []);
      assert [Group(k, v)] + [] == [Group(k, v)];
    } else if gs[0].key == k {
      AddToHit(gs, k, v);
      AddToHitLookup(gs, k, v);
    } else if Less(k, gs[0].key) {
      AddToFront(gs, k, v);
    } else {
      LessTotal(k, gs[0].key);
      StrictlyAscendingTail(gs);
      AddToFacts(gs[1..], k, v);
      AddToBehindAscending(gs, k, v);
      AddToBehind(gs, k, v);
    }
  }

  /** What `groupby` computes: groups in strictly ascending key order, one for
      every value present in the column and no other, each holding the measure
      of exactly the rows with its key, and together holding the measure of
      all rows. */
  lemma KeysOfCons(rs: seq<Order>, c: Column)
    requires rs != []
    ensures KeysOf(rs, c) == KeysOf(rs[1..], c) + {KeyOf(rs[0], c)}
  {
    var tail := rs[1..];
    assert rs == [rs[0]] + tail;
    forall x ensures x in KeysOf(rs, c) <==> x in KeysOf(tail, c) + {KeyOf(rs[0], c)} {
      if x in KeysOf(tail, c) {
        var o :| o in tail && KeyOf(o, c) == x;
        assert o in rs;
      }
    }
  }

  lemma TallySelectCons(rs: seq<Order>, c: Column, m: Measure)
    requires rs != []
    ensures forall k :: Tally(Select(rs, c, k), m)
                        == Tally(Select(rs[1..], c, k), m) + (if KeyOf(rs[0], c) == k then Weight(rs[0], m) else 0)
  {
    var tail := rs[1..];
    forall k ensures Tally(Select(rs, c, k), m) == Tally(Select(tail, c, k), m) + (if KeyOf(rs[0], c) == k then Weight(rs[0], m) else 0) {
      if KeyOf(rs[0], c) == k {
        assert ([rs[0]] + Select(tail, c, k))[1..] == Select(tail, c, k);
      }
    }
  }

  lemma {:induction false} GroupByFacts(rs: seq<Order>, c: Column, m: Measure)
    ensures StrictlyAscending(GroupBy(rs, c, m))
    ensures GroupKeys(GroupBy(rs, c, m)) == KeysOf(rs, c)
    ensures SumValues(GroupBy(rs, c, m)) == Tally(rs, m)
    ensures forall k :: Lookup(GroupBy(rs, c, m), k) == Tally(Select(rs, c, k), m)
  {
    if rs != [] {
      var tail := rs[1..];
      GroupByFacts(tail, c, m);
      AddToFacts(GroupBy(tail, c, m), KeyOf(rs[0], c), Weight(rs[0], m));
      KeysOfCons(rs, c);
      TallySelectCons(rs, c, m);
    }
  }

  lemma StrictlyAscendingDistinct(gs: seq<Group>)
    requires StrictlyAscending(gs)
    ensures DistinctKeys(gs)
  {
    forall i, j | 0 <= i < j < |gs| ensures gs[i].key != gs[j].key {
      LessIrreflexive(gs[i].key);
    }
  }

  /** With distinct labels, looking a group's label up yields that group. */
  lemma {:induction false} LookupMember(gs: seq<Group>, g: Group)
    requires DistinctKeys(gs) && g in gs
    ensures Lookup(gs, g.key) == g.value
  {
    if gs[0] != g {
      assert g in gs[1..];
      LookupMember(gs[1..], g);
    }
  }

  /** With distinct labels, there are as many labels as groups. */
  lemma {:induction false} DistinctKeysCount(gs: seq<Group>)
    requires DistinctKeys(gs)
    ensures |GroupKeys(gs)| == |gs|
  {
    if gs != [] {
      var tail := gs[1..];
      DistinctKeysTail(gs);
      DistinctKeysCount(tail);
      assert gs == [gs[0]] + tail;
      GroupKeysCons(gs[0], tail);
    }
  }

  /** Each group of a `groupby` holds a value present in the column, and the
      measure of exactly the rows carrying that value. */
  lemma GroupValues(rs: seq<Order>, c: Column, m: Measure)
    ensures forall g :: g in GroupBy(rs, c, m) ==>
      g.key in KeysOf(rs, c) && g.value == Tally(Select(rs, c, g.key), m)
  {
    var gs := GroupBy(rs, c, m);
    GroupByFacts(rs, c, m);
    StrictlyAscendingDistinct(gs);
    forall g | g in gs ensures g.key in KeysOf(rs, c) && g.value == Tally(Select(rs, c, g.key), m) {
      LookupMember(gs, g);
      assert g.key in GroupKeys(gs);
    }
  }

  /** `groupby(...).size()` never reports an empty group. */
  lemma SizeGroupsPositive(rs: seq<Order>, c: Column)
    ensures forall g :: g in GroupBy(rs, c, Size) ==> g.value >= 1
  {
    GroupValues(rs, c, Size);
    forall g | g in GroupBy(rs, c, Size) ensures g.value >= 1 {
      var o :| o in rs && KeyOf(o, c) == g.key;
      assert o in Select(rs, c, g.key);
    }
  }

  /** There are never more labels than groups, and exactly as many only when
      no label repeats. */
  lemma {:induction false} GroupKeysCount(gs: seq<Group>)
    ensures |GroupKeys(gs)| <= |gs|
    ensures |GroupKeys(gs)| == |gs| ==> DistinctKeys(gs)
  {
    if gs != [] {
      GroupKeysCount(gs[1..]);
      GroupKeysCons(gs[0], gs[1..]);
      assert gs == [gs[0]] + gs[1..];
      if |GroupKeys(gs)| == |gs| {
        assert gs[0].key !in GroupKeys(gs[1..]);
        forall i, j | 0 <= i < j < |gs| ensures gs[i].key != gs[j].key {
          if i == 0 {
            assert gs[1..][j - 1] == gs[j];
            assert gs[j] in gs[1..];
          } else {
            assert gs[1..][i - 1] == gs[i] && gs[1..][j - 1] == gs[j];
          }
        }
      }
    }
  }

  lemma DistinctKeysTail(gs: seq<Group>)
    requires gs != [] && DistinctKeys(gs)
    ensures DistinctKeys(gs[1..]) && gs[0].key !in GroupKeys(gs[1..])
  {
    forall g | g in gs[1..] ensures g.key != gs[0].key {
      var i :| 0 <= i < |gs[1..]| && gs[1..][i] == g;
      assert gs[i + 1] == g;
    }
  }
}
