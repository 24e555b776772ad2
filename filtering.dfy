/** The sidebar filter: keep the rows whose region is one of the selected
    regions and whose gender is one of the selected genders. */
module Filtering {
  import opened Orders

  /** The row mask: `Region.isin(regions) & Gender.isin(genders)`. */
  predicate Selected(o: Order, regions: set<string>, genders: set<string>) {
    o.region in regions && o.gender in genders
  }

  /** `r` can be obtained from `s` by deleting elements, keeping the order. */
  predicate IsSubsequence(r: seq<Order>, s: seq<Order>)
    decreases |s|
  {
    if r == [] then true
    else if s == [] then false
    else (r[0] == s[0] && IsSubsequence(r[1..], s[1..])) || IsSubsequence(r, s[1..])
  }

  /** The filtered view: the selected rows in their original order. */
  function FilterOrders(s: seq<Order>, regions: set<string>, genders: set<string>): (r: seq<Order>)
    ensures |r| <= |s|
  {
    if s == [] then []
    else if Selected(s[0], regions, genders) then [s[0]] + FilterOrders(s[1..], regions, genders)
    else FilterOrders(s[1..], regions, genders)
  }

  /** The filtered view holds exactly the selected rows, each as often as in
      the input, in their original order. */
  lemma {:induction false} FilterOrdersFacts(s: seq<Order>, regions: set<string>, genders: set<string>)
    ensures IsSubsequence(FilterOrders(s, regions, genders), s)
    ensures forall o :: multiset(FilterOrders(s, regions, genders))[o]
                        == if Selected(o, regions, genders) then multiset(s)[o] else 0
    ensures forall o :: o in FilterOrders(s, regions, genders) <==> o in s && Selected(o, regions, genders)
  {
    if s != [] {
      var rest := FilterOrders(s[1..], regions, genders);
      FilterOrdersFacts(s[1..], regions, genders);
      assert s == [s[0]] + s[1..];
      if Selected(s[0], regions, genders) {
        assert ([s[0]] + rest)[1..] == rest;
      }
    }
  }

  /** Selecting no region or no gender empties the view: there is no implicit
      "select all". */
  lemma FilterEmptySelection(s: seq<Order>, regions: set<string>, genders: set<string>)
    requires regions == {} || genders == {}
    ensures FilterOrders(s, regions, genders) == []
  {
  }

  /** When every row is selected (the sidebar's default selects every value
      present), the view is the whole table. */
  lemma {:induction false} FilterAllSelected(s: seq<Order>, regions: set<string>, genders: set<string>)
    requires forall o :: o in s ==> Selected(o, regions, genders)
    ensures FilterOrders(s, regions, genders) == s
  {
    if s != [] {
      FilterAllSelected(s[1..], regions, genders);
      assert s == [s[0]] + s[1..];
    }
  }

  /** Filtering the filtered view again changes nothing. */
  lemma FilterIdempotent(s: seq<Order>, regions: set<string>, genders: set<string>)
    ensures FilterOrders(FilterOrders(s, regions, genders), regions, genders)
         == FilterOrders(s, regions, genders)
  {
    FilterOrdersFacts(s, regions, genders);
    FilterAllSelected(FilterOrders(s, regions, genders), regions, genders);
  }
}
