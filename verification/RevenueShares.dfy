/**
 Revenue per category and per product type: sold items are grouped by a key of their product, each
 group is rounded to cents and to hundredths of a percent, and the groups are sorted by revenue.

 Amounts are exact. A unit price is in cents before tax, so one item's revenue with 20 % tax is a whole
 number of tenths of a cent.
 */
module RevenueShares {
  import opened Common

  type ProductId = string
  type Key = string

  datatype Item = Item(productId: ProductId, unitPrice: int, quantity: int)
  datatype Group = Group(key: Key, revenue: int, count: int)

  /** What the report shows: revenue in cents, percentage in hundredths of a percent. */
  datatype Share = Share(key: Key, cents: int, percentage: int, count: int)

  function Units(item: Item): int {
    if item.quantity == 0 then 1 else item.quantity
  }

  /** Revenue of one item with tax, in tenths of a cent. */
  function ItemRevenue(item: Item): int {
    item.unitPrice * Units(item) * 12
  }

  function KeyOf(item: Item, keys: map<ProductId, Key>): Key {
    if item.productId in keys && keys[item.productId] != "" then keys[item.productId] else "unknown"
  }

  function RevenueOf(items: seq<Item>, keys: map<ProductId, Key>, key: Key): int {
    if items == [] then 0
    else
      var item := items[|items| - 1];
      RevenueOf(items[..|items| - 1], keys, key) + if KeyOf(item, keys) == key then ItemRevenue(item) else 0
  }

  function CountOf(items: seq<Item>, keys: map<ProductId, Key>, key: Key): int {
    if items == [] then 0
    else
      var item := items[|items| - 1];
      CountOf(items[..|items| - 1], keys, key) + if KeyOf(item, keys) == key then Units(item) else 0
  }

  function TotalRevenue(items: seq<Item>): int {
    if items == [] then 0 else TotalRevenue(items[..|items| - 1]) + ItemRevenue(items[|items| - 1])
  }

  /** The keys in order of first appearance, the iteration order of the accumulating map. */
  function KeysIn(items: seq<Item>, keys: map<ProductId, Key>): seq<Key> {
    if items == [] then []
    else
      var before := KeysIn(items[..|items| - 1], keys);
      var key := KeyOf(items[|items| - 1], keys);
      if key in before then before else before + [key]
  }

  function Groups(items: seq<Item>, keys: map<ProductId, Key>): seq<Group> {
    var order := KeysIn(items, keys);
    seq(|order|, i requires 0 <= i < |order|
      => Group(order[i], RevenueOf(items, keys, order[i]), CountOf(items, keys, order[i])))
  }

  /** `Math.round(a / b)`: the floor of a / b + 1/2. */
  function RoundDiv(a: int, b: int): int
    requires b > 0
  {
    (2 * a + b) / (2 * b)
  }

  function ShareOf(group: Group, total: int): Share {
    Share(group.key, RoundDiv(group.revenue, 10),
          if total > 0 then RoundDiv(group.revenue * 10000, total) else 0, group.count)
  }

  function Shares(groups: seq<Group>, total: int): seq<Share> {
    if groups == [] then [] else Shares(groups[..|groups| - 1], total) + [ShareOf(groups[|groups| - 1], total)]
  }

  /** Inserts behind every share of at least its revenue, as a stable descending sort does. */
  function InsertDesc(shares: seq<Share>, share: Share): seq<Share> {
    if shares == [] || shares[|shares| - 1].cents >= share.cents then shares + [share]
    else InsertDesc(shares[..|shares| - 1], share) + [shares[|shares| - 1]]
  }

  function SortDesc(shares: seq<Share>): seq<Share> {
    if shares == [] then [] else InsertDesc(SortDesc(shares[..|shares| - 1]), shares[|shares| - 1])
  }

  method Aggregate(items: seq<Item>, keys: map<ProductId, Key>) returns (report: seq<Share>)
    ensures report == SortDesc(Shares(Groups(items, keys), TotalRevenue(items)))
    ensures ReportsItems(report, items, keys)
  {
    ReportInItems(items, keys);
    hide ReportsItems;
    hide KeyOf, ItemRevenue, Units, ShareOf, SortDesc;
    var order, revenue, count, total := Accumulate(items, keys);
    report := [];
    ghost var groups := Groups(items, keys);
    for i := 0 to |order|
      invariant report == Shares(groups[..i], total)
    {
      assert groups[..i + 1][..i] == groups[..i];
      assert order[i] in order;
      report := report + [ShareOf(Group(order[i], revenue[order[i]], count[order[i]]), total)];
    }
    assert groups[..|order|] == groups;
    report := SortDesc(report);
  }

  /** The accumulating loop: a map from key to revenue and count, and the running total. */
  method Accumulate(items: seq<Item>, keys: map<ProductId, Key>)
    returns (order: seq<Key>, revenue: map<Key, int>, count: map<Key, int>, total: int)
    ensures order == KeysIn(items, keys)
    ensures forall k :: k in order ==> k in revenue && revenue[k] == RevenueOf(items, keys, k)
    ensures forall k :: k in order ==> k in count && count[k] == CountOf(items, keys, k)
    ensures total == TotalRevenue(items)
  {
    hide KeyOf, ItemRevenue, Units;
    order, revenue, count, total := [], map[], map[], 0;
    for i := 0 to |items|
      invariant order == KeysIn(items[..i], keys)
      invariant forall k :: k in order <==> k in revenue
      invariant forall k :: k in order <==> k in count
      invariant forall k :: RevenueOf(items[..i], keys, k) == if k in revenue then revenue[k] else 0
      invariant forall k :: CountOf(items[..i], keys, k) == if k in count then count[k] else 0
      invariant total == TotalRevenue(items[..i])
    {
      assert items[..i + 1][..i] == items[..i];
      var key := KeyOf(items[i], keys);
      if key in revenue {
        revenue := revenue[key := revenue[key] + ItemRevenue(items[i])];
        count := count[key := count[key] + Units(items[i])];
      } else {
        order := order + [key];
        revenue := revenue[key := ItemRevenue(items[i])];
        count := count[key := Units(items[i])];
      }
      total := total + ItemRevenue(items[i]);
    }
    assert items[..|items|] == items;
  }

  // ------------------------------------------------------------------------------------------
  // Conservation: the groups partition the items
  // ------------------------------------------------------------------------------------------

  lemma {:induction false} KeysInDistinct(items: seq<Item>, keys: map<ProductId, Key>)
    ensures NoDuplicates(KeysIn(items, keys))
    ensures forall k :: 0 <= k < |items| ==> KeyOf(items[k], keys) in KeysIn(items, keys)
  {
    if items != [] {
      var n := |items| - 1;
      KeysInDistinct(items[..n], keys);
      forall k | 0 <= k < |items|
        ensures KeyOf(items[k], keys) in KeysIn(items, keys)
      {
        if k < n {
          assert KeyOf(items[..n][k], keys) in KeysIn(items[..n], keys);
        }
      }
    }
  }

  function SumOver(order: seq<Key>, items: seq<Item>, keys: map<ProductId, Key>): int {
    if order == [] then 0
    else SumOver(order[..|order| - 1], items, keys) + RevenueOf(items, keys, order[|order| - 1])
  }

  /** One more item adds its revenue to the one key it has, if that key is listed. */
  lemma {:induction false} SumOverStep(order: seq<Key>, items: seq<Item>, item: Item, keys: map<ProductId, Key>)
    requires NoDuplicates(order)
    ensures SumOver(order, items + [item], keys)
            == SumOver(order, items, keys) + if KeyOf(item, keys) in order then ItemRevenue(item) else 0
  {
    assert (items + [item])[..|items|] == items;
    if order != [] {
      SumOverStep(order[..|order| - 1], items, item, keys);
    }
  }

  lemma {:induction false} SumOverNothing(order: seq<Key>, keys: map<ProductId, Key>)
    ensures SumOver(order, [], keys) == 0
  {
    if order != [] {
      SumOverNothing(order[..|order| - 1], keys);
    }
  }

  lemma {:induction false} SumOverAll(order: seq<Key>, items: seq<Item>, keys: map<ProductId, Key>)
    requires NoDuplicates(order)
    requires forall k :: 0 <= k < |items| ==> KeyOf(items[k], keys) in order
    ensures SumOver(order, items, keys) == TotalRevenue(items)
  {
    if items == [] {
      SumOverNothing(order, keys);
    } else {
      var n := |items| - 1;
      SumOverAll(order, items[..n], keys);
      SumOverStep(order, items[..n], items[n], keys);
      assert items == items[..n] + [items[n]];
    }
  }

  function GroupRevenue(groups: seq<Group>): int {
    if groups == [] then 0 else GroupRevenue(groups[..|groups| - 1]) + groups[|groups| - 1].revenue
  }

  lemma {:induction false} GroupRevenueIsSumOver(items: seq<Item>, keys: map<ProductId, Key>, n: nat)
    requires n <= |Groups(items, keys)|
    ensures GroupRevenue(Groups(items, keys)[..n]) == SumOver(KeysIn(items, keys)[..n], items, keys)
  {
    if n > 0 {
      GroupRevenueIsSumOver(items, keys, n - 1);
      assert Groups(items, keys)[..n][..n - 1] == Groups(items, keys)[..n - 1];
      assert KeysIn(items, keys)[..n][..n - 1] == KeysIn(items, keys)[..n - 1];
    }
  }

  /** The revenues of the groups add up to the revenue of all the items, to the tenth of a cent. */
  lemma GroupsConserve(items: seq<Item>, keys: map<ProductId, Key>)
    ensures GroupRevenue(Groups(items, keys)) == TotalRevenue(items)
  {
    var order := KeysIn(items, keys);
    KeysInDistinct(items, keys);
    SumOverAll(order, items, keys);
    GroupRevenueIsSumOver(items, keys, |order|);
    assert Groups(items, keys)[..|order|] == Groups(items, keys) && order[..|order|] == order;
  }

  // ------------------------------------------------------------------------------------------
  // Rounding: the shown figures stay within half a unit per group of the exact ones
  // ------------------------------------------------------------------------------------------

  lemma RoundDivError(a: int, b: int)
    requires b > 0
    ensures -b < 2 * (b * RoundDiv(a, b)) - 2 * a <= b
  {
    var q, r := (2 * a + b) / (2 * b), (2 * a + b) % (2 * b);
    assert 2 * a + b == (2 * b) * q + r;
    assert (2 * b) * q == 2 * (b * q);
  }

  function SumPercentages(shares: seq<Share>): int {
    if shares == [] then 0 else SumPercentages(shares[..|shares| - 1]) + shares[|shares| - 1].percentage
  }

  function SumCents(shares: seq<Share>): int {
    if shares == [] then 0 else SumCents(shares[..|shares| - 1]) + shares[|shares| - 1].cents
  }

  lemma DriftStep(total: int, p: int, q: int, exact: int, revenue: int, n: int)
    requires -total * n <= 2 * (total * p) - 20000 * exact <= total * n
    requires -total < 2 * (total * q) - 2 * (revenue * 10000) <= total
    ensures -total * (n + 1) <= 2 * (total * (p + q)) - 20000 * (exact + revenue) <= total * (n + 1)
  {
    assert total * (p + q) == total * p + total * q;
    assert total * (n + 1) == total * n + total;
    assert -total * (n + 1) == -total * n - total;
  }

  lemma {:induction false} PercentageDrift(groups: seq<Group>, total: int)
    requires total > 0
    ensures |Shares(groups, total)| == |groups|
    ensures -total * |groups| <= 2 * (total * SumPercentages(Shares(groups, total))) - 20000 * GroupRevenue(groups)
            <= total * |groups|
  {
    if groups != [] {
      var n := |groups| - 1;
      var before, share := Shares(groups[..n], total), ShareOf(groups[n], total);
      PercentageDrift(groups[..n], total);
      RoundDivError(groups[n].revenue * 10000, total);
      assert share.percentage == RoundDiv(groups[n].revenue * 10000, total);
      hide RoundDiv, ShareOf;
      assert (before + [share])[..n] == before;
      DriftStep(total, SumPercentages(before), share.percentage, GroupRevenue(groups[..n]), groups[n].revenue, n);
    }
  }

  lemma {:induction false} CentsDrift(groups: seq<Group>, total: int)
    ensures |Shares(groups, total)| == |groups|
    ensures -10 * |groups| <= 20 * SumCents(Shares(groups, total)) - 2 * GroupRevenue(groups) <= 10 * |groups|
  {
    if groups != [] {
      var n := |groups| - 1;
      var before, share := Shares(groups[..n], total), ShareOf(groups[n], total);
      CentsDrift(groups[..n], total);
      RoundDivError(groups[n].revenue, 10);
      assert (before + [share])[..n] == before;
    }
  }

  // ------------------------------------------------------------------------------------------
  // Sorting neither adds nor loses figures
  // ------------------------------------------------------------------------------------------

  predicate Descending(shares: seq<Share>) {
    forall i, j :: 0 <= i < j < |shares| ==> shares[i].cents >= shares[j].cents
  }

  lemma {:induction false} InsertDescPermutes(shares: seq<Share>, share: Share)
    ensures multiset(InsertDesc(shares, share)) == multiset(shares) + multiset{share}
  {
    if shares != [] && shares[|shares| - 1].cents < share.cents {
      var n := |shares| - 1;
      InsertDescPermutes(shares[..n], share);
      assert shares == shares[..n] + [shares[n]];
    }
  }

  lemma {:induction false} InsertDescSums(shares: seq<Share>, share: Share)
    ensures SumPercentages(InsertDesc(shares, share)) == SumPercentages(shares) + share.percentage
    ensures SumCents(InsertDesc(shares, share)) == SumCents(shares) + share.cents
  {
    if shares == [] || shares[|shares| - 1].cents >= share.cents {
      assert (shares + [share])[..|shares|] == shares;
    } else {
      var n := |shares| - 1;
      var rest := InsertDesc(shares[..n], share);
      InsertDescSums(shares[..n], share);
      assert (rest + [shares[n]])[..|rest|] == rest;
    }
  }

  lemma {:induction false} InsertDescSorted(shares: seq<Share>, share: Share)
    requires Descending(shares)
    ensures Descending(InsertDesc(shares, share))
    ensures forall i :: 0 <= i < |InsertDesc(shares, share)|
                        ==> InsertDesc(shares, share)[i] == share || InsertDesc(shares, share)[i] in shares
  {
    if shares != [] && shares[|shares| - 1].cents < share.cents {
      var n := |shares| - 1;
      var rest := InsertDesc(shares[..n], share);
      InsertDescSorted(shares[..n], share);
      forall i | 0 <= i < |rest|
        ensures rest[i].cents >= shares[n].cents
        ensures rest[i] == share || rest[i] in shares
      {
        if rest[i] != share {
          var j :| 0 <= j < n && shares[..n][j] == rest[i];
          assert shares[j] == rest[i];
        }
      }
    }
  }

  lemma {:induction false} SortDescSums(shares: seq<Share>)
    ensures SumPercentages(SortDesc(shares)) == SumPercentages(shares)
    ensures SumCents(SortDesc(shares)) == SumCents(shares)
  {
    hide InsertDesc;
    if shares != [] {
      var n := |shares| - 1;
      SortDescSums(shares[..n]);
      InsertDescSums(SortDesc(shares[..n]), shares[n]);
    }
  }

  /** Sorting permutes the entries and leaves the largest revenue first. */
  lemma {:induction false} SortDescSorts(shares: seq<Share>)
    ensures Descending(SortDesc(shares))
    ensures multiset(SortDesc(shares)) == multiset(shares)
  {
    hide InsertDesc, Descending;
    if shares == [] {
      EmptyDescending();
    } else {
      var n := |shares| - 1;
      SortDescSorts(shares[..n]);
      InsertDescPermutes(SortDesc(shares[..n]), shares[n]);
      InsertDescSorted(SortDesc(shares[..n]), shares[n]);
      assert shares == shares[..n] + [shares[n]];
    }
  }

  /** Sorting is stable: what is in order already, ties included, stays as it is. */
  lemma {:induction false} SortedStays(shares: seq<Share>)
    requires Descending(shares)
    ensures SortDesc(shares) == shares
  {
    if shares != [] {
      var n := |shares| - 1;
      SortedStays(shares[..n]);
      assert shares == shares[..n] + [shares[n]];
    }
  }

  lemma EmptyDescending()
    ensures Descending([])
  {
  }

  /** The report as `Aggregate` returns it. */
  function Report(items: seq<Item>, keys: map<ProductId, Key>): seq<Share> {
    SortDesc(Shares(Groups(items, keys), TotalRevenue(items)))
  }

  lemma HalfUnitPerGroup(total: int, sum: int, n: int)
    requires total > 0 && n >= 0
    requires -total * n <= 2 * (total * sum) - 20000 * total <= total * n
    ensures -n <= 2 * (sum - 10000) <= n
  {
    var e := 2 * (sum - 10000);
    assert total * e == 2 * (total * sum) - 20000 * total;
    if e > n {
      MulStrict(total, n, e);
    } else if e < -n {
      MulStrict(total, e, -n);
    }
  }

  lemma MulStrict(t: int, a: int, b: int)
    requires t > 0 && a < b
    ensures t * a < t * b
  {
  }

  /**
   With a positive total, the n percentages shown add up to within n / 2 hundredths of 100 %, and the
   revenues shown add up to within n / 2 cents of the items' revenue.
   */
  lemma SharesAddUp(items: seq<Item>, keys: map<ProductId, Key>)
    ensures var report := Report(items, keys);
            var n: int := |report|;
            var total := TotalRevenue(items);
            && n == |KeysIn(items, keys)|
            && (total > 0 ==> -n <= 2 * (SumPercentages(report) - 10000) <= n)
            && -10 * n <= 20 * SumCents(report) - 2 * total <= 10 * n
            && Descending(report)
  {
    var groups, total := Groups(items, keys), TotalRevenue(items);
    GroupsConserve(items, keys);
    SortDescSums(Shares(groups, total));
    SortDescSorts(Shares(groups, total));
    CentsDrift(groups, total);
    SortedLength(Shares(groups, total));
    if total > 0 {
      PercentageDrift(groups, total);
      HalfUnitPerGroup(total, SumPercentages(Shares(groups, total)), |groups|);
    }
  }

  lemma SortedLength(shares: seq<Share>)
    ensures |SortDesc(shares)| == |shares|
  {
    SortDescSorts(shares);
    assert |multiset(SortDesc(shares))| == |multiset(shares)|;
  }

  // ------------------------------------------------------------------------------------------
  // The report in terms of the items
  // ------------------------------------------------------------------------------------------

  /** The item's product has this key; products without one, and unknown products, have the key "unknown". */
  predicate HasKey(item: Item, keys: map<ProductId, Key>, key: Key) {
    key == if item.productId !in keys || keys[item.productId] == "" then "unknown" else keys[item.productId]
  }

  datatype Amounts = Amounts(revenue: int, units: int)

  /** Tenths of a cent with 20 % tax, and units, of the items of a key; a quantity of 0 counts as 1. */
  function Earned(items: seq<Item>, keys: map<ProductId, Key>, key: Key): Amounts {
    if items == [] then Amounts(0, 0)
    else
      var before, item := Earned(items[..|items| - 1], keys, key), items[|items| - 1];
      var units := if item.quantity == 0 then 1 else item.quantity;
      if HasKey(item, keys, key) then Amounts(before.revenue + item.unitPrice * units * 12, before.units + units)
      else before
  }

  function EarnedAll(items: seq<Item>): int {
    if items == [] then 0
    else
      var item := items[|items| - 1];
      EarnedAll(items[..|items| - 1]) + item.unitPrice * (if item.quantity == 0 then 1 else item.quantity) * 12
  }

  predicate Listed(report: seq<Share>, key: Key) {
    exists i :: 0 <= i < |report| && report[i].key == key
  }

  /** Every key of an item has exactly one entry, with its units, its revenue to the cent and its share of the total. */
  ghost predicate ReportsItems(report: seq<Share>, items: seq<Item>, keys: map<ProductId, Key>) {
    && (forall i, j :: 0 <= i < j < |report| ==> report[i].key != report[j].key)
    && (forall i, j :: 0 <= i < j < |report| ==> report[i].cents >= report[j].cents)
    && (forall key :: Listed(report, key) <==> exists k :: 0 <= k < |items| && HasKey(items[k], keys, key))
    && (forall i :: 0 <= i < |report| ==> ReportsKey(report[i], Earned(items, keys, report[i].key), EarnedAll(items)))
  }

  /** Half a cent and half a hundredth of a percent are rounded up. */
  predicate ReportsKey(share: Share, earned: Amounts, total: int) {
    && share.count == earned.units
    && -10 < 20 * share.cents - 2 * earned.revenue <= 10
    && if total > 0 then -total < 2 * (total * share.percentage) - 20000 * earned.revenue <= total
       else share.percentage == 0
  }

  lemma {:induction false} EarnedIsRevenue(items: seq<Item>, keys: map<ProductId, Key>, key: Key)
    ensures Earned(items, keys, key) == Amounts(RevenueOf(items, keys, key), CountOf(items, keys, key))
  {
    if items != [] {
      EarnedIsRevenue(items[..|items| - 1], keys, key);
    }
  }

  lemma {:induction false} EarnedAllIsTotal(items: seq<Item>)
    ensures EarnedAll(items) == TotalRevenue(items)
  {
    if items != [] {
      EarnedAllIsTotal(items[..|items| - 1]);
    }
  }

  lemma {:induction false} KeysOfItems(items: seq<Item>, keys: map<ProductId, Key>, key: Key)
    ensures key in KeysIn(items, keys) <==> exists k :: 0 <= k < |items| && HasKey(items[k], keys, key)
  {
    if items != [] {
      var n := |items| - 1;
      KeysOfItems(items[..n], keys, key);
      if k :| 0 <= k < n && HasKey(items[..n][k], keys, key) {
        assert HasKey(items[k], keys, key);
      }
      if k :| 0 <= k < n && HasKey(items[k], keys, key) {
        assert HasKey(items[..n][k], keys, key);
      }
      assert KeyOf(items[n], keys) == key <==> HasKey(items[n], keys, key);
    }
  }

  predicate DistinctKeys(shares: seq<Share>) {
    forall i, j :: 0 <= i < j < |shares| ==> shares[i].key != shares[j].key
  }

  lemma {:induction false} InsertDescKeys(shares: seq<Share>, share: Share)
    requires DistinctKeys(shares) && forall i :: 0 <= i < |shares| ==> shares[i].key != share.key
    ensures DistinctKeys(InsertDesc(shares, share))
  {
    if shares != [] && shares[|shares| - 1].cents < share.cents {
      var n := |shares| - 1;
      var rest := InsertDesc(shares[..n], share);
      InsertDescKeys(shares[..n], share);
      InsertDescPermutes(shares[..n], share);
      forall i | 0 <= i < |rest|
        ensures rest[i].key != shares[n].key
      {
        assert rest[i] in multiset(rest);
        assert rest[i] == share || rest[i] in shares[..n];
      }
    }
  }

  lemma {:induction false} SortDescKeys(shares: seq<Share>)
    requires DistinctKeys(shares)
    ensures DistinctKeys(SortDesc(shares))
  {
    if shares != [] {
      var n := |shares| - 1;
      SortDescKeys(shares[..n]);
      SortDescSorts(shares[..n]);
      var sorted := SortDesc(shares[..n]);
      forall i | 0 <= i < |sorted|
        ensures sorted[i].key != shares[n].key
      {
        assert sorted[i] in multiset(sorted);
        assert sorted[i] in shares[..n];
      }
      InsertDescKeys(sorted, shares[n]);
    }
  }

  lemma {:induction false} SharesAt(groups: seq<Group>, total: int)
    ensures |Shares(groups, total)| == |groups|
    ensures forall i :: 0 <= i < |groups| ==> Shares(groups, total)[i] == ShareOf(groups[i], total)
  {
    if groups != [] {
      SharesAt(groups[..|groups| - 1], total);
    }
  }

  lemma ShareReports(items: seq<Item>, keys: map<ProductId, Key>, key: Key)
    ensures ReportsKey(ShareOf(Group(key, RevenueOf(items, keys, key), CountOf(items, keys, key)), TotalRevenue(items)),
                       Earned(items, keys, key), EarnedAll(items))
  {
    hide Earned, RevenueOf, CountOf, EarnedAll, TotalRevenue, RoundDiv;
    EarnedIsRevenue(items, keys, key);
    EarnedAllIsTotal(items);
    RoundDivError(RevenueOf(items, keys, key), 10);
    if TotalRevenue(items) > 0 {
      RoundDivError(RevenueOf(items, keys, key) * 10000, TotalRevenue(items));
    }
  }

  /** The report holds the share of each group, in some order. */
  lemma ReportRows(items: seq<Item>, keys: map<ProductId, Key>)
    ensures var order, report := KeysIn(items, keys), Report(items, keys);
            && DistinctKeys(report) && Descending(report)
            && (forall key :: Listed(report, key) <==> key in order)
            && forall i :: 0 <= i < |report| ==>
                 report[i] == ShareOf(Group(report[i].key, RevenueOf(items, keys, report[i].key),
                                            CountOf(items, keys, report[i].key)), TotalRevenue(items))
  {
    hide RevenueOf, CountOf, TotalRevenue, KeysIn, Shares, SortDesc, RoundDiv, Descending;
    var order, groups, total := KeysIn(items, keys), Groups(items, keys), TotalRevenue(items);
    var shares, report := Shares(groups, total), Report(items, keys);
    SharesAt(groups, total);
    KeysInDistinct(items, keys);
    SortDescKeys(shares);
    SortDescSorts(shares);
    forall i | 0 <= i < |report|
      ensures exists k :: 0 <= k < |order| && report[i] == shares[k]
    {
      assert report[i] in multiset(report);
      assert report[i] in shares;
    }
    forall key
      ensures Listed(report, key) <==> key in order
    {
      if key in order {
        var k :| 0 <= k < |order| && order[k] == key;
        assert shares[k] in multiset(shares);
        assert shares[k] in report;
      }
    }
  }

  /** For every list of items and every table of keys: what the report says, in terms of the items alone. */
  lemma ReportInItems(items: seq<Item>, keys: map<ProductId, Key>)
    ensures ReportsItems(Report(items, keys), items, keys)
  {
    hide Earned, RevenueOf, CountOf, EarnedAll, TotalRevenue, KeysIn, Report, ShareOf, HasKey, ReportsKey, Listed;
    var report := Report(items, keys);
    ReportRows(items, keys);
    forall key
      ensures Listed(report, key) <==> exists k :: 0 <= k < |items| && HasKey(items[k], keys, key)
    {
      KeysOfItems(items, keys, key);
    }
    forall i | 0 <= i < |report|
      ensures ReportsKey(report[i], Earned(items, keys, report[i].key), EarnedAll(items))
    {
      ShareReports(items, keys, report[i].key);
    }
  }
}
