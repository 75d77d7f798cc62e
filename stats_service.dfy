/**
 * The dashboard aggregates and the top-products ranking: single aggregate
 * queries over the sales inside the inclusive window
 * ['<startDate> 00:00:00', '<endDate> 23:59:59'], written here as folds
 * over the tables.
 */
module StatsService {
  import opened Wrappers
  import opened Seqs
  import opened Calendar
  import opened Schema
  import SaleService

  /** `status = @status AND created_at >= @start AND created_at <= @end` */
  predicate Selected(x: Sale, status: Status, startDate: Date, endDate: Date) {
    x.status == status && InWindow(x.createdAt, startDate, endDate)
  }

  /** SELECT COUNT(*) FROM sales WHERE <Selected> */
  function CountSelected(sales: seq<Sale>, status: Status, startDate: Date, endDate: Date): (n: nat)
    ensures n <= |sales|
  {
    if sales == [] then 0
    else
      CountSelected(sales[..|sales| - 1], status, startDate, endDate)
        + (if Selected(sales[|sales| - 1], status, startDate, endDate) then 1 else 0)
  }

  /** The count is zero exactly when no sale has the status inside the window. */
  lemma {:induction false} CountZeroIffNoneSelected(sales: seq<Sale>, status: Status, startDate: Date, endDate: Date)
    ensures CountSelected(sales, status, startDate, endDate) == 0
        <==> forall i :: 0 <= i < |sales| ==> !Selected(sales[i], status, startDate, endDate)
    decreases |sales|
  {
    if sales != [] {
      var prefix := sales[..|sales| - 1];
      CountZeroIffNoneSelected(prefix, status, startDate, endDate);
      assert forall i :: 0 <= i < |prefix| ==> prefix[i] == sales[i];
    }
  }

  /** SELECT SUM(total_amount) FROM sales WHERE <Selected>; SQL's SUM is NULL over no rows. */
  function SumSelected(sales: seq<Sale>, status: Status, startDate: Date, endDate: Date): (r: Option<real>)
    ensures r.None? <==> CountSelected(sales, status, startDate, endDate) == 0
  {
    if sales == [] then None
    else
      var prev := SumSelected(sales[..|sales| - 1], status, startDate, endDate);
      var last := sales[|sales| - 1];
      if Selected(last, status, startDate, endDate) then Some(prev.GetOr(0.0) + last.totalAmount) else prev
  }

  /** `SUM(...) || 0` */
  function Amount(sales: seq<Sale>, status: Status, startDate: Date, endDate: Date): real {
    SumSelected(sales, status, startDate, endDate).GetOr(0.0)
  }

  datatype DashboardStats = DashboardStats(totalIncome: real, totalSales: nat, averageTicket: real,
                                           cancelledCount: nat, cancelledAmount: real)

  /** getDashboardStats(startDate, endDate) */
  function GetDashboardStats(sales: seq<Sale>, startDate: Date, endDate: Date): (r: DashboardStats)
    ensures r.totalSales == CountSelected(sales, Completed, startDate, endDate)
    ensures r.totalIncome == Amount(sales, Completed, startDate, endDate)
    ensures r.cancelledCount == CountSelected(sales, Cancelled, startDate, endDate)
    ensures r.cancelledAmount == Amount(sales, Cancelled, startDate, endDate)
    ensures r.totalSales == 0 ==> r.averageTicket == 0.0 && r.totalIncome == 0.0
    ensures r.totalSales > 0 ==> r.averageTicket * r.totalSales as real == r.totalIncome
    ensures r.cancelledCount == 0 ==> r.cancelledAmount == 0.0
  {
    var income := SumSelected(sales, Completed, startDate, endDate);
    var count := CountSelected(sales, Completed, startDate, endDate);
    var cancelledCount := CountSelected(sales, Cancelled, startDate, endDate);
    var cancelledAmount := SumSelected(sales, Cancelled, startDate, endDate);
    var average := if count > 0 then income.value / count as real else 0.0;
    DashboardStats(income.GetOr(0.0), count, average, cancelledCount, cancelledAmount.GetOr(0.0))
  }

  /** The number of sales inside the window, whatever their status. */
  function CountInWindow(sales: seq<Sale>, startDate: Date, endDate: Date): nat {
    if sales == [] then 0
    else
      CountInWindow(sales[..|sales| - 1], startDate, endDate)
        + (if InWindow(sales[|sales| - 1].createdAt, startDate, endDate) then 1 else 0)
  }

  /** Completed and cancelled together count every sale in the window exactly once. */
  lemma {:induction false} CountsPartitionWindow(sales: seq<Sale>, startDate: Date, endDate: Date)
    ensures CountSelected(sales, Completed, startDate, endDate) + CountSelected(sales, Cancelled, startDate, endDate)
         == CountInWindow(sales, startDate, endDate)
    decreases |sales|
  {
    if sales != [] {
      CountsPartitionWindow(sales[..|sales| - 1], startDate, endDate);
    }
  }

  /** What one sale adds to the COUNT and to the SUM of a status. */
  function CountShare(x: Sale, status: Status, startDate: Date, endDate: Date): int {
    if Selected(x, status, startDate, endDate) then 1 else 0
  }

  function AmountShare(x: Sale, status: Status, startDate: Date, endDate: Date): real {
    if Selected(x, status, startDate, endDate) then x.totalAmount else 0.0
  }

  function CountShares(sales: seq<Sale>, status: Status, startDate: Date, endDate: Date): seq<int> {
    seq(|sales|, j requires 0 <= j < |sales| => CountShare(sales[j], status, startDate, endDate))
  }

  function AmountShares(sales: seq<Sale>, status: Status, startDate: Date, endDate: Date): seq<real> {
    seq(|sales|, j requires 0 <= j < |sales| => AmountShare(sales[j], status, startDate, endDate))
  }

  /** The COUNT is the sum of the sales' shares. */
  lemma {:induction false} CountIsSumOfShares(sales: seq<Sale>, status: Status, startDate: Date, endDate: Date)
    ensures CountSelected(sales, status, startDate, endDate) == SumInt(CountShares(sales, status, startDate, endDate))
    decreases |sales|
  {
    if sales != [] {
      var prefix := sales[..|sales| - 1];
      CountIsSumOfShares(prefix, status, startDate, endDate);
      assert CountShares(sales, status, startDate, endDate)[..|sales| - 1] == CountShares(prefix, status, startDate, endDate);
    }
  }

  /** `SUM(...) || 0` is the sum of the sales' shares. */
  lemma {:induction false} AmountIsSumOfShares(sales: seq<Sale>, status: Status, startDate: Date, endDate: Date)
    ensures Amount(sales, status, startDate, endDate) == Sum(AmountShares(sales, status, startDate, endDate))
    decreases |sales|
  {
    if sales != [] {
      var prefix := sales[..|sales| - 1];
      AmountIsSumOfShares(prefix, status, startDate, endDate);
      assert AmountShares(sales, status, startDate, endDate)[..|sales| - 1] == AmountShares(prefix, status, startDate, endDate);
    }
  }

  /**
   * Cancelling one completed sale of the window moves it from the completed
   * figures to the cancelled ones: one sale and its amount change sides.
   */
  lemma CancelMovesSale(sales: seq<Sale>, i: nat, startDate: Date, endDate: Date)
    requires i < |sales| && Selected(sales[i], Completed, startDate, endDate)
    requires forall j :: 0 <= j < |sales| && j != i ==> sales[j].id != sales[i].id
    ensures var after := SaleService.WithStatus(sales, sales[i].id, Cancelled);
      && CountSelected(after, Completed, startDate, endDate) + 1 == CountSelected(sales, Completed, startDate, endDate)
      && CountSelected(after, Cancelled, startDate, endDate) == CountSelected(sales, Cancelled, startDate, endDate) + 1
      && Amount(after, Completed, startDate, endDate) + sales[i].totalAmount == Amount(sales, Completed, startDate, endDate)
      && Amount(after, Cancelled, startDate, endDate) == Amount(sales, Cancelled, startDate, endDate) + sales[i].totalAmount
  {
    var after := SaleService.WithStatus(sales, sales[i].id, Cancelled);
    assert after[i] == sales[i].(status := Cancelled);
    forall status: Status
      ensures CountSelected(after, status, startDate, endDate) - CountShare(after[i], status, startDate, endDate)
           == CountSelected(sales, status, startDate, endDate) - CountShare(sales[i], status, startDate, endDate)
      ensures Amount(after, status, startDate, endDate) - AmountShare(after[i], status, startDate, endDate)
           == Amount(sales, status, startDate, endDate) - AmountShare(sales[i], status, startDate, endDate)
    {
      CountIsSumOfShares(sales, status, startDate, endDate);
      CountIsSumOfShares(after, status, startDate, endDate);
      AmountIsSumOfShares(sales, status, startDate, endDate);
      AmountIsSumOfShares(after, status, startDate, endDate);
      var counts, countsAfter := CountShares(sales, status, startDate, endDate), CountShares(after, status, startDate, endDate);
      var amounts, amountsAfter := AmountShares(sales, status, startDate, endDate), AmountShares(after, status, startDate, endDate);
      SumIntPointwise(counts, countsAfter, i, countsAfter[i] - counts[i]);
      SumPointwise(amounts, amountsAfter, i, amountsAfter[i] - amounts[i]);
    }
  }

  /** The JOIN with sales and the WHERE clause keep an item when its sale is completed and in the window. */
  predicate Qualifies(it: SaleItem, sales: seq<Sale>, startDate: Date, endDate: Date) {
    exists j :: 0 <= j < |sales| && sales[j].id == it.saleId && Selected(sales[j], Completed, startDate, endDate)
  }

  function Joined(saleItems: seq<SaleItem>, sales: seq<Sale>, startDate: Date, endDate: Date): seq<SaleItem> {
    Filter(saleItems, (it: SaleItem) => Qualifies(it, sales, startDate, endDate))
  }

  function ProductIdsOf(items: seq<SaleItem>): seq<nat> {
    seq(|items|, i requires 0 <= i < |items| => items[i].productId)
  }

  /** The rows of one GROUP BY product_id group. */
  function GroupOf(items: seq<SaleItem>, productId: nat): seq<SaleItem> {
    Filter(items, (it: SaleItem) => it.productId == productId)
  }

  function Quantities(items: seq<SaleItem>): seq<int> {
    seq(|items|, i requires 0 <= i < |items| => items[i].quantity)
  }

  function Subtotals(items: seq<SaleItem>): seq<real> {
    seq(|items|, i requires 0 <= i < |items| => items[i].subtotal)
  }

  /** A row of the ranking; `productId` is the group key, which the query itself does not select. */
  datatype TopProduct = TopProduct(productId: nat, name: string, sold: int, revenue: real)

  function Sold(g: TopProduct): int {
    g.sold
  }

  /** The result row of the group of `productId`: SUM(quantity), SUM(subtotal) and one of the group's names. */
  function GroupRow(joined: seq<SaleItem>, productId: nat): (g: TopProduct)
    requires productId in ProductIdsOf(joined)
    ensures var group := GroupOf(joined, productId);
      && g.productId == productId && group != [] && g.name == group[0].productName
      && g.sold == SumInt(Quantities(group)) && g.revenue == Sum(Subtotals(group))
  {
    var group := GroupOf(joined, productId);
    var i :| 0 <= i < |joined| && joined[i].productId == productId;
    assert joined[i] in group;
    TopProduct(productId, group[0].productName, SumInt(Quantities(group)), Sum(Subtotals(group)))
  }

  /** GROUP BY product_id: one row per product id occurring among `joined`. */
  function Groups(joined: seq<SaleItem>): (r: seq<TopProduct>)
    ensures forall i, j :: 0 <= i < j < |r| ==> r[i].productId != r[j].productId
    ensures forall k :: 0 <= k < |r| ==> r[k].productId in ProductIdsOf(joined) && r[k] == GroupRow(joined, r[k].productId)
    ensures forall pid :: pid in ProductIdsOf(joined) ==> exists k :: 0 <= k < |r| && r[k].productId == pid
  {
    var ids := Distinct(ProductIdsOf(joined));
    var r := seq(|ids|, k requires 0 <= k < |ids| => GroupRow(joined, ids[k]));
    forall k | 0 <= k < |r|
      ensures r[k].productId == ids[k] && r[k].productId in ProductIdsOf(joined)
      ensures r[k] == GroupRow(joined, r[k].productId)
    {
      assert r[k] == GroupRow(joined, ids[k]);
    }
    forall i, j | 0 <= i < j < |r| ensures r[i].productId != r[j].productId {
      assert ids[i] != ids[j];
    }
    assert forall pid :: pid in ProductIdsOf(joined) ==> exists k :: 0 <= k < |r| && r[k].productId == pid by {
      forall pid | pid in ProductIdsOf(joined) ensures exists k :: 0 <= k < |r| && r[k].productId == pid {
        assert pid in ids;
        var k :| 0 <= k < |ids| && ids[k] == pid;
        assert r[k].productId == pid;
      }
    }
    r
  }

  /** Sorting the groups keeps exactly the same rows, so product ids stay distinct. */
  lemma RankingKeepsGroups(groups: seq<TopProduct>, ranked: seq<TopProduct>)
    requires forall i, j :: 0 <= i < j < |groups| ==> groups[i].productId != groups[j].productId
    requires multiset(ranked) == multiset(groups)
    ensures forall g :: g in ranked <==> g in groups
    ensures forall i, j :: 0 <= i < j < |ranked| ==> ranked[i].productId != ranked[j].productId
  {
    forall g ensures g in ranked <==> g in groups {
      assert g in ranked <==> multiset(ranked)[g] > 0;
      assert g in groups <==> multiset(groups)[g] > 0;
    }
    PermutationKeepsNoDuplicates(groups, ranked);
    forall i, j | 0 <= i < j < |ranked| ensures ranked[i].productId != ranked[j].productId {
      assert ranked[i] in groups && ranked[j] in groups;
      var a :| 0 <= a < |groups| && groups[a] == ranked[i];
      var b :| 0 <= b < |groups| && groups[b] == ranked[j];
      assert a != b;
    }
  }

  /** ORDER BY sold DESC LIMIT 10 over the groups. */
  function TopTen(groups: seq<TopProduct>): (r: seq<TopProduct>)
    requires forall i, j :: 0 <= i < j < |groups| ==> groups[i].productId != groups[j].productId
    ensures |r| <= 10
    ensures forall g :: g in r ==> g in groups
    ensures forall i, j :: 0 <= i < j < |r| ==> r[i].productId != r[j].productId && r[i].sold >= r[j].sold
    ensures forall g :: g in groups ==> g in r || (|r| == 10 && g.sold <= r[9].sold)
  {
    var ranked := SortDesc(groups, Sold);
    RankingKeepsGroups(groups, ranked);
    var r := Window(ranked, 0, 10);
    forall g | g in groups ensures g in r || (|r| == 10 && g.sold <= r[9].sold) {
      var m :| 0 <= m < |ranked| && ranked[m] == g;
      if m < |r| {
        assert r[m] == g;
      }
    }
    r
  }

  /** Each row of the ranking is the row of its own group. */
  lemma RankedRowsDescribeGroups(joined: seq<SaleItem>, groups: seq<TopProduct>, r: seq<TopProduct>)
    requires groups == Groups(joined)
    requires forall g :: g in r ==> g in groups
    ensures forall k :: 0 <= k < |r| ==>
      var group := GroupOf(joined, r[k].productId);
      && group != [] && (exists it :: it in group && it.productName == r[k].name)
      && r[k].sold == SumInt(Quantities(group)) && r[k].revenue == Sum(Subtotals(group))
  {
    forall k | 0 <= k < |r|
      ensures var group := GroupOf(joined, r[k].productId);
        && group != [] && (exists it :: it in group && it.productName == r[k].name)
        && r[k].sold == SumInt(Quantities(group)) && r[k].revenue == Sum(Subtotals(group))
    {
      assert r[k] in groups;
      var a :| 0 <= a < |groups| && groups[a] == r[k];
      var pid := r[k].productId;
      assert r[k] == GroupRow(joined, pid);
      var group := GroupOf(joined, pid);
      assert group[0] in group && group[0].productName == r[k].name;
    }
  }

  /** A product left out of the ranking sold no more than the tenth row. */
  lemma RankingCoversProducts(joined: seq<SaleItem>, groups: seq<TopProduct>, r: seq<TopProduct>)
    requires groups == Groups(joined)
    requires forall g :: g in groups ==> g in r || (|r| == 10 && g.sold <= r[9].sold)
    ensures forall pid :: pid in ProductIdsOf(joined) ==>
      || (exists k :: 0 <= k < |r| && r[k].productId == pid)
      || (|r| == 10 && SumInt(Quantities(GroupOf(joined, pid))) <= r[9].sold)
  {
    forall pid | pid in ProductIdsOf(joined)
      ensures || (exists k :: 0 <= k < |r| && r[k].productId == pid)
              || (|r| == 10 && SumInt(Quantities(GroupOf(joined, pid))) <= r[9].sold)
    {
      var k :| 0 <= k < |groups| && groups[k].productId == pid;
      assert groups[k] == GroupRow(joined, pid);
      assert groups[k] in groups;
      if groups[k] in r {
        var m :| 0 <= m < |r| && r[m] == groups[k];
        assert r[m].productId == pid;
      }
    }
  }

  /** The ranking of the joined rows: the best-selling groups, at most 10 of them. */
  function Ranking(joined: seq<SaleItem>): (r: seq<TopProduct>)
    ensures |r| <= 10
    ensures forall i, j :: 0 <= i < j < |r| ==> r[i].productId != r[j].productId && r[i].sold >= r[j].sold
    ensures forall k :: 0 <= k < |r| ==>
      var group := GroupOf(joined, r[k].productId);
      && group != [] && (exists it :: it in group && it.productName == r[k].name)
      && r[k].sold == SumInt(Quantities(group)) && r[k].revenue == Sum(Subtotals(group))
    ensures forall pid :: pid in ProductIdsOf(joined) ==>
      || (exists k :: 0 <= k < |r| && r[k].productId == pid)
      || (|r| == 10 && SumInt(Quantities(GroupOf(joined, pid))) <= r[9].sold)
  {
    var groups := Groups(joined);
    var r := TopTen(groups);
    RankedRowsDescribeGroups(joined, groups, r);
    RankingCoversProducts(joined, groups, r);
    r
  }

  /**
   * getTopProducts(startDate, endDate): at most ten rows, one per product,
   * from the items of completed sales in the window, best sellers first.
   */
  function GetTopProducts(sales: seq<Sale>, saleItems: seq<SaleItem>, startDate: Date, endDate: Date): (r: seq<TopProduct>)
    ensures |r| <= 10
    ensures forall i, j :: 0 <= i < j < |r| ==> r[i].productId != r[j].productId && r[i].sold >= r[j].sold
    ensures forall k :: 0 <= k < |r| ==>
      var group := GroupOf(Joined(saleItems, sales, startDate, endDate), r[k].productId);
      && group != [] && (exists it :: it in group && it.productName == r[k].name)
      && r[k].sold == SumInt(Quantities(group)) && r[k].revenue == Sum(Subtotals(group))
    ensures forall pid :: pid in ProductIdsOf(Joined(saleItems, sales, startDate, endDate)) ==>
      || (exists k :: 0 <= k < |r| && r[k].productId == pid)
      || (|r| == 10 && SumInt(Quantities(GroupOf(Joined(saleItems, sales, startDate, endDate), pid))) <= r[9].sold)
  {
    Ranking(Joined(saleItems, sales, startDate, endDate))
  }
}
