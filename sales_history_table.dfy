/**
 * SalesHistoryTable: the paginated sales history of the reports page. The
 * component's own logic is arithmetic on the page number, a list of expanded
 * rows, a units column and a payment-method icon; the rows themselves come
 * from getSales with limit 10 and an offset derived from the page.
 */
module SalesHistoryTable {
  import opened Wrappers
  import opened Seqs
  import opened Text
  import opened Calendar
  import opened Schema
  import SaleService
  import PosSection

  const ITEMS_PER_PAGE: nat := 10

  /** `Math.ceil(totalRows / ITEMS_PER_PAGE) || 1`: the page count, one even when there is nothing to show. */
  function TotalPages(totalRows: nat): (r: nat)
    ensures r >= 1
    ensures totalRows == 0 ==> r == 1
    ensures totalRows > 0 ==> (r - 1) * ITEMS_PER_PAGE < totalRows <= r * ITEMS_PER_PAGE
  {
    if totalRows == 0 then 1 else (totalRows + ITEMS_PER_PAGE - 1) / ITEMS_PER_PAGE
  }

  /** The offset sent with each fetch: `(currentPage - 1) * ITEMS_PER_PAGE`. */
  function Offset(page: int): int {
    (page - 1) * ITEMS_PER_PAGE
  }

  /** First row number of the footer, counting from one. */
  function StartRange(page: int): int {
    Offset(page) + 1
  }

  /** Last row number of the footer: `Math.min(currentPage * ITEMS_PER_PAGE, totalRows)`. */
  function EndRange(page: int, totalRows: nat): int {
    Min(page * ITEMS_PER_PAGE, totalRows)
  }

  /** The rows the table fetches for a page (limit 10 at the page's offset). */
  function Fetch(sales: seq<Sale>, saleItems: seq<SaleItem>, page: int,
                 startDate: Option<Date>, endDate: Option<Date>): seq<SaleService.SaleWithItems>
    requires page >= 1
  {
    SaleService.GetSales(sales, saleItems, ITEMS_PER_PAGE, Offset(page), startDate, endDate)
  }

  /**
   * When totalRows is the number of matching sales, each page from 1 to
   * totalPages fetches a non-empty page whose size is what the footer's
   * "start-end" range announces, and a page beyond the last fetches nothing
   * (so the footer is hidden).
   */
  lemma FooterDescribesFetchedPage(sales: seq<Sale>, saleItems: seq<SaleItem>, page: int,
                                   startDate: Option<Date>, endDate: Option<Date>)
    requires page >= 1
    ensures var totalRows := |SaleService.InRange(sales, startDate, endDate)|;
      var fetched := Fetch(sales, saleItems, page, startDate, endDate);
      && (totalRows > 0 && page <= TotalPages(totalRows) ==>
            fetched != [] && StartRange(page) <= EndRange(page, totalRows)
            && |fetched| == EndRange(page, totalRows) - StartRange(page) + 1)
      && (page > TotalPages(totalRows) ==> fetched == [])
  {
    var totalRows := |SaleService.InRange(sales, startDate, endDate)|;
    var fetched := Fetch(sales, saleItems, page, startDate, endDate);
    assert |fetched| == if Offset(page) >= totalRows then 0 else Min(ITEMS_PER_PAGE, totalRows - Offset(page));
    PageRange(totalRows, page);
  }

  /** The footer's arithmetic: pages up to totalPages start inside the rows and hold what the range spans; later pages start past them. */
  lemma PageRange(totalRows: nat, page: int)
    requires page >= 1
    ensures totalRows > 0 && page <= TotalPages(totalRows) ==>
      && Offset(page) < totalRows
      && StartRange(page) <= EndRange(page, totalRows)
      && Min(ITEMS_PER_PAGE, totalRows - Offset(page)) == EndRange(page, totalRows) - StartRange(page) + 1
    ensures page > TotalPages(totalRows) ==> Offset(page) >= totalRows
  {
    var tp := TotalPages(totalRows);
    if page > tp {
      assert page - 1 >= tp;
      OffsetMonotone(tp, page - 1);
      assert Offset(page) >= tp * ITEMS_PER_PAGE;
    } else if totalRows > 0 {
      OffsetMonotone(page, tp);
    }
  }

  /** Later pages start further down: `(p - 1) * 10` grows with p. */
  lemma OffsetMonotone(p: int, q: int)
    requires p <= q
    ensures Offset(p) <= Offset(q) && p * ITEMS_PER_PAGE <= q * ITEMS_PER_PAGE
  {
  }

  /** The "previous" button: `setCurrentPage(p => Math.max(1, p - 1))`. */
  function PrevPage(page: int): int {
    Max(1, page - 1)
  }

  /** The "next" button: `setCurrentPage(p => Math.min(totalPages, p + 1))`. */
  function NextPage(page: int, totalPages: nat): int {
    Min(totalPages, page + 1)
  }

  /**
   * Both buttons keep the page between 1 and totalPages, move it by exactly
   * one, and stay put only at the corresponding end.
   */
  lemma PageMovesStayInRange(page: int, totalRows: nat)
    requires 1 <= page <= TotalPages(totalRows)
    ensures var tp := TotalPages(totalRows);
      && 1 <= PrevPage(page) <= tp && 1 <= NextPage(page, tp) <= tp
      && (PrevPage(page) == page <==> page == 1)
      && (page > 1 ==> PrevPage(page) == page - 1)
      && (NextPage(page, tp) == page <==> page == tp)
      && (page < tp ==> NextPage(page, tp) == page + 1)
  {
  }

  /** `toggleRow`: drop the id when it is expanded, append it otherwise. */
  function ToggleRow(expanded: seq<int>, id: int): (r: seq<int>)
    ensures id in r <==> id !in expanded
    ensures forall x :: x != id ==> (x in r <==> x in expanded)
  {
    if id in expanded then Filter(expanded, NotId(id)) else expanded + [id]
  }

  /** `rowId => rowId !== id` */
  function NotId(id: int): int -> bool {
    x => x != id
  }

  /** The expanded list never holds an id twice. */
  lemma ToggleKeepsNoDuplicates(expanded: seq<int>, id: int)
    requires NoDuplicates(expanded)
    ensures NoDuplicates(ToggleRow(expanded, id))
  {
    if id in expanded {
      FilterKeepsNoDuplicates(expanded, NotId(id));
    } else {
      var r := expanded + [id];
      forall i, j | 0 <= i < j < |r| ensures r[i] != r[j] {
        if j == |expanded| {
          assert r[i] == expanded[i];
        } else {
          assert r[i] == expanded[i] && r[j] == expanded[j];
        }
      }
    }
  }

  /**
   * Toggling the same row twice restores which rows are expanded; when the
   * row was collapsed it restores the list itself.
   */
  lemma ToggleTwice(expanded: seq<int>, id: int)
    ensures forall x :: x in ToggleRow(ToggleRow(expanded, id), id) <==> x in expanded
    ensures id !in expanded ==> ToggleRow(ToggleRow(expanded, id), id) == expanded
  {
    if id !in expanded {
      DropAppended(expanded, id);
    }
  }

  lemma {:induction false} DropAppended(s: seq<int>, id: int)
    requires id !in s
    ensures Filter(s + [id], NotId(id)) == s
    decreases |s|
  {
    if s == [] {
      FilterCons(id, [], NotId(id));
      assert [id] + [] == [id];
    } else {
      assert s + [id] == [s[0]] + (s[1..] + [id]);
      FilterCons(s[0], s[1..] + [id], NotId(id));
      DropAppended(s[1..], id);
      assert [s[0]] + s[1..] == s;
    }
  }

  /** `item.quantity || 0`: a missing (or zero) quantity counts as nothing. */
  function UnitsOf(quantity: Option<int>): int {
    if quantity.Some? then quantity.value else 0
  }

  /** `items.reduce((acc, item) => acc + (item.quantity || 0), 0)` over the items' quantities. */
  function TotalUnits(quantities: seq<Option<int>>): (r: int)
    ensures (forall i :: 0 <= i < |quantities| ==> quantities[i].None?) ==> r == 0
    ensures (forall i :: 0 <= i < |quantities| ==> quantities[i].Some? ==> quantities[i].value >= 0) ==> r >= 0
    decreases |quantities|
  {
    if quantities == [] then 0
    else TotalUnits(quantities[..|quantities| - 1]) + UnitsOf(quantities[|quantities| - 1])
  }

  /** The quantities of stored item rows, all present. */
  function StoredQuantities(items: seq<SaleItem>): seq<Option<int>> {
    seq(|items|, i requires 0 <= i < |items| => Some(items[i].quantity))
  }

  lemma {:induction false} TotalUnitsOfPresent(qs: seq<int>)
    ensures TotalUnits(seq(|qs|, i requires 0 <= i < |qs| => Some(qs[i]))) == SumInt(qs)
    decreases |qs|
  {
    if qs != [] {
      var front := qs[..|qs| - 1];
      TotalUnitsOfPresent(front);
      var all := seq(|qs|, i requires 0 <= i < |qs| => Some(qs[i]));
      assert all[..|all| - 1] == seq(|front|, i requires 0 <= i < |front| => Some(front[i]));
    }
  }

  /**
   * The units column of a sale recorded from the point-of-sale cart shows the
   * number of units that were in the cart.
   */
  lemma HistoryShowsCartUnits(cart: seq<PosSection.CartEntry>, paymentMethod: string, saleId: nat, counter: nat)
    ensures var request := PosSection.CheckoutRequest(cart, paymentMethod);
      TotalUnits(StoredQuantities(SaleService.ItemRows(saleId, counter, request.items))) == PosSection.Units(cart)
  {
    var request := PosSection.CheckoutRequest(cart, paymentMethod);
    var rows := SaleService.ItemRows(saleId, counter, request.items);
    var qs := PosSection.Quantities(cart);
    TotalUnitsOfPresent(qs);
    assert StoredQuantities(rows) == seq(|qs|, i requires 0 <= i < |qs| => Some(qs[i]));
  }

  /** The three icons of the method column. */
  datatype PaymentIcon = Banknote | CreditCard | ArrowRightLeft

  /** `getPaymentIcon`: the first of efectivo, tarjeta, transferencia found in the lower-cased method. */
  function PaymentIconFor(paymentMethod: Option<string>): (r: Option<PaymentIcon>)
    ensures var m := Lower(paymentMethod.GetOr(""));
      && (r == Some(Banknote) <==> Contains(m, "efectivo"))
      && (r == Some(CreditCard) <==> !Contains(m, "efectivo") && Contains(m, "tarjeta"))
      && (r == Some(ArrowRightLeft) <==>
            !Contains(m, "efectivo") && !Contains(m, "tarjeta") && Contains(m, "transferencia"))
      && (r == None <==>
            !Contains(m, "efectivo") && !Contains(m, "tarjeta") && !Contains(m, "transferencia"))
  {
    var m := Lower(paymentMethod.GetOr(""));
    if Contains(m, "efectivo") then Some(Banknote)
    else if Contains(m, "tarjeta") then Some(CreditCard)
    else if Contains(m, "transferencia") then Some(ArrowRightLeft)
    else None
  }

  /** Lower-casing twice is lower-casing once. */
  lemma LowerIdempotent(s: string)
    ensures Lower(Lower(s)) == Lower(s)
  {
  }

  /** The classification does not depend on letter case. */
  lemma PaymentIconIgnoresCase(paymentMethod: string)
    ensures PaymentIconFor(Some(Lower(paymentMethod))) == PaymentIconFor(Some(paymentMethod))
  {
    LowerIdempotent(paymentMethod);
  }

  /** "Efectivo", the cash button's method, gets the banknote icon. */
  lemma CashGetsBanknote()
    ensures PaymentIconFor(Some("Efectivo")) == Some(Banknote)
  {
    assert Lower("Efectivo") == "efectivo";
    assert OccursAt("efectivo", "efectivo", 0);
  }

  /** "Tarjeta", the card button's method, gets the credit-card icon. */
  lemma CardGetsCreditCard()
    ensures PaymentIconFor(Some("Tarjeta")) == Some(CreditCard)
  {
    assert Lower("Tarjeta") == "tarjeta";
    assert OccursAt("tarjeta", "tarjeta", 0);
  }

  /** "Transferencia", the transfer button's method, gets the transfer icon. */
  lemma TransferGetsArrows()
    ensures PaymentIconFor(Some("Transferencia")) == Some(ArrowRightLeft)
  {
    var t := "transferencia";
    assert Lower("Transferencia") == t;
    assert OccursAt(t, t, 0);
    TransferNamesNoOtherMethod();
  }

  lemma TransferNamesNoOtherMethod()
    ensures !Contains("transferencia", "efectivo") && !Contains("transferencia", "tarjeta")
  {
    var t := "transferencia";
    forall i | 0 <= i <= |t| - 8 ensures !OccursAt(t, "efectivo", i) {
      assert i == 0 || i == 1 || i == 2 || i == 3 || i == 4 || i == 5;
      assert t[i..i + 8][0] == t[i] && t[i..i + 8][1] == t[i + 1];
    }
    forall i | 0 <= i <= |t| - 7 ensures !OccursAt(t, "tarjeta", i) {
      assert t[i..i + 7][0] == t[i] && t[i..i + 7][1] == t[i + 1];
    }
  }

  /** The component state the handlers update. */
  datatype TableState = TableState(currentPage: int, expandedRows: seq<int>)

  /** What every reachable state satisfies. */
  predicate Reachable(s: TableState) {
    s.currentPage >= 1 && NoDuplicates(s.expandedRows)
  }

  /** Mounting: page 1, nothing expanded. */
  function Initial(): (s: TableState)
    ensures Reachable(s)
  {
    TableState(1, [])
  }

  /** Every handler, as an event on the state. */
  datatype TableEvent = DateRangeChanged | Prev | Next(totalRows: nat) | Toggle(id: int)

  function Handle(s: TableState, e: TableEvent): TableState {
    match e
    case DateRangeChanged => s.(currentPage := 1)
    case Prev => s.(currentPage := PrevPage(s.currentPage))
    case Next(totalRows) => s.(currentPage := NextPage(s.currentPage, TotalPages(totalRows)))
    case Toggle(id) => s.(expandedRows := ToggleRow(s.expandedRows, id))
  }

  /**
   * Every handler keeps the page at least 1 (so each fetch has a non-negative
   * offset) and the expanded list free of duplicates; a new date range goes
   * back to page 1, and only the toggle touches the expanded list.
   */
  lemma HandlersKeepReachable(s: TableState, e: TableEvent)
    requires Reachable(s)
    ensures Reachable(Handle(s, e))
    ensures e == DateRangeChanged ==> Handle(s, e) == TableState(1, s.expandedRows)
    ensures !e.Toggle? ==> Handle(s, e).expandedRows == s.expandedRows
    ensures e.Toggle? ==> Handle(s, e).currentPage == s.currentPage
  {
    if e.Toggle? {
      ToggleKeepsNoDuplicates(s.expandedRows, e.id);
    }
  }
}
