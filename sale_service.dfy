/**
 * The sale ledger: createSale records a header row and one row per item in
 * a single transaction, getSales reads a window of the history newest first
 * with each sale's items attached, and cancelSale / restoreSale move a sale
 * between the two states `completed` and `cancelled`.
 */
module SaleService {
  import opened Wrappers
  import opened Seqs
  import opened Calendar
  import opened Schema

  /** One entry of the `items` array handed to createSale: a cart entry. */
  datatype LineInput = LineInput(id: nat, name: string, price: real, quantity: int)

  /** The argument of createSale. */
  datatype SaleRequest = SaleRequest(paymentMethod: string, items: seq<LineInput>, total: real)

  function LineSubtotal(item: LineInput): real {
    item.price * item.quantity as real
  }

  /** The sale_items rows that createSale inserts for `items`, with ids continuing after `counter`. */
  function ItemRows(saleId: nat, counter: nat, items: seq<LineInput>): (r: seq<SaleItem>)
    ensures |r| == |items|
    ensures forall k :: 0 <= k < |r| ==>
      && r[k].id == counter + 1 + k && r[k].saleId == saleId
      && r[k].productId == items[k].id && r[k].productName == items[k].name
      && r[k].quantity == items[k].quantity && r[k].unitPrice == items[k].price
      && r[k].subtotal == items[k].price * items[k].quantity as real
  {
    seq(|items|, k requires 0 <= k < |items| =>
      SaleItem(counter + 1 + k, saleId, items[k].id, items[k].name, items[k].quantity, items[k].price, LineSubtotal(items[k])))
  }

  /** Every item names an existing product, so no insert violates the foreign key on product_id. */
  predicate AllProductsExist(products: seq<Product>, items: seq<LineInput>) {
    forall k :: 0 <= k < |items| ==> HasProduct(products, items[k].id)
  }

  /**
   * createSale, all or nothing. On success the sales table gains exactly one
   * row (status 'completed', the caller's total stored as given, a fresh id
   * above every earlier one) and sale_items gains exactly one row per item,
   * all carrying that id. If an item insert fails, the transaction rolls back
   * and no table or counter changes.
   */
  method CreateSale(db: Db, sale: SaleRequest, now: DateTime) returns (r: Result<nat, DbError>)
    requires db.Valid() && WellFormedTime(now)
    modifies db
    ensures db.Valid()
    ensures db.products == old(db.products) && db.productSeq == old(db.productSeq)
    ensures AllProductsExist(old(db.products), sale.items) ==>
      && r == Success(old(db.saleSeq) + 1)
      && db.sales == old(db.sales) + [Sale(old(db.saleSeq) + 1, sale.total, sale.paymentMethod, Completed, now)]
      && db.saleItems == old(db.saleItems) + ItemRows(old(db.saleSeq) + 1, old(db.itemSeq), sale.items)
      && db.saleSeq == old(db.saleSeq) + 1
      && db.itemSeq == old(db.itemSeq) + |sale.items|
    ensures !AllProductsExist(old(db.products), sale.items) ==>
      && r.Failure?
      && db.sales == old(db.sales) && db.saleItems == old(db.saleItems)
      && db.saleSeq == old(db.saleSeq) && db.itemSeq == old(db.itemSeq)
  {
    var saleId := db.saleSeq + 1;
    var header := Sale(saleId, sale.total, sale.paymentMethod, Completed, now);
    // Rows written inside the transaction; they reach the tables only on commit.
    var staged: seq<SaleItem> := [];
    var i := 0;
    while i < |sale.items|
      invariant 0 <= i <= |sale.items|
      invariant staged == ItemRows(saleId, db.itemSeq, sale.items[..i])
      invariant AllProductsExist(db.products, sale.items[..i])
    {
      var item := sale.items[i];
      if !HasProduct(db.products, item.id) {
        // The insert throws; the transaction rolls back.
        return Failure(ForeignKeyConstraint(item.id));
      }
      staged := staged + [SaleItem(db.itemSeq + 1 + i, saleId, item.id, item.name, item.quantity, item.price, LineSubtotal(item))];
      i := i + 1;
    }
    assert sale.items[..i] == sale.items;
    CommitKeepsConstraints(db.products, db.sales, db.saleItems, db.saleSeq, db.itemSeq, header, staged, sale.items);
    db.sales := db.sales + [header];
    db.saleItems := db.saleItems + staged;
    db.saleSeq := saleId;
    db.itemSeq := db.itemSeq + |sale.items|;
    r := Success(saleId);
  }

  lemma CommitKeepsConstraints(products: seq<Product>, sales: seq<Sale>, items: seq<SaleItem>,
                               saleSeq: nat, itemSeq: nat, header: Sale, staged: seq<SaleItem>, lines: seq<LineInput>)
    requires SaleIds(sales, saleSeq) && ItemIds(items, itemSeq) && ItemsReference(items, sales, products)
    requires header.id == saleSeq + 1
    requires staged == ItemRows(saleSeq + 1, itemSeq, lines)
    requires AllProductsExist(products, lines)
    ensures SaleIds(sales + [header], saleSeq + 1)
    ensures ItemIds(items + staged, itemSeq + |lines|)
    ensures ItemsReference(items + staged, sales + [header], products)
  {
    var sales' := sales + [header];
    var items' := items + staged;
    assert HasSale(sales', header.id) by {
      assert sales'[|sales|] == header;
    }
    forall k | 0 <= k < |items'|
      ensures HasSale(sales', items'[k].saleId) && HasProduct(products, items'[k].productId)
    {
      if k < |items| {
        var i :| 0 <= i < |sales| && sales[i].id == items[k].saleId;
        assert sales'[i] == sales[i];
      } else {
        assert items'[k] == staged[k - |items|];
      }
    }
  }

  /** The rows of sale_items belonging to sale `id`, in table order. */
  function ItemsOfSale(saleItems: seq<SaleItem>, id: nat): seq<SaleItem> {
    Filter(saleItems, (it: SaleItem) => it.saleId == id)
  }

  /** A sale as getSales returns it: the row, its items, and `timestamp` copied from created_at. */
  datatype SaleWithItems = SaleWithItems(sale: Sale, items: seq<SaleItem>, timestamp: DateTime)

  /** The date filter applies only when both dates are given. */
  function InRange(sales: seq<Sale>, startDate: Option<Date>, endDate: Option<Date>): seq<Sale> {
    if startDate.Some? && endDate.Some? then
      Filter(sales, (s: Sale) => InWindow(s.createdAt, startDate.value, endDate.value))
    else sales
  }

  function SaleKey(s: Sale): int {
    Seconds(s.createdAt)
  }

  /** The rows the WHERE clause keeps, in ORDER BY created_at DESC order. */
  function Ordered(sales: seq<Sale>, startDate: Option<Date>, endDate: Option<Date>): (r: seq<Sale>)
    ensures |r| == |InRange(sales, startDate, endDate)|
    ensures multiset(r) == multiset(InRange(sales, startDate, endDate))
    ensures SortedDesc(r, SaleKey)
    ensures forall s :: s in r ==> s in sales
    ensures startDate.Some? && endDate.Some? ==>
      forall s :: s in r ==> InWindow(s.createdAt, startDate.value, endDate.value)
  {
    var matching := InRange(sales, startDate, endDate);
    var ordered := SortDesc(matching, SaleKey);
    assert forall s :: s in ordered ==> s in matching by {
      forall s | s in ordered ensures s in matching {
        assert multiset(ordered)[s] > 0;
      }
    }
    ordered
  }

  /** Attach to each sale the rows of sale_items that belong to it. */
  function WithItems(page: seq<Sale>, saleItems: seq<SaleItem>): (r: seq<SaleWithItems>)
    ensures |r| == |page|
    ensures forall i :: 0 <= i < |r| ==>
      && r[i].sale == page[i]
      && (forall it :: it in r[i].items <==> it in saleItems && it.saleId == page[i].id)
      && r[i].timestamp == page[i].createdAt
  {
    seq(|page|, i requires 0 <= i < |page| => SaleWithItems(page[i], ItemsOfSale(saleItems, page[i].id), page[i].createdAt))
  }

  /** getSales(limit, offset, startDate, endDate) */
  function GetSales(sales: seq<Sale>, saleItems: seq<SaleItem>, limit: nat, offset: nat,
                    startDate: Option<Date>, endDate: Option<Date>): (r: seq<SaleWithItems>)
    ensures var n := |InRange(sales, startDate, endDate)|;
      |r| == if offset >= n then 0 else Min(limit, n - offset)
    ensures |r| == 0 || offset + |r| <= |Ordered(sales, startDate, endDate)|
    ensures forall i :: 0 <= i < |r| ==> r[i].sale == Ordered(sales, startDate, endDate)[offset + i]
    ensures forall i :: 0 <= i < |r| ==> r[i].sale in sales
    ensures startDate.Some? && endDate.Some? ==>
      forall i :: 0 <= i < |r| ==> InWindow(r[i].sale.createdAt, startDate.value, endDate.value)
    ensures forall i, j :: 0 <= i < j < |r| ==> SaleKey(r[i].sale) >= SaleKey(r[j].sale)
    ensures forall i :: 0 <= i < |r| ==>
      && (forall it :: it in r[i].items <==> it in saleItems && it.saleId == r[i].sale.id)
      && r[i].timestamp == r[i].sale.createdAt
  {
    var ordered := Ordered(sales, startDate, endDate);
    var page := Window(ordered, offset, limit);
    var r := WithItems(page, saleItems);
    PageOfOrdered(ordered, page, r, offset);
    r
  }

  /** A page cut from the ordered selection keeps its rows, at their offsets, and its order. */
  lemma PageOfOrdered(ordered: seq<Sale>, page: seq<Sale>, r: seq<SaleWithItems>, offset: nat)
    requires SortedDesc(ordered, SaleKey)
    requires |page| == 0 || offset + |page| <= |ordered|
    requires forall i :: 0 <= i < |page| ==> page[i] == ordered[offset + i]
    requires |r| == |page| && forall i :: 0 <= i < |r| ==> r[i].sale == page[i]
    ensures forall i :: 0 <= i < |r| ==> r[i].sale == ordered[offset + i]
    ensures forall i :: 0 <= i < |r| ==> r[i].sale in ordered
    ensures forall i, j :: 0 <= i < j < |r| ==> SaleKey(r[i].sale) >= SaleKey(r[j].sale)
  {
    forall i, j | 0 <= i < j < |r| ensures SaleKey(r[i].sale) >= SaleKey(r[j].sale) {
      assert r[i].sale == page[i] && r[j].sale == page[j];
    }
  }

  /** Reading `a` rows at `offset` and then `b` rows right after them gives the same sales as reading `a + b` rows at once. */
  lemma PagesTile(sales: seq<Sale>, saleItems: seq<SaleItem>, offset: nat, a: nat, b: nat,
                  startDate: Option<Date>, endDate: Option<Date>)
    ensures GetSales(sales, saleItems, a, offset, startDate, endDate)
          + GetSales(sales, saleItems, b, offset + a, startDate, endDate)
         == GetSales(sales, saleItems, a + b, offset, startDate, endDate)
  {
    var ordered := Ordered(sales, startDate, endDate);
    var first, second := Window(ordered, offset, a), Window(ordered, offset + a, b);
    WindowsTile(ordered, offset, a, b);
    WithItemsAppend(first, second, saleItems);
    assert GetSales(sales, saleItems, a, offset, startDate, endDate) == WithItems(first, saleItems);
    assert GetSales(sales, saleItems, b, offset + a, startDate, endDate) == WithItems(second, saleItems);
  }

  lemma WithItemsAppend(first: seq<Sale>, second: seq<Sale>, saleItems: seq<SaleItem>)
    ensures WithItems(first + second, saleItems) == WithItems(first, saleItems) + WithItems(second, saleItems)
  {
  }

  /** UPDATE sales SET status = @status WHERE id = @id, on the table as a value. */
  function WithStatus(sales: seq<Sale>, id: nat, status: Status): (r: seq<Sale>)
    ensures |r| == |sales|
    ensures forall i :: 0 <= i < |r| ==>
      if sales[i].id == id then r[i] == sales[i].(status := status) else r[i] == sales[i]
  {
    seq(|sales|, i requires 0 <= i < |sales| => if sales[i].id == id then sales[i].(status := status) else sales[i])
  }

  /** Cancelling and then restoring a completed sale gives back exactly the table there was. */
  lemma CancelThenRestore(sales: seq<Sale>, id: nat)
    requires forall i :: 0 <= i < |sales| && sales[i].id == id ==> sales[i].status == Completed
    ensures WithStatus(WithStatus(sales, id, Cancelled), id, Completed) == sales
  {
  }

  /** Setting a status the sale already has, or addressing an unknown id, changes nothing. */
  lemma StatusUpdateNoOp(sales: seq<Sale>, id: nat, status: Status)
    requires forall i :: 0 <= i < |sales| && sales[i].id == id ==> sales[i].status == status
    ensures WithStatus(sales, id, status) == sales
  {
  }

  /** The later status update wins, so each of cancel and restore is idempotent. */
  lemma StatusUpdatesOverwrite(sales: seq<Sale>, id: nat, first: Status, second: Status)
    ensures WithStatus(WithStatus(sales, id, first), id, second) == WithStatus(sales, id, second)
  {
  }

  /** cancelSale */
  method CancelSale(db: Db, id: nat)
    requires db.Valid()
    modifies db
    ensures db.Valid()
    ensures db.sales == WithStatus(old(db.sales), id, Cancelled)
    ensures db.products == old(db.products) && db.saleItems == old(db.saleItems)
    ensures db.productSeq == old(db.productSeq) && db.saleSeq == old(db.saleSeq) && db.itemSeq == old(db.itemSeq)
  {
    SetStatus(db, id, Cancelled);
  }

  /** restoreSale */
  method RestoreSale(db: Db, id: nat)
    requires db.Valid()
    modifies db
    ensures db.Valid()
    ensures db.sales == WithStatus(old(db.sales), id, Completed)
    ensures db.products == old(db.products) && db.saleItems == old(db.saleItems)
    ensures db.productSeq == old(db.productSeq) && db.saleSeq == old(db.saleSeq) && db.itemSeq == old(db.itemSeq)
  {
    SetStatus(db, id, Completed);
  }

  method SetStatus(db: Db, id: nat, status: Status)
    requires db.Valid()
    modifies db
    ensures db.Valid()
    ensures db.sales == WithStatus(old(db.sales), id, status)
    ensures db.products == old(db.products) && db.saleItems == old(db.saleItems)
    ensures db.productSeq == old(db.productSeq) && db.saleSeq == old(db.saleSeq) && db.itemSeq == old(db.itemSeq)
  {
    var updated := WithStatus(db.sales, id, status);
    forall k | 0 <= k < |db.saleItems| ensures HasSale(updated, db.saleItems[k].saleId) {
      var i :| 0 <= i < |db.sales| && db.sales[i].id == db.saleItems[k].saleId;
      assert updated[i].id == db.sales[i].id;
    }
    db.sales := updated;
  }
}
