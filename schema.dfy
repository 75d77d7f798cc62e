/**
 * The three tables of the point-of-sale database and the constraints that
 * initDB declares on them: AUTOINCREMENT ids, a UNIQUE product code,
 * is_active defaulting to 1, status defaulting to 'completed', and the two
 * foreign keys of sale_items. Rows are kept in insertion (rowid) order.
 */
module Schema {
  import opened Calendar

  /** A `created_at` value: 'YYYY-MM-DD HH:MM:SS' in local time. */
  datatype DateTime = DateTime(date: Date, hour: int, minute: int, second: int)

  predicate WellFormedTime(t: DateTime) {
    WellFormed(t.date) && 0 <= t.hour < 24 && 0 <= t.minute < 60 && 0 <= t.second < 60
  }

  /**
   * Seconds since 0001-01-01 00:00:00. On well-formed timestamps with
   * four-digit years this orders them exactly as SQLite orders their text.
   */
  function Seconds(t: DateTime): int {
    Ord(t.date) * 86400 + t.hour * 3600 + t.minute * 60 + t.second
  }

  /** `${date} 00:00:00` */
  function DayStart(d: Date): DateTime {
    DateTime(d, 0, 0, 0)
  }

  /** `${date} 23:59:59` */
  function DayEnd(d: Date): DateTime {
    DateTime(d, 23, 59, 59)
  }

  /** created_at >= '<startDate> 00:00:00' AND created_at <= '<endDate> 23:59:59' */
  predicate InWindow(t: DateTime, startDate: Date, endDate: Date) {
    Seconds(DayStart(startDate)) <= Seconds(t) <= Seconds(DayEnd(endDate))
  }

  /** A timestamp is in the window exactly when its calendar day lies between the two dates. */
  lemma InWindowByDay(t: DateTime, startDate: Date, endDate: Date)
    requires WellFormedTime(t)
    ensures InWindow(t, startDate, endDate) <==> Ord(startDate) <= Ord(t.date) <= Ord(endDate)
  {
  }

  datatype Status = Completed | Cancelled

  /** The constraint violations SQLite raises on the modelled statements. */
  datatype DbError = UniqueConstraint | ForeignKeyConstraint(productId: nat)

  /** A row of `products`. */
  datatype Product = Product(id: nat, code: string, name: string, price: real, isActive: bool, createdAt: DateTime)

  /** A row of `sales`. */
  datatype Sale = Sale(id: nat, totalAmount: real, paymentMethod: string, status: Status, createdAt: DateTime)

  /** A row of `sale_items`: product name and unit price are copied at sale time. */
  datatype SaleItem = SaleItem(id: nat, saleId: nat, productId: nat, productName: string,
                               quantity: int, unitPrice: real, subtotal: real)

  predicate HasProduct(products: seq<Product>, id: nat) {
    exists i :: 0 <= i < |products| && products[i].id == id
  }

  predicate HasSale(sales: seq<Sale>, id: nat) {
    exists i :: 0 <= i < |sales| && sales[i].id == id
  }

  /** Some product, active or not, already uses `code`. */
  predicate CodeInUse(products: seq<Product>, code: string) {
    exists i :: 0 <= i < |products| && products[i].code == code
  }

  /** products.code is UNIQUE. */
  predicate CodesUnique(products: seq<Product>) {
    forall i, j :: 0 <= i < j < |products| ==> products[i].code != products[j].code
  }

  /** AUTOINCREMENT: ids grow along the table and never pass the table's sequence counter. */
  predicate ProductIds(products: seq<Product>, counter: nat) {
    && (forall i, j :: 0 <= i < j < |products| ==> products[i].id < products[j].id)
    && (forall i :: 0 <= i < |products| ==> 1 <= products[i].id <= counter)
  }

  predicate SaleIds(sales: seq<Sale>, counter: nat) {
    && (forall i, j :: 0 <= i < j < |sales| ==> sales[i].id < sales[j].id)
    && (forall i :: 0 <= i < |sales| ==> 1 <= sales[i].id <= counter)
  }

  predicate ItemIds(items: seq<SaleItem>, counter: nat) {
    && (forall i, j :: 0 <= i < j < |items| ==> items[i].id < items[j].id)
    && (forall i :: 0 <= i < |items| ==> 1 <= items[i].id <= counter)
  }

  /** FOREIGN KEY (sale_id) REFERENCES sales(id) and FOREIGN KEY (product_id) REFERENCES products(id). */
  predicate ItemsReference(items: seq<SaleItem>, sales: seq<Sale>, products: seq<Product>) {
    forall k :: 0 <= k < |items| ==> HasSale(sales, items[k].saleId) && HasProduct(products, items[k].productId)
  }

  predicate TimesWellFormed(products: seq<Product>, sales: seq<Sale>) {
    && (forall i :: 0 <= i < |products| ==> WellFormedTime(products[i].createdAt))
    && (forall i :: 0 <= i < |sales| ==> WellFormedTime(sales[i].createdAt))
  }

  /** The database file: three tables and their AUTOINCREMENT counters. */
  class Db {
    var products: seq<Product>
    var sales: seq<Sale>
    var saleItems: seq<SaleItem>
    var productSeq: nat
    var saleSeq: nat
    var itemSeq: nat

    ghost predicate Valid()
      reads this
    {
      && CodesUnique(products)
      && ProductIds(products, productSeq)
      && SaleIds(sales, saleSeq)
      && ItemIds(saleItems, itemSeq)
      && ItemsReference(saleItems, sales, products)
      && TimesWellFormed(products, sales)
    }

    /** initDB on a fresh database file: three empty tables. */
    constructor ()
      ensures Valid()
      ensures products == [] && sales == [] && saleItems == []
      ensures productSeq == 0 && saleSeq == 0 && itemSeq == 0
    {
      products, sales, saleItems := [], [], [];
      productSeq, saleSeq, itemSeq := 0, 0, 0;
    }
  }
}
