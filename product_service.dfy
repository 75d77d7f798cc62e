/**
 * The catalog operations of the product service: a filtered, newest-first
 * listing, creation under the UNIQUE code constraint, updates of name and
 * price, soft deletion, setting the active flag, and the exact-code lookup
 * used by the scanner. Queries are functions of the table; the statements
 * that change it are methods on the database.
 */
module ProductService {
  import opened Wrappers
  import opened Text
  import opened Seqs
  import opened Schema

  /** `search` is empty, or name or code contains it (LIKE '%search%', ASCII case-insensitive). */
  predicate MatchesSearch(p: Product, search: string) {
    search == "" || Contains(Lower(p.name), Lower(search)) || Contains(Lower(p.code), Lower(search))
  }

  predicate Listed(p: Product, search: string, includeInactive: bool) {
    MatchesSearch(p, search) && (includeInactive || p.isActive)
  }

  function CreatedKey(p: Product): int {
    Seconds(p.createdAt)
  }

  /**
   * getProducts(search, includeInactive): every row that passes the filters,
   * once per row, newest created_at first.
   */
  function GetProducts(products: seq<Product>, search: string, includeInactive: bool): (r: seq<Product>)
    ensures forall p :: multiset(r)[p] == if Listed(p, search, includeInactive) then multiset(products)[p] else 0
    ensures forall p :: p in r ==> MatchesSearch(p, search) && (includeInactive || p.isActive)
    ensures SortedDesc(r, CreatedKey)
  {
    var keep := p => Listed(p, search, includeInactive);
    var matching := Filter(products, keep);
    FilterCounts(products, keep);
    var r := SortDesc(matching, CreatedKey);
    assert forall p :: p in r ==> p in matching by {
      forall p | p in r ensures p in matching {
        assert multiset(r)[p] > 0;
      }
    }
    r
  }

  /** Without a search text and with inactive rows included, the listing is the whole table reordered. */
  lemma ListAllIsPermutation(products: seq<Product>)
    ensures multiset(GetProducts(products, "", true)) == multiset(products)
  {
    var r := GetProducts(products, "", true);
    forall p ensures multiset(r)[p] == multiset(products)[p] {
    }
  }

  /** Including inactive rows only adds rows: every row of the active-only listing is in the full one. */
  lemma IncludeInactiveWidens(products: seq<Product>, search: string)
    ensures forall p :: p in GetProducts(products, search, false) ==> p in GetProducts(products, search, true)
  {
    forall p | p in GetProducts(products, search, false)
      ensures p in GetProducts(products, search, true)
    {
      assert multiset(GetProducts(products, search, false))[p] > 0;
      assert multiset(GetProducts(products, search, true))[p] > 0;
    }
  }

  /** getProductByCode: the active row whose code is exactly `code`, or nothing. */
  function GetProductByCode(products: seq<Product>, code: string): (r: Option<Product>)
    ensures r.Some? ==> r.value in products && r.value.code == code && r.value.isActive
    ensures r.None? <==> forall p :: p in products ==> !(p.code == code && p.isActive)
  {
    if products == [] then None
    else if products[0].code == code && products[0].isActive then Some(products[0])
    else
      assert products == [products[0]] + products[1..];
      GetProductByCode(products[1..], code)
  }

  /** Because codes are unique, the lookup's answer is the only active row with that code. */
  lemma ProductByCodeUnique(products: seq<Product>, code: string, i: nat)
    requires CodesUnique(products)
    requires i < |products| && products[i].code == code && products[i].isActive
    ensures GetProductByCode(products, code) == Some(products[i])
  {
    var r := GetProductByCode(products, code);
    var j :| 0 <= j < |products| && products[j] == r.value;
    if j != i {
      assert products[j].code == products[i].code;
    }
  }

  /** The row to insert for createProduct: is_active defaults to 1. */
  function NewProductRow(id: nat, code: string, name: string, price: real, now: DateTime): (p: Product)
    ensures p.isActive && p.id == id && p.code == code && p.name == name && p.price == price && p.createdAt == now
  {
    Product(id, code, name, price, true, now)
  }

  /**
   * createProduct: inserts one active row with the next AUTOINCREMENT id, or
   * fails with a UNIQUE violation, leaving the table as it was, when any
   * product, active or not, already has the code.
   */
  method CreateProduct(db: Db, code: string, name: string, price: real, now: DateTime) returns (r: Result<nat, DbError>)
    requires db.Valid() && WellFormedTime(now)
    modifies db
    ensures db.Valid()
    ensures CodeInUse(old(db.products), code) ==>
      r == Failure(UniqueConstraint) && db.products == old(db.products) && db.productSeq == old(db.productSeq)
    ensures !CodeInUse(old(db.products), code) ==>
      && r == Success(old(db.productSeq) + 1)
      && db.products == old(db.products) + [NewProductRow(old(db.productSeq) + 1, code, name, price, now)]
      && db.productSeq == old(db.productSeq) + 1
    ensures db.sales == old(db.sales) && db.saleItems == old(db.saleItems)
    ensures db.saleSeq == old(db.saleSeq) && db.itemSeq == old(db.itemSeq)
  {
    if CodeInUse(db.products, code) {
      return Failure(UniqueConstraint);
    }
    var id := db.productSeq + 1;
    var row := NewProductRow(id, code, name, price, now);
    ItemsStillReference(db.saleItems, db.sales, db.products, row);
    db.products := db.products + [row];
    db.productSeq := id;
    r := Success(id);
  }

  lemma ItemsStillReference(items: seq<SaleItem>, sales: seq<Sale>, products: seq<Product>, row: Product)
    requires ItemsReference(items, sales, products)
    ensures ItemsReference(items, sales, products + [row])
  {
    forall k | 0 <= k < |items| ensures HasProduct(products + [row], items[k].productId) {
      var i :| 0 <= i < |products| && products[i].id == items[k].productId;
      assert (products + [row])[i] == products[i];
    }
  }

  /** UPDATE products SET name = @name, price = @price WHERE id = @id, on the table as a value. */
  function WithNameAndPrice(products: seq<Product>, id: nat, name: string, price: real): (r: seq<Product>)
    ensures |r| == |products|
    ensures forall i :: 0 <= i < |r| ==>
      if products[i].id == id then r[i] == products[i].(name := name, price := price) else r[i] == products[i]
  {
    seq(|products|, i requires 0 <= i < |products| =>
      if products[i].id == id then products[i].(name := name, price := price) else products[i])
  }

  /** UPDATE products SET is_active = @flag WHERE id = @id, on the table as a value. */
  function WithActive(products: seq<Product>, id: nat, active: bool): (r: seq<Product>)
    ensures |r| == |products|
    ensures forall i :: 0 <= i < |r| ==>
      if products[i].id == id then r[i] == products[i].(isActive := active) else r[i] == products[i]
  {
    seq(|products|, i requires 0 <= i < |products| =>
      if products[i].id == id then products[i].(isActive := active) else products[i])
  }

  /** Assigning the flag rather than flipping it: doing it twice is the same as once. */
  lemma WithActiveIdempotent(products: seq<Product>, id: nat, active: bool)
    ensures WithActive(WithActive(products, id, active), id, active) == WithActive(products, id, active)
  {
  }

  /** Updates of name, price or flag never touch codes, ids or creation times, so the table constraints still hold. */
  lemma UpdatesKeepConstraints(db: seq<Product>, id: nat, name: string, price: real, active: bool, counter: nat)
    requires CodesUnique(db) && ProductIds(db, counter)
    ensures CodesUnique(WithNameAndPrice(db, id, name, price)) && ProductIds(WithNameAndPrice(db, id, name, price), counter)
    ensures CodesUnique(WithActive(db, id, active)) && ProductIds(WithActive(db, id, active), counter)
  {
  }

  /** updateProduct: changes name and price of the row with that id; nothing else. */
  method UpdateProduct(db: Db, id: nat, name: string, price: real)
    requires db.Valid()
    modifies db
    ensures db.Valid()
    ensures db.products == WithNameAndPrice(old(db.products), id, name, price)
    ensures db.sales == old(db.sales) && db.saleItems == old(db.saleItems)
    ensures db.productSeq == old(db.productSeq) && db.saleSeq == old(db.saleSeq) && db.itemSeq == old(db.itemSeq)
  {
    UpdatesKeepConstraints(db.products, id, name, price, true, db.productSeq);
    SameIdsKeepReferences(db.saleItems, db.sales, db.products, WithNameAndPrice(db.products, id, name, price));
    db.products := WithNameAndPrice(db.products, id, name, price);
  }

  /** deleteProduct: a soft delete that sets is_active to 0 and keeps the row. */
  method DeleteProduct(db: Db, id: nat)
    requires db.Valid()
    modifies db
    ensures db.Valid()
    ensures db.products == WithActive(old(db.products), id, false)
    ensures db.sales == old(db.sales) && db.saleItems == old(db.saleItems)
    ensures db.productSeq == old(db.productSeq) && db.saleSeq == old(db.saleSeq) && db.itemSeq == old(db.itemSeq)
  {
    SetActive(db, id, false);
  }

  /** toggleProductStatus: assigns is_active from the boolean (1 for true, 0 for false). */
  method ToggleProductStatus(db: Db, id: nat, isActive: bool)
    requires db.Valid()
    modifies db
    ensures db.Valid()
    ensures db.products == WithActive(old(db.products), id, isActive)
    ensures db.sales == old(db.sales) && db.saleItems == old(db.saleItems)
    ensures db.productSeq == old(db.productSeq) && db.saleSeq == old(db.saleSeq) && db.itemSeq == old(db.itemSeq)
  {
    SetActive(db, id, isActive);
  }

  method SetActive(db: Db, id: nat, active: bool)
    requires db.Valid()
    modifies db
    ensures db.Valid()
    ensures db.products == WithActive(old(db.products), id, active)
    ensures db.sales == old(db.sales) && db.saleItems == old(db.saleItems)
    ensures db.productSeq == old(db.productSeq) && db.saleSeq == old(db.saleSeq) && db.itemSeq == old(db.itemSeq)
  {
    UpdatesKeepConstraints(db.products, id, "", 0.0, active, db.productSeq);
    SameIdsKeepReferences(db.saleItems, db.sales, db.products, WithActive(db.products, id, active));
    db.products := WithActive(db.products, id, active);
  }

  lemma SameIdsKeepReferences(items: seq<SaleItem>, sales: seq<Sale>, before: seq<Product>, after: seq<Product>)
    requires ItemsReference(items, sales, before)
    requires |after| == |before| && forall i :: 0 <= i < |before| ==> after[i].id == before[i].id
    ensures ItemsReference(items, sales, after)
  {
    forall k | 0 <= k < |items| ensures HasProduct(after, items[k].productId) {
      var i :| 0 <= i < |before| && before[i].id == items[k].productId;
      assert after[i].id == items[k].productId;
    }
  }
}
