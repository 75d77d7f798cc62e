/**
 * Products: the inventory page. It keeps its own list of products in
 * component state, shows it fifteen at a time, flips a product's active flag
 * and puts products created in the dialog at the front of the list.
 */
module ProductsPage {
  import opened Wrappers
  import opened Seqs
  import ProductDialog
  import Text

  const ITEMS_PER_PAGE: nat := 15

  /** The number of generated products the list starts with. */
  const MOCK_COUNT: nat := 50

  /**
   * The renderer's Product. Ids are JavaScript numbers; those of created
   * products are `Date.now() + Math.random()`, so not whole numbers.
   */
  datatype ListedProduct = ListedProduct(id: real, code: string, name: string, price: real, isActive: bool)

  /** `Math.ceil(products.length / ITEMS_PER_PAGE)`, with no lower bound: zero for an empty list. */
  function TotalPages(count: nat): (r: nat)
    ensures count == 0 <==> r == 0
    ensures count > 0 ==> (r - 1) * ITEMS_PER_PAGE < count <= r * ITEMS_PER_PAGE
  {
    (count + ITEMS_PER_PAGE - 1) / ITEMS_PER_PAGE
  }

  /** `(currentPage - 1) * ITEMS_PER_PAGE` */
  function StartIndex(page: int): int {
    (page - 1) * ITEMS_PER_PAGE
  }

  /** Array.prototype.slice's reading of an index: a negative one counts from the end; both are clamped to [0, len]. */
  function SliceIndex(i: int, len: nat): nat {
    if i < 0 then (if len + i < 0 then 0 else len + i)
    else if i > len then len
    else i
  }

  /** `s.slice(start, end)` */
  function JsSlice<T>(s: seq<T>, start: int, end: int): seq<T> {
    var from, to := SliceIndex(start, |s|), SliceIndex(end, |s|);
    if from < to then s[from..to] else []
  }

  /** `products.slice(startIndex, startIndex + ITEMS_PER_PAGE)` */
  function CurrentProducts(products: seq<ListedProduct>, page: int): seq<ListedProduct> {
    JsSlice(products, StartIndex(page), StartIndex(page) + ITEMS_PER_PAGE)
  }

  /** On page 1 or later the slice is the window of fifteen products at the page's start index. */
  lemma PageIsWindow(products: seq<ListedProduct>, page: int)
    requires page >= 1
    ensures CurrentProducts(products, page) == Window(products, StartIndex(page), ITEMS_PER_PAGE)
    ensures |CurrentProducts(products, page)| <= ITEMS_PER_PAGE
  {
  }

  /** Page zero, which "next" reaches only on an empty list, slices nothing whatever the list holds. */
  lemma PageZeroShowsNothing(products: seq<ListedProduct>)
    ensures NextPage(1, TotalPages(0)) == 0
    ensures CurrentProducts(products, 0) == []
  {
  }

  /**
   * The pages from 1 to totalPages show every product: the product at index
   * i is entry i % 15 of page i / 15 + 1.
   */
  lemma EveryProductOnItsPage(products: seq<ListedProduct>, i: int)
    requires 0 <= i < |products|
    ensures var page := i / ITEMS_PER_PAGE + 1;
      && 1 <= page <= TotalPages(|products|)
      && i % ITEMS_PER_PAGE < |CurrentProducts(products, page)|
      && CurrentProducts(products, page)[i % ITEMS_PER_PAGE] == products[i]
  {
    var page := i / ITEMS_PER_PAGE + 1;
    PageIsWindow(products, page);
    assert StartIndex(page) + i % ITEMS_PER_PAGE == i;
    var tp := TotalPages(|products|);
    assert (tp - 1) * ITEMS_PER_PAGE < |products|;
    assert page <= tp;
  }

  /** The footer's first row number, `startIndex + 1`. */
  function FooterFrom(page: int): int {
    StartIndex(page) + 1
  }

  /** The footer's last row number, `Math.min(startIndex + ITEMS_PER_PAGE, products.length)`. */
  function FooterTo(page: int, count: nat): int {
    Min(StartIndex(page) + ITEMS_PER_PAGE, count)
  }

  /** On every page from 1 to totalPages the footer counts exactly the products shown. */
  lemma FooterCountsShownProducts(products: seq<ListedProduct>, page: int)
    requires 1 <= page <= TotalPages(|products|)
    ensures FooterTo(page, |products|) - FooterFrom(page) + 1 == |CurrentProducts(products, page)| > 0
  {
    PageIsWindow(products, page);
    var tp := TotalPages(|products|);
    assert StartIndex(page) <= StartIndex(tp);
  }

  /** The "previous" button: `Math.max(1, p - 1)`. */
  function PrevPage(page: int): int {
    Max(1, page - 1)
  }

  /** The "next" button: `Math.min(totalPages, p + 1)`. */
  function NextPage(page: int, totalPages: nat): int {
    Min(totalPages, page + 1)
  }

  /** `handleToggle`: flips isActive on the products carrying the id. */
  function Toggle(products: seq<ListedProduct>, id: real): (r: seq<ListedProduct>)
    ensures |r| == |products|
    ensures forall i :: 0 <= i < |r| ==>
      && r[i].(isActive := products[i].isActive) == products[i]
      && (r[i].isActive != products[i].isActive <==> products[i].id == id)
  {
    seq(|products|, i requires 0 <= i < |products| =>
      if products[i].id == id then products[i].(isActive := !products[i].isActive) else products[i])
  }

  /** Toggling the same id twice gives back the list it started from. */
  lemma ToggleTwice(products: seq<ListedProduct>, id: real)
    ensures Toggle(Toggle(products, id), id) == products
  {
    var r := Toggle(Toggle(products, id), id);
    forall i | 0 <= i < |r| ensures r[i] == products[i] {
      assert Toggle(products, id)[i].id == products[i].id;
    }
  }

  /** `handleCreateProduct`: a product with the submitted fields, active, in front of the list. */
  function Create(products: seq<ListedProduct>, values: ProductDialog.FormValues, newId: real): (r: seq<ListedProduct>)
    ensures |r| == |products| + 1
    ensures r[0] == ListedProduct(newId, values.code, values.name, values.price, true)
    ensures r[1..] == products
  {
    [ListedProduct(newId, values.code, values.name, values.price, true)] + products
  }

  /** A created product is the first one on page 1, and every other product moves one place down. */
  lemma CreatedShownFirst(products: seq<ListedProduct>, values: ProductDialog.FormValues, newId: real)
    ensures var r := Create(products, values, newId);
      && CurrentProducts(r, 1) != [] && CurrentProducts(r, 1)[0] == r[0]
      && forall i :: 0 <= i < |products| ==> r[i + 1] == products[i]
  {
    var r := Create(products, values, newId);
    PageIsWindow(r, 1);
  }

  /** The page's state. */
  datatype PageState = PageState(currentPage: int, products: seq<ListedProduct>)

  /** The fields of a listed product would pass the dialog's schema. */
  predicate WellFormedProduct(p: ListedProduct) {
    ProductDialog.Acceptable(ProductDialog.FormValues(p.code, p.name, p.price))
  }

  /**
   * What every reachable state satisfies: the list is not empty, the page
   * lies between 1 and totalPages, and every product has valid fields.
   */
  predicate Reachable(s: PageState) {
    && |s.products| >= 1
    && 1 <= s.currentPage <= TotalPages(|s.products|)
    && forall i :: 0 <= i < |s.products| ==> WellFormedProduct(s.products[i])
  }

  /**
   * The i-th generated product, given the two random draws it takes:
   * `Math.floor(Math.random() * 1000000000)` for the code and
   * `Math.floor(Math.random() * 50000)` for the price.
   */
  function MockProduct(i: nat, codeDraw: nat, priceDraw: nat): ListedProduct {
    ListedProduct((i + 1) as real, "779" + Text.NatText(codeDraw), "Producto de Ejemplo " + Text.NatText(i + 1),
                  (priceDraw + 1000) as real, i % 5 != 0)
  }

  /** The draws Math.random can give: a code draw below 10^9 and a price draw below 50000 for each product. */
  predicate ValidDraws(codeDraws: seq<nat>, priceDraws: seq<nat>) {
    && |codeDraws| == MOCK_COUNT && |priceDraws| == MOCK_COUNT
    && (forall i :: 0 <= i < MOCK_COUNT ==> codeDraws[i] < 1000000000)
    && (forall i :: 0 <= i < MOCK_COUNT ==> priceDraws[i] < 50000)
  }

  /** `MOCK_DATA`: fifty products with ids 1 to 50, every fifth one (from the first) inactive. */
  function Mock(codeDraws: seq<nat>, priceDraws: seq<nat>): (r: seq<ListedProduct>)
    requires ValidDraws(codeDraws, priceDraws)
    ensures |r| == MOCK_COUNT
    ensures forall i :: 0 <= i < |r| ==> r[i] == MockProduct(i, codeDraws[i], priceDraws[i])
  {
    seq(MOCK_COUNT, i requires 0 <= i < MOCK_COUNT => MockProduct(i, codeDraws[i], priceDraws[i]))
  }

  /**
   * Mounting with the generated list: whatever the random draws, the page
   * starts on page 1 of 4, and every generated product passes the dialog's
   * schema, with a price between 1000 and 50999.
   */
  lemma InitialReachable(codeDraws: seq<nat>, priceDraws: seq<nat>)
    requires ValidDraws(codeDraws, priceDraws)
    ensures Reachable(PageState(1, Mock(codeDraws, priceDraws)))
    ensures TotalPages(|Mock(codeDraws, priceDraws)|) == 4
    ensures forall i :: 0 <= i < MOCK_COUNT ==>
      1000.0 <= Mock(codeDraws, priceDraws)[i].price <= 50999.0
  {
    var mock := Mock(codeDraws, priceDraws);
    forall i | 0 <= i < |mock| ensures WellFormedProduct(mock[i]) {
      assert |mock[i].code| >= 3 && |mock[i].name| >= 3 && mock[i].price >= 0.0;
    }
  }

  /** The handlers; a created product's id is drawn outside the model and passed in. */
  datatype PageEvent = Prev | Next | ToggleStatus(id: real) | CreateProduct(values: ProductDialog.FormValues, newId: real)

  function Handle(s: PageState, e: PageEvent): PageState {
    match e
    case Prev => s.(currentPage := PrevPage(s.currentPage))
    case Next => s.(currentPage := NextPage(s.currentPage, TotalPages(|s.products|)))
    case ToggleStatus(id) => s.(products := Toggle(s.products, id))
    case CreateProduct(values, newId) => s.(products := Create(s.products, values, newId))
  }

  /**
   * Every handler keeps the state reachable when the dialog hands over values
   * it accepted: the list only grows, so page zero and the empty list are
   * never reached and the page always shows the window at its start index.
   */
  lemma HandlersKeepReachable(s: PageState, e: PageEvent)
    requires Reachable(s)
    requires e.CreateProduct? ==> ProductDialog.Acceptable(e.values)
    ensures Reachable(Handle(s, e))
    ensures |Handle(s, e).products| >= |s.products|
    ensures CurrentProducts(Handle(s, e).products, Handle(s, e).currentPage)
         == Window(Handle(s, e).products, StartIndex(Handle(s, e).currentPage), ITEMS_PER_PAGE)
  {
    var t := Handle(s, e);
    PageIsWindow(t.products, t.currentPage);
    match e
    case CreateProduct(values, newId) =>
      assert TotalPages(|s.products|) <= TotalPages(|t.products|);
      forall i | 0 <= i < |t.products| ensures WellFormedProduct(t.products[i]) {
        if i > 0 {
          assert t.products[i] == s.products[i - 1];
        }
      }
    case ToggleStatus(id) =>
      forall i | 0 <= i < |t.products| ensures WellFormedProduct(t.products[i]) {
        assert t.products[i].(isActive := s.products[i].isActive) == s.products[i];
      }
    case _ =>
  }
}
