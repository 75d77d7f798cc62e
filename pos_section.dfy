/**
 * The point-of-sale screen: a cart of entries keyed by product id, the
 * barcode field, the scan handler and the checkout handler. The two IPC calls
 * the screen makes are taken as their outcomes.
 */
module PosSection {
  import opened Wrappers
  import opened Seqs
  import opened Text
  import opened Schema
  import SaleService

  /** A cart entry: the product as it was scanned, plus quantity and subtotal. */
  datatype CartEntry = CartEntry(product: Product, quantity: int, subtotal: real)

  /** Ids are unique, every quantity is at least 1 and every subtotal is price times quantity. */
  predicate CartInvariant(cart: seq<CartEntry>) {
    && IdsUnique(cart)
    && (forall i :: 0 <= i < |cart| ==> EntryOk(cart[i]))
  }

  predicate EntryOk(e: CartEntry) {
    e.quantity >= 1 && e.subtotal == e.product.price * e.quantity as real
  }

  predicate IdsUnique(cart: seq<CartEntry>) {
    forall i, j :: 0 <= i < j < |cart| ==> cart[i].product.id != cart[j].product.id
  }

  predicate InCart(cart: seq<CartEntry>, id: nat) {
    exists i :: 0 <= i < |cart| && cart[i].product.id == id
  }

  function Bump(e: CartEntry): CartEntry {
    e.(quantity := e.quantity + 1, subtotal := (e.quantity + 1) as real * e.product.price)
  }

  /** addToCart */
  function AddToCart(cart: seq<CartEntry>, product: Product): (r: seq<CartEntry>)
    ensures InCart(cart, product.id) ==>
      && |r| == |cart|
      && forall i :: 0 <= i < |r| ==>
           r[i] == if cart[i].product.id == product.id then Bump(cart[i]) else cart[i]
    ensures !InCart(cart, product.id) ==> r == cart + [CartEntry(product, 1, product.price)]
  {
    if InCart(cart, product.id) then
      seq(|cart|, i requires 0 <= i < |cart| => if cart[i].product.id == product.id then Bump(cart[i]) else cart[i])
    else
      cart + [CartEntry(product, 1, product.price)]
  }

  /** removeFromCart */
  function RemoveFromCart(cart: seq<CartEntry>, id: nat): (r: seq<CartEntry>)
    ensures forall e :: e in r <==> e in cart && e.product.id != id
    ensures !InCart(cart, id) ==> r == cart
    ensures r == Filter(cart, (e: CartEntry) => e.product.id != id)
  {
    if cart == [] then []
    else
      var rest := RemoveFromCart(cart[1..], id);
      assert cart == [cart[0]] + cart[1..];
      FilterCons(cart[0], cart[1..], (e: CartEntry) => e.product.id != id);
      assert forall e :: e in cart <==> e == cart[0] || e in cart[1..] by {
        assert cart == [cart[0]] + cart[1..];
      }
      if cart[0].product.id == id then rest else [cart[0]] + rest
  }

  function Subtotals(cart: seq<CartEntry>): seq<real> {
    seq(|cart|, i requires 0 <= i < |cart| => cart[i].subtotal)
  }

  function Quantities(cart: seq<CartEntry>): seq<int> {
    seq(|cart|, i requires 0 <= i < |cart| => cart[i].quantity)
  }

  /** cart.reduce((acc, item) => acc + item.subtotal, 0) */
  function Total(cart: seq<CartEntry>): real {
    Sum(Subtotals(cart))
  }

  /** cart.reduce((a, b) => a + b.quantity, 0) */
  function Units(cart: seq<CartEntry>): int {
    SumInt(Quantities(cart))
  }

  /** Adding a product keeps ids unique, quantities positive and subtotals equal to price times quantity. */
  lemma AddKeepsInvariant(cart: seq<CartEntry>, product: Product)
    requires CartInvariant(cart)
    ensures CartInvariant(AddToCart(cart, product))
  {
    var r := AddToCart(cart, product);
    if !InCart(cart, product.id) {
      forall i, j | 0 <= i < j < |r| ensures r[i].product.id != r[j].product.id {
        if j == |cart| {
          assert r[i] == cart[i];
        }
      }
    }
  }

  /** Removing an entry keeps the invariant and leaves no entry with that id. */
  lemma RemoveKeepsInvariant(cart: seq<CartEntry>, id: nat)
    requires CartInvariant(cart)
    ensures CartInvariant(RemoveFromCart(cart, id))
    ensures !InCart(RemoveFromCart(cart, id), id)
  {
    var r := RemoveFromCart(cart, id);
    RemoveKeepsIdsUnique(cart, id);
    forall i | 0 <= i < |r| ensures r[i].product.id != id && EntryOk(r[i]) {
      assert r[i] in r;
      var k :| 0 <= k < |cart| && cart[k] == r[i];
    }
  }

  /** In a cart with unique ids, no later entry shares the first entry's product id. */
  lemma HeadIdNotInTail(cart: seq<CartEntry>, e: CartEntry)
    requires IdsUnique(cart) && cart != [] && e in cart[1..]
    ensures e.product.id != cart[0].product.id
  {
    var k :| 0 <= k < |cart| - 1 && cart[1..][k] == e;
    assert cart[k + 1] == e;
  }

  lemma {:induction false} RemoveKeepsIdsUnique(cart: seq<CartEntry>, id: nat)
    requires IdsUnique(cart)
    ensures IdsUnique(RemoveFromCart(cart, id))
    decreases |cart|
  {
    if cart != [] {
      var tail := cart[1..];
      assert IdsUnique(tail) by {
        forall i, j | 0 <= i < j < |tail| ensures tail[i].product.id != tail[j].product.id {
          assert tail[i] == cart[i + 1] && tail[j] == cart[j + 1];
        }
      }
      RemoveKeepsIdsUnique(tail, id);
      var rest := RemoveFromCart(tail, id);
      if cart[0].product.id != id {
        forall x | x in rest ensures x.product.id != cart[0].product.id {
          HeadIdNotInTail(cart, x);
        }
        ConsIdsUnique(cart[0], rest);
      }
    }
  }

  /** Putting an entry with a fresh product id in front keeps the ids unique. */
  lemma ConsIdsUnique(e: CartEntry, rest: seq<CartEntry>)
    requires IdsUnique(rest)
    requires forall x :: x in rest ==> x.product.id != e.product.id
    ensures IdsUnique([e] + rest)
  {
    var r := [e] + rest;
    forall i, j | 0 <= i < j < |r| ensures r[i].product.id != r[j].product.id {
      assert r[j] == rest[j - 1];
      if i == 0 {
        assert rest[j - 1] in rest;
      } else {
        assert r[i] == rest[i - 1];
      }
    }
  }

  lemma BumpAddsPrice(e: CartEntry)
    requires EntryOk(e)
    ensures EntryOk(Bump(e)) && Bump(e).subtotal == e.subtotal + e.product.price
  {
    assert (e.quantity + 1) as real * e.product.price == e.product.price * e.quantity as real + e.product.price;
  }

  /** Scanning a product raises the unit count by one and the total by the entry's price. */
  lemma AddToCartTotals(cart: seq<CartEntry>, product: Product)
    requires CartInvariant(cart)
    ensures Units(AddToCart(cart, product)) == Units(cart) + 1
    ensures !InCart(cart, product.id) ==> Total(AddToCart(cart, product)) == Total(cart) + product.price
    ensures forall i :: 0 <= i < |cart| && cart[i].product.id == product.id ==>
      Total(AddToCart(cart, product)) == Total(cart) + cart[i].product.price
  {
    if InCart(cart, product.id) {
      var k :| 0 <= k < |cart| && cart[k].product.id == product.id;
      AddToCartBumps(cart, product, k);
      forall i | 0 <= i < |cart| && cart[i].product.id == product.id
        ensures Total(AddToCart(cart, product)) == Total(cart) + cart[i].product.price
      {
        AddToCartBumps(cart, product, i);
      }
    } else {
      var r := AddToCart(cart, product);
      assert Subtotals(r)[..|r| - 1] == Subtotals(cart);
      assert Quantities(r)[..|r| - 1] == Quantities(cart);
    }
  }

  /** Scanning a product already in the cart at position k bumps that entry alone. */
  lemma AddToCartBumps(cart: seq<CartEntry>, product: Product, k: nat)
    requires CartInvariant(cart) && k < |cart| && cart[k].product.id == product.id
    ensures Units(AddToCart(cart, product)) == Units(cart) + 1
    ensures Total(AddToCart(cart, product)) == Total(cart) + cart[k].product.price
  {
    var r := AddToCart(cart, product);
    var e := cart[k];
    BumpAddsPrice(e);
    SumPointwise(Subtotals(cart), Subtotals(r), k, e.product.price);
    SumIntPointwise(Quantities(cart), Quantities(r), k, 1);
  }

  /** The sale createSale receives for this cart. */
  function CheckoutRequest(cart: seq<CartEntry>, paymentMethod: string): (r: SaleService.SaleRequest)
    ensures |r.items| == |cart| && r.paymentMethod == paymentMethod
    ensures forall i :: 0 <= i < |cart| ==>
      r.items[i] == SaleService.LineInput(cart[i].product.id, cart[i].product.name, cart[i].product.price, cart[i].quantity)
  {
    var lines := seq(|cart|, i requires 0 <= i < |cart| =>
      SaleService.LineInput(cart[i].product.id, cart[i].product.name, cart[i].product.price, cart[i].quantity));
    SaleService.SaleRequest(paymentMethod, lines, Total(cart))
  }

  /**
   * For a cart that keeps its invariant, the total sent at checkout equals the
   * sum of the subtotals createSale stores for its items, so header and items agree.
   */
  lemma CheckoutTotalMatchesStoredItems(cart: seq<CartEntry>, paymentMethod: string, saleId: nat, counter: nat)
    requires CartInvariant(cart)
    ensures var request := CheckoutRequest(cart, paymentMethod);
      var rows := SaleService.ItemRows(saleId, counter, request.items);
      request.total == Sum(seq(|rows|, i requires 0 <= i < |rows| => rows[i].subtotal))
  {
    var request := CheckoutRequest(cart, paymentMethod);
    var rows := SaleService.ItemRows(saleId, counter, request.items);
    forall i | 0 <= i < |rows| ensures rows[i].subtotal == Subtotals(cart)[i] {
      assert request.items[i].price == cart[i].product.price;
    }
    assert seq(|rows|, i requires 0 <= i < |rows| => rows[i].subtotal) == Subtotals(cart);
  }

  /** What window.api.getProductByCode gave back: a product, nothing, or an exception. */
  datatype Lookup = Found(product: Product) | NotFound | Threw

  /** Whether window.api.createSale resolved or threw. */
  datatype Outcome = Resolved | Rejected

  class PosScreen {
    var cart: seq<CartEntry>
    var barcode: string

    ghost predicate Valid()
      reads this
    {
      CartInvariant(cart)
    }

    constructor ()
      ensures Valid() && cart == [] && barcode == ""
    {
      cart, barcode := [], "";
    }

    /**
     * handleScan: on Enter with a non-blank field, looks up the trimmed code
     * (returned as `query`) and acts on the lookup's outcome.
     */
    method HandleScan(key: string, lookup: Lookup) returns (query: Option<string>)
      requires Valid()
      modifies this
      ensures Valid()
      ensures key != "Enter" || Trim(old(barcode)) == [] ==>
        query == None && cart == old(cart) && barcode == old(barcode)
      ensures key == "Enter" && Trim(old(barcode)) != [] ==>
        && query == Some(Trim(old(barcode)))
        && (lookup.Found? ==> cart == AddToCart(old(cart), lookup.product) && barcode == "")
        && (lookup.NotFound? ==> cart == old(cart) && barcode == "")
        && (lookup.Threw? ==> cart == old(cart) && barcode == old(barcode))
    {
      query := None;
      if key == "Enter" {
        var code := Trim(barcode);
        if code == [] {
          return;
        }
        query := Some(code);
        match lookup
        case Found(product) =>
          AddKeepsInvariant(cart, product);
          cart := AddToCart(cart, product);
          barcode := "";
        case NotFound =>
          barcode := "";
        case Threw =>
      }
    }

    /** The barcode field's onChange: the field takes the typed text, the cart is kept. */
    method Type(text: string)
      requires Valid()
      modifies this
      ensures Valid()
      ensures barcode == text && cart == old(cart)
    {
      barcode := text;
    }

    /** removeFromCart */
    method Remove(id: nat)
      requires Valid()
      modifies this
      ensures Valid()
      ensures cart == RemoveFromCart(old(cart), id) && barcode == old(barcode)
    {
      RemoveKeepsInvariant(cart, id);
      cart := RemoveFromCart(cart, id);
    }

    /**
     * handleCheckout: nothing on an empty cart; otherwise sends the cart with
     * total = the sum of the subtotals (returned as `sent`), and empties cart
     * and field only when the call resolves.
     */
    method HandleCheckout(paymentMethod: string, outcome: Outcome) returns (sent: Option<SaleService.SaleRequest>)
      requires Valid()
      modifies this
      ensures Valid()
      ensures old(cart) == [] ==> sent == None && cart == old(cart) && barcode == old(barcode)
      ensures old(cart) != [] ==>
        && sent == Some(CheckoutRequest(old(cart), paymentMethod))
        && sent.value.total == Total(old(cart))
        && (outcome == Resolved ==> cart == [] && barcode == "")
        && (outcome == Rejected ==> cart == old(cart) && barcode == old(barcode))
    {
      if |cart| == 0 {
        return None;
      }
      sent := Some(CheckoutRequest(cart, paymentMethod));
      if outcome == Resolved {
        cart := [];
        barcode := "";
      }
    }
  }
}
