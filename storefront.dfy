/**
 * The browser client's cart and catalog logic (`js/script.js`): the cart kept in
 * local storage, its running total, and the search/category/price-order view of
 * the product list. Rendering, toasts and network calls are not modelled.
 */
module Storefront {
  import opened Wrappers
  import opened Seqs
  import opened Strings
  import opened Catalog

  /**
   * `item.id`: the id of the product copied into the line, or `undefined` (None)
   * for a line copied from a missing product. The cart page's buttons pass this
   * value back to `removeFromCart` and `updateQuantity`.
   */
  function ItemId(item: CartItem): Option<int>
  {
    match item.product
    case Some(p) => Some(p.id)
    case None => None
  }

  /** `item.id === productId`, where `productId` may be `undefined`. */
  predicate HasId(item: CartItem, id: Option<int>)
  {
    ItemId(item) == id
  }

  /** `cart.find(item => item.id === productId)`, as a position. */
  function FindItem(cart: seq<CartItem>, id: Option<int>): (r: Option<nat>)
    ensures r.Some? ==> r.value < |cart| && HasId(cart[r.value], id)
    ensures r.Some? ==> forall j :: 0 <= j < r.value ==> !HasId(cart[j], id)
    ensures r.None? <==> forall j :: 0 <= j < |cart| ==> !HasId(cart[j], id)
  {
    FirstIndex(cart, (item: CartItem) => HasId(item, id))
  }

  /** The predicate of `cart.filter(item => item.id !== productId)`. */
  function OtherThan(id: Option<int>): CartItem -> bool
  {
    (item: CartItem) => !HasId(item, id)
  }

  /**
   * The cart with every line whose id is `id` removed, the rest in order and each
   * as often as before.
   */
  function CartWithout(cart: seq<CartItem>, id: Option<int>): (r: seq<CartItem>)
    ensures forall k :: 0 <= k < |r| ==> !HasId(r[k], id)
    ensures forall x {:trigger multiset(r)[x]} :: multiset(r)[x] == if HasId(x, id) then 0 else multiset(cart)[x]
    ensures IsSubsequence(r, cart)
  {
    FilterIsSubsequence(cart, OtherThan(id));
    forall x
      ensures multiset(Filter(cart, OtherThan(id)))[x] == if HasId(x, id) then 0 else multiset(cart)[x]
    {
      FilterMultiplicity(cart, OtherThan(id), x);
    }
    Filter(cart, OtherThan(id))
  }

  /**
   * The cart after `addToCart(id)` with a user logged in: a line already holding
   * the product gains one unit, otherwise a line for the catalog product (absent
   * if the catalog has no such id) is appended with quantity 1.
   */
  function CartAfterAdd(cart: seq<CartItem>, products: seq<Product>, id: int): (r: seq<CartItem>)
    ensures FindItem(cart, Some(id)).Some? ==>
      var i := FindItem(cart, Some(id)).value;
      && |r| == |cart|
      && r[i] == CartItem(cart[i].product, cart[i].quantity + 1)
      && forall j :: 0 <= j < |cart| && j != i ==> r[j] == cart[j]
    ensures FindItem(cart, Some(id)).None? ==> r == cart + [CartItem(FindProduct(products, id), 1)]
  {
    match FindItem(cart, Some(id))
    case Some(i) => cart[i := cart[i].(quantity := cart[i].quantity + 1)]
    case None => cart + [CartItem(FindProduct(products, id), 1)]
  }

  /**
   * The cart after `updateQuantity(id, change)`: nothing changes when no line has
   * the id; otherwise the first such line's quantity moves by `change`, and if it
   * falls to zero or below every line with that id is removed.
   */
  function CartAfterUpdate(cart: seq<CartItem>, id: Option<int>, change: int): (r: seq<CartItem>)
    ensures FindItem(cart, id).None? ==> r == cart
    ensures FindItem(cart, id).Some? && cart[FindItem(cart, id).value].quantity + change <= 0 ==>
      r == CartWithout(cart, id)
    ensures FindItem(cart, id).Some? && cart[FindItem(cart, id).value].quantity + change > 0 ==>
      var i := FindItem(cart, id).value;
      && |r| == |cart|
      && r[i] == CartItem(cart[i].product, cart[i].quantity + change)
      && forall j :: 0 <= j < |cart| && j != i ==> r[j] == cart[j]
  {
    match FindItem(cart, id)
    case None => cart
    case Some(i) =>
      var updated := cart[i := cart[i].(quantity := cart[i].quantity + change)];
      if updated[i].quantity <= 0 then
        FilterUpdateDropped(cart, i, updated[i], OtherThan(id));
        Filter(updated, OtherThan(id))
      else updated
  }

  /** Each `addToCart` raises the cart total by one unit of the product, or makes it NaN for an unknown product. */
  lemma AddToCartTotal(cart: seq<CartItem>, products: seq<Product>, id: int)
    ensures FindItem(cart, Some(id)).Some? ==>
      Total(CartAfterAdd(cart, products, id))
        == Plus(Total(cart), Rupees(cart[FindItem(cart, Some(id)).value].product.value.price))
    ensures FindItem(cart, Some(id)).None? ==>
      Total(CartAfterAdd(cart, products, id))
        == Plus(Total(cart), LineAmount(CartItem(FindProduct(products, id), 1)))
  {
    match FindItem(cart, Some(id))
    case Some(i) =>
      TotalUpdate(cart, i, 1);
    case None =>
      TotalAppend(cart, CartItem(FindProduct(products, id), 1));
  }

  /** Removing a catalog product after adding it leaves the same cart as removing it outright. */
  lemma RemoveAfterAdd(cart: seq<CartItem>, products: seq<Product>, id: int)
    requires FindProduct(products, id).Some?
    ensures CartWithout(CartAfterAdd(cart, products, id), Some(id)) == CartWithout(cart, Some(id))
  {
    var keep := OtherThan(Some(id));
    match FindItem(cart, Some(id))
    case Some(i) =>
      var line := cart[i].(quantity := cart[i].quantity + 1);
      assert CartAfterAdd(cart, products, id) == cart[i := line];
      FilterUpdateDropped(cart, i, line, keep);
    case None =>
      var line := CartItem(FindProduct(products, id), 1);
      assert CartAfterAdd(cart, products, id) == cart + [line];
      FilterAppend(cart, [line], keep);
      assert Filter([line], keep) == [];
  }

  /**
   * A line added for an id the catalog lacks has no id: removing any number id
   * keeps it, and only its own Remove button, `removeFromCart(undefined)`, takes it
   * out, together with every other line without an id.
   */
  lemma UnknownProductLine(cart: seq<CartItem>, products: seq<Product>, id: int, other: int)
    requires FindProduct(products, id).None? && FindItem(cart, Some(id)).None?
    ensures CartAfterAdd(cart, products, id) == cart + [CartItem(None, 1)]
    ensures CartItem(None, 1) in CartWithout(CartAfterAdd(cart, products, id), Some(other))
    ensures CartWithout(CartAfterAdd(cart, products, id), None) == CartWithout(cart, None)
  {
    var line := CartItem(None, 1);
    var r := CartAfterAdd(cart, products, id);
    assert r[|cart|] == line;
    assert multiset(r)[line] > 0;
    FilterAppend(cart, [line], OtherThan(None));
    assert [line][1..] == [];
  }

  /** An update that keeps the quantity positive moves the total by `change` units of that line's price. */
  lemma UpdateQuantityTotal(cart: seq<CartItem>, id: int, change: int)
    requires FindItem(cart, Some(id)).Some?
    requires cart[FindItem(cart, Some(id)).value].quantity + change > 0
    ensures Total(CartAfterUpdate(cart, Some(id), change))
         == Plus(Total(cart), Rupees(cart[FindItem(cart, Some(id)).value].product.value.price * change))
  {
    TotalUpdate(cart, FindItem(cart, Some(id)).value, change);
  }

  /** What the cart page shows under the items. */
  datatype CartView = EmptyCart | TotalShown(total: Amount)

  /** `toLowerCase` of the search box is non-empty, so the search filter runs. */
  predicate SearchApplies(searchInput: string)
  {
    ToLower(searchInput) != ""
  }

  /** `selectedCategory !== 'all' && selectedCategory !== ''`. */
  predicate CategoryApplies(category: string)
  {
    category != "all" && category != ""
  }

  /** The search filter: the lowercased name or description contains the (lowercased) term. */
  function MatchesSearch(term: string): Product -> bool
  {
    (p: Product) => Includes(ToLower(p.name), term) || Includes(ToLower(p.description), term)
  }

  /** The category filter: `product.category === selectedCategory`, false when the product has none. */
  function InCategory(category: string): Product -> bool
  {
    (p: Product) => p.category == Some(category)
  }

  /** The products that pass the filters that apply. */
  function Filtered(products: seq<Product>, searchInput: string, category: string): (r: seq<Product>)
    ensures |r| <= |products|
    ensures forall k :: 0 <= k < |r| ==> r[k] in products
  {
    var afterSearch := if SearchApplies(searchInput) then Filter(products, MatchesSearch(ToLower(searchInput))) else products;
    if CategoryApplies(category) then Filter(afterSearch, InCategory(category)) else afterSearch
  }

  /** `a` may precede `b` in the requested price order. */
  predicate InPriceOrder(a: Product, b: Product, descending: bool)
  {
    if descending then a.price >= b.price else a.price <= b.price
  }

  predicate SortedByPrice(s: seq<Product>, descending: bool)
  {
    forall i, j :: 0 <= i < j < |s| ==> InPriceOrder(s[i], s[j], descending)
  }

  /** Puts `x` before the first element it may precede, so that equal prices keep their order. */
  function InsertByPrice(x: Product, s: seq<Product>, descending: bool): (r: seq<Product>)
    ensures multiset(r) == multiset(s) + multiset{x}
  {
    if s == [] || InPriceOrder(x, s[0], descending) then [x] + s
    else
      assert s == [s[0]] + s[1..];
      [s[0]] + InsertByPrice(x, s[1..], descending)
  }

  /** Inserting into a sorted list keeps it sorted. */
  lemma {:induction false} InsertByPriceSorted(x: Product, s: seq<Product>, descending: bool)
    requires SortedByPrice(s, descending)
    ensures SortedByPrice(InsertByPrice(x, s, descending), descending)
  {
    if s != [] && !InPriceOrder(x, s[0], descending) {
      var rest := InsertByPrice(x, s[1..], descending);
      InsertByPriceSorted(x, s[1..], descending);
      assert forall k :: 0 <= k < |s[1..]| ==> InPriceOrder(s[0], s[1..][k], descending) by {
        forall k | 0 <= k < |s[1..]| ensures InPriceOrder(s[0], s[1..][k], descending) {
          assert s[1..][k] == s[k + 1];
        }
      }
      InsertByPriceLowerBound(s[0], x, s[1..], descending);
      var r := [s[0]] + rest;
      assert r == InsertByPrice(x, s, descending);
      forall i, j | 0 <= i < j < |r|
        ensures InPriceOrder(r[i], r[j], descending)
      {
        if i == 0 {
          assert r[j] == rest[j - 1];
        } else {
          assert r[i] == rest[i - 1] && r[j] == rest[j - 1];
        }
      }
    } else if s != [] {
      var r := [x] + s;
      forall i, j | 0 <= i < j < |r|
        ensures InPriceOrder(r[i], r[j], descending)
      {
        if i == 0 {
          assert r[j] == s[j - 1];
          assert InPriceOrder(s[0], s[j - 1], descending) || j == 1;
        } else {
          assert r[i] == s[i - 1] && r[j] == s[j - 1];
        }
      }
    }
  }

  /** Whatever may precede `x` and every element of `s` may precede every element after inserting `x`. */
  lemma {:induction false} InsertByPriceLowerBound(y: Product, x: Product, s: seq<Product>, descending: bool)
    requires InPriceOrder(y, x, descending)
    requires forall k :: 0 <= k < |s| ==> InPriceOrder(y, s[k], descending)
    ensures forall k :: 0 <= k < |InsertByPrice(x, s, descending)| ==>
      InPriceOrder(y, InsertByPrice(x, s, descending)[k], descending)
  {
    if s != [] && !InPriceOrder(x, s[0], descending) {
      InsertByPriceLowerBound(y, x, s[1..], descending);
    }
  }

  /**
   * `Array.prototype.sort` with the comparator `a.price - b.price` (ascending) or
   * `b.price - a.price` (descending); the library sort is stable, and so is this one.
   */
  function SortByPrice(s: seq<Product>, descending: bool): (r: seq<Product>)
    ensures multiset(r) == multiset(s)
    ensures SortedByPrice(r, descending)
  {
    if s == [] then []
    else
      assert s == [s[0]] + s[1..];
      InsertByPriceSorted(s[0], SortByPrice(s[1..], descending), descending);
      InsertByPrice(s[0], SortByPrice(s[1..], descending), descending)
  }

  /** The list `filterAndSortProducts` displays. */
  function Arranged(products: seq<Product>, searchInput: string, category: string, sortOrder: string): (r: seq<Product>)
    ensures multiset(r) == multiset(Filtered(products, searchInput, category))
  {
    var filtered := Filtered(products, searchInput, category);
    if sortOrder == "low-to-high" then SortByPrice(filtered, false)
    else if sortOrder == "high-to-low" then SortByPrice(filtered, true)
    else filtered
  }

  /** The filtered list keeps the order of the products and holds exactly those that pass the filters. */
  lemma FilteredContents(products: seq<Product>, searchInput: string, category: string)
    ensures IsSubsequence(Filtered(products, searchInput, category), products)
    ensures forall p :: p in Filtered(products, searchInput, category) <==>
      && p in products
      && (SearchApplies(searchInput) ==> MatchesSearch(ToLower(searchInput))(p))
      && (CategoryApplies(category) ==> p.category == Some(category))
  {
    var search, cat := MatchesSearch(ToLower(searchInput)), InCategory(category);
    var afterSearch := if SearchApplies(searchInput) then Filter(products, search) else products;
    FilterIsSubsequence(products, search);
    FilterIsSubsequence(products, cat);
    if SearchApplies(searchInput) && CategoryApplies(category) {
      FilterFilter(products, search, cat);
      FilterIsSubsequence(products, Both(search, cat));
    }
    assert IsSubsequence(products, products) by { SubsequenceReflexive(products); }
  }

  lemma {:induction false} SubsequenceReflexive<T>(s: seq<T>)
    ensures IsSubsequence(s, s)
  {
    if s != [] {
      SubsequenceReflexive(s[1..]);
    }
  }

  /**
   * The displayed list is a permutation of the filtered list: sorted by rising
   * price for `low-to-high`, by falling price for `high-to-low`, and the filtered
   * list itself for any other order.
   */
  lemma ArrangedOrder(products: seq<Product>, searchInput: string, category: string, sortOrder: string)
    ensures multiset(Arranged(products, searchInput, category, sortOrder))
         == multiset(Filtered(products, searchInput, category))
    ensures sortOrder == "low-to-high" ==> SortedByPrice(Arranged(products, searchInput, category, sortOrder), false)
    ensures sortOrder == "high-to-low" ==> SortedByPrice(Arranged(products, searchInput, category, sortOrder), true)
    ensures sortOrder != "low-to-high" && sortOrder != "high-to-low" ==>
      Arranged(products, searchInput, category, sortOrder) == Filtered(products, searchInput, category)
  {
  }

  /** Choosing a category shows nothing when no product carries a category. */
  lemma CategoryEmptiesUncategorised(products: seq<Product>, searchInput: string, category: string, sortOrder: string)
    requires forall k :: 0 <= k < |products| ==> products[k].category == None
    requires CategoryApplies(category)
    ensures Arranged(products, searchInput, category, sortOrder) == []
  {
    var afterSearch := if SearchApplies(searchInput) then Filter(products, MatchesSearch(ToLower(searchInput))) else products;
    assert forall k :: 0 <= k < |afterSearch| ==> afterSearch[k] in products;
    FilterNone(afterSearch, InCategory(category));
    assert Filtered(products, searchInput, category) == [];
  }

  /** The backend's products carry no category, so choosing any category shows nothing. */
  lemma CategoryEmptiesBackendCatalog(searchInput: string, category: string, sortOrder: string)
    requires CategoryApplies(category)
    ensures Arranged(Products, searchInput, category, sortOrder) == []
  {
    CatalogShape();
    CategoryEmptiesUncategorised(Products, searchInput, category, sortOrder);
  }

  /** The browser page: the state the cart and catalog functions work on. */
  class Page {
    /** The module-level `products`, as fetched from the API. */
    var products: seq<Product>
    /** The parsed `cart` entry of local storage (a missing entry reads as empty). */
    var cart: seq<CartItem>
    /** The `token` entry of local storage. */
    var token: Option<string>

    constructor (products: seq<Product>, token: Option<string>)
      ensures this.products == products && this.token == token && cart == []
    {
      this.products := products;
      this.token := token;
      cart := [];
    }

    /** `addToCart(productId)`: does nothing without a token; otherwise the cart becomes `CartAfterAdd`. */
    method AddToCart(productId: int)
      modifies this`cart
      ensures !Truthy(token) ==> cart == old(cart)
      ensures Truthy(token) ==> cart == CartAfterAdd(old(cart), products, productId)
    {
      if !Truthy(token) {
        return;
      }
      var productToAdd := FindProduct(products, productId);
      var existingItem := FindItem(cart, Some(productId));
      if existingItem.Some? {
        var i := existingItem.value;
        cart := cart[i := cart[i].(quantity := cart[i].quantity + 1)];
      } else {
        cart := cart + [CartItem(productToAdd, 1)];
      }
    }

    /** `removeFromCart(productId)`; the Remove button of a line without a product passes `undefined`. */
    method RemoveFromCart(productId: Option<int>)
      modifies this`cart
      ensures cart == CartWithout(old(cart), productId)
    {
      cart := Filter(cart, OtherThan(productId));
    }

    /** `updateQuantity(productId, change)`; `productId` is `undefined` for a line without a product. */
    method UpdateQuantity(productId: Option<int>, change: int)
      modifies this`cart
      ensures cart == CartAfterUpdate(old(cart), productId, change)
    {
      var item := FindItem(cart, productId);
      if item.Some? {
        var i := item.value;
        cart := cart[i := cart[i].(quantity := cart[i].quantity + change)];
        if cart[i].quantity <= 0 {
          cart := Filter(cart, OtherThan(productId));
        }
      }
    }

    /** The total line of `loadCart`: none for an empty cart, else the running sum of price times quantity. */
    method LoadCart() returns (view: CartView)
      ensures cart == [] ==> view == EmptyCart
      ensures cart != [] ==> view == TotalShown(Total(cart))
    {
      if |cart| == 0 {
        return EmptyCart;
      }
      var total := Rupees(0);
      var i := 0;
      while i < |cart|
        invariant 0 <= i <= |cart|
        invariant total == Total(cart[..i])
      {
        assert cart[..i + 1][..i] == cart[..i];
        total := Plus(total, LineAmount(cart[i]));
        i := i + 1;
      }
      assert cart[..i] == cart;
      view := TotalShown(total);
    }

    /**
     * `filterAndSortProducts()`, given the values of the search box, the category
     * menu and the sort menu. When neither filter applies, the sort runs on the
     * global `products` array itself, which is then left in the displayed order.
     */
    method FilterAndSortProducts(searchInput: string, selectedCategory: string, sortOrder: string)
      returns (shown: seq<Product>)
      modifies this`products
      ensures shown == Arranged(old(products), searchInput, selectedCategory, sortOrder)
      ensures !SearchApplies(searchInput) && !CategoryApplies(selectedCategory) ==> products == shown
      ensures SearchApplies(searchInput) || CategoryApplies(selectedCategory) ==> products == old(products)
    {
      var filteredProducts := products;
      var aliasesProducts := true;
      var searchTerm := ToLower(searchInput);
      if searchTerm != "" {
        filteredProducts := Filter(filteredProducts, MatchesSearch(searchTerm));
        aliasesProducts := false;
      }
      if selectedCategory != "all" && selectedCategory != "" {
        filteredProducts := Filter(filteredProducts, InCategory(selectedCategory));
        aliasesProducts := false;
      }
      if sortOrder == "low-to-high" {
        filteredProducts := SortByPrice(filteredProducts, false);
      } else if sortOrder == "high-to-low" {
        filteredProducts := SortByPrice(filteredProducts, true);
      }
      if aliasesProducts {
        products := filteredProducts;
      }
      shown := filteredProducts;
    }
  }
}
