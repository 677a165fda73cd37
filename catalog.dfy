/**
 * The records shared by the backend and the browser client: catalog products,
 * cart/order line items, and the money arithmetic of a cart or order total.
 */
module Catalog {
  import opened Wrappers
  import opened Seqs

  /** A catalog entry. The backend's records carry no `category`, so it is optional. */
  datatype Product = Product(
    id: int,
    name: string,
    price: int,
    image: string,
    description: string,
    stock: int,
    category: Option<string>)

  /**
   * A cart or order line: `{ ...product, quantity }`. Spreading a product that was
   * not found (`undefined`) copies no fields, which leaves `product` absent.
   */
  datatype CartItem = CartItem(product: Option<Product>, quantity: int)

  /** A JavaScript number that arises from adding up prices: whole rupees, or NaN once a price is missing. */
  datatype Amount = Rupees(value: int) | NaN

  /** `+` on amounts: NaN absorbs everything. */
  function Plus(a: Amount, b: Amount): Amount
  {
    if a.Rupees? && b.Rupees? then Rupees(a.value + b.value) else NaN
  }

  /** `item.price * item.quantity`. */
  function LineAmount(item: CartItem): Amount
  {
    match item.product
    case Some(p) => Rupees(p.price * item.quantity)
    case None => NaN
  }

  /** `items.reduce((acc, item) => acc + item.price * item.quantity, 0)`: a left fold from 0. */
  function Total(items: seq<CartItem>): (r: Amount)
    ensures r.NaN? <==> !AllPriced(items)
  {
    if items == [] then Rupees(0)
    else Plus(Total(items[..|items| - 1]), LineAmount(items[|items| - 1]))
  }

  /** Every line carries a price. */
  predicate AllPriced(items: seq<CartItem>)
  {
    forall i :: 0 <= i < |items| ==> items[i].product.Some?
  }

  /** The reference sum of price times quantity, taken from the front. */
  function PriceSum(items: seq<CartItem>): int
    requires AllPriced(items)
  {
    if items == [] then 0
    else items[0].product.value.price * items[0].quantity + PriceSum(items[1..])
  }

  lemma {:induction false} PriceSumAppend(items: seq<CartItem>, last: CartItem)
    requires AllPriced(items) && last.product.Some?
    ensures AllPriced(items + [last])
    ensures PriceSum(items + [last]) == PriceSum(items) + last.product.value.price * last.quantity
  {
    if items != [] {
      assert (items + [last])[1..] == items[1..] + [last];
      PriceSumAppend(items[1..], last);
    }
  }

  /** The running total is the sum of price times quantity, and NaN exactly when some line has no price. */
  lemma {:induction false} TotalIsPriceSum(items: seq<CartItem>)
    ensures AllPriced(items) ==> Total(items) == Rupees(PriceSum(items))
    ensures !AllPriced(items) <==> Total(items) == NaN
  {
    if items != [] {
      var init, last := items[..|items| - 1], items[|items| - 1];
      TotalIsPriceSum(init);
      assert items == init + [last];
      if AllPriced(init) && last.product.Some? {
        PriceSumAppend(init, last);
      }
      if !AllPriced(init) {
        var i :| 0 <= i < |init| && init[i].product.None?;
        assert items[i] == init[i];
      }
    }
  }

  /** Appending a line adds its amount to the total. */
  lemma TotalAppend(items: seq<CartItem>, last: CartItem)
    ensures Total(items + [last]) == Plus(Total(items), LineAmount(last))
  {
    assert (items + [last])[..|items|] == items;
  }

  /** Changing one line's quantity by `delta` changes the total by that many times its price. */
  lemma {:induction false} TotalUpdate(items: seq<CartItem>, i: nat, delta: int)
    requires i < |items| && items[i].product.Some?
    ensures Total(items[i := items[i].(quantity := items[i].quantity + delta)])
         == Plus(Total(items), Rupees(items[i].product.value.price * delta))
    decreases |items|
  {
    var p := items[i].product.value;
    var updated := items[i := items[i].(quantity := items[i].quantity + delta)];
    var init := items[..|items| - 1];
    if i == |items| - 1 {
      assert updated[..|updated| - 1] == init;
      assert LineAmount(updated[i]) == Rupees(p.price * items[i].quantity + p.price * delta);
    } else {
      TotalUpdate(init, i, delta);
      assert updated[..|updated| - 1] == init[i := init[i].(quantity := init[i].quantity + delta)];
    }
  }

  /** The backend's product list (`server.js`): nine products priced in whole rupees, none with a category. */
  const Products: seq<Product> := [
    Product(1, "Smartphone", 12000, "../images/phone.jpg",
      "A sleek smartphone with great performance and long-lasting battery.", 10, None),
    Product(2, "Headphones", 2000, "../images/headphones.jpg",
      "High-quality wireless headphones with noise cancellation.", 15, None),
    Product(3, "Laptop", 55000, "../images/laptop.jpg",
      "Powerful laptop with 16GB RAM, 512GB SSD, and the latest processor.", 15, None),
    Product(4, "Smartwatch", 4000, "../images/watch.jpg",
      "Fitness smartwatch with heart rate monitor and GPS.", 8, None),
    Product(5, "T-Shirt", 800, "../images/tshirt.jpg",
      "A comfortable and stylish cotton t-shirt.", 10, None),
    Product(6, "Jeans", 600, "../images/Jeans.jpg",
      "Classic fit denim jeans for everyday wear.", 10, None),
    Product(7, "Tv", 20000, "../images/Tv.jpg",
      "A advance feature tv with ai assistant", 10, None),
    Product(8, "furniture", 15000, "../images/furniture.jpg",
      "A soft and comfortable furniture to use", 15, None),
    Product(9, "Toys", 500, "../images/Toys.jpg",
      "A child playing toy", 15, None)
  ]

  /** Catalog ids are 1 to 9 in order, prices are positive, and no product has a category. */
  lemma CatalogShape()
    ensures |Products| == 9
    ensures forall i :: 0 <= i < |Products| ==> Products[i].id == i + 1
    ensures forall i :: 0 <= i < |Products| ==> Products[i].price > 0 && Products[i].category == None
  {
  }

  /** In a list whose ids are `1, 2, 3, …` by position, id `k` finds the `k`-th product. */
  lemma FindProductByPosition(products: seq<Product>, id: int)
    requires forall i :: 0 <= i < |products| ==> products[i].id == i + 1
    ensures 1 <= id <= |products| ==> FindProduct(products, id) == Some(products[id - 1])
    ensures !(1 <= id <= |products|) ==> FindProduct(products, id) == None
  {
    if 1 <= id <= |products| {
      var r := FindProduct(products, id);
      assert products[id - 1].id == id;
      var k :| 0 <= k < |products| && products[k] == r.value;
    }
  }

  /** `products.find(p => p.id === id)`. */
  function FindProduct(products: seq<Product>, id: int): (r: Option<Product>)
    ensures r.Some? ==> r.value in products && r.value.id == id
    ensures r.None? <==> forall j :: 0 <= j < |products| ==> products[j].id != id
  {
    Find(products, (p: Product) => p.id == id)
  }
}
