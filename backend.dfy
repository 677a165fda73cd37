/**
 * The API server (`ecommerce-backend/server.js`): an in-memory user store and
 * order ledger that grow only by appending, and the request handlers over them.
 * Register and checkout change the stores and are methods of `Server`; login,
 * the order listing, the profile and the product lookup only read, and are
 * functions of the stores' contents.
 */
module Backend {
  import opened Wrappers
  import opened Seqs
  import opened Strings
  import opened Catalog
  import Crypto

  /** A registered user; `password` holds the bcrypt digest, never the password. */
  datatype User = User(id: nat, name: string, email: string, password: Crypto.Digest)

  /** A placed order. */
  datatype Order = Order(
    orderId: nat,
    userId: int,
    items: seq<CartItem>,
    totalPrice: Amount,
    shippingAddress: string,
    paymentMethod: string,
    status: string,
    createdAt: string)

  /** The JSON bodies the handlers send. */
  datatype Body =
    | Message(message: string)
    | MessageAndToken(message: string, token: string)
    | OrderList(orders: seq<Order>)
    | UserProfile(name: string, email: string)
    | ProductRecord(product: Product)

  datatype Response = Response(status: nat, body: Body)

  /** The body of a checkout request; any field may be missing. */
  datatype CheckoutRequest = CheckoutRequest(
    items: Option<seq<CartItem>>,
    shippingAddress: Option<string>,
    paymentMethod: Option<string>)

  const UserExists := Response(400, Message("User already exists"))
  const InvalidCredentials := Response(400, Message("Invalid credentials"))
  const InvalidOrderData := Response(400, Message("Invalid order data."))
  const OrderPlaced := Response(200, Message("Order placed successfully! Thank you."))
  const UserNotFound := Response(404, Message("User not found"))
  const ProductNotFound := Response(404, Message("Product not found"))

  /** What append-only growth with `length + 1` ids guarantees of the user store. */
  predicate UsersWellFormed(users: seq<User>)
  {
    && (forall i :: 0 <= i < |users| ==> users[i].id == i + 1)
    && (forall i, j :: 0 <= i < j < |users| ==> users[i].email != users[j].email)
  }

  /** What checkout guarantees of every entry of the order ledger. */
  predicate OrdersWellFormed(orders: seq<Order>)
  {
    forall i :: 0 <= i < |orders| ==>
      && orders[i].orderId == i + 1
      && orders[i].status == "Pending"
      && orders[i].items != []
      && orders[i].shippingAddress != ""
      && orders[i].paymentMethod != ""
      && orders[i].totalPrice == Total(orders[i].items)
  }

  predicate EmailTaken(users: seq<User>, email: string)
  {
    exists i :: 0 <= i < |users| && users[i].email == email
  }

  /** `users.find(user => user.email === email)`. */
  function FindUserByEmail(users: seq<User>, email: string): (r: Option<User>)
    ensures r.Some? ==> r.value in users && r.value.email == email
    ensures r.None? <==> !EmailTaken(users, email)
  {
    Find(users, (u: User) => u.email == email)
  }

  /** `users.find(u => u.id === userId)`. */
  function FindUserById(users: seq<User>, id: int): (r: Option<User>)
    ensures r.Some? ==> r.value in users && r.value.id == id
    ensures r.None? <==> forall j :: 0 <= j < |users| ==> users[j].id != id
  {
    Find(users, (u: User) => u.id == id)
  }

  /** In a well-formed store the user with a given email is unique, so `find` returns it. */
  lemma FindUserByEmailInStore(users: seq<User>, i: nat)
    requires UsersWellFormed(users) && i < |users|
    ensures FindUserByEmail(users, users[i].email) == Some(users[i])
  {
    var r := FindUserByEmail(users, users[i].email);
    var k :| 0 <= k < |users| && users[k] == r.value;
    assert k == i;
  }

  /** In a well-formed store the user with id `k` sits at position `k - 1`. */
  lemma FindUserByIdInStore(users: seq<User>, id: int)
    requires UsersWellFormed(users)
    ensures 1 <= id <= |users| ==> FindUserById(users, id) == Some(users[id - 1])
    ensures !(1 <= id <= |users|) ==> FindUserById(users, id) == None
  {
    if 1 <= id <= |users| {
      var r := FindUserById(users, id);
      assert users[id - 1].id == id;
      var k :| 0 <= k < |users| && users[k] == r.value;
    }
  }

  /** The checkout request passes `!items || items.length === 0 || !shippingAddress || !paymentMethod`. */
  predicate IsValidOrder(req: CheckoutRequest)
  {
    req.items.Some? && req.items.value != [] && Truthy(req.shippingAddress) && Truthy(req.paymentMethod)
  }

  /** The in-memory stores of one server process. */
  class Server {
    var users: seq<User>
    var orders: seq<Order>

    ghost predicate Valid()
      reads this
    {
      UsersWellFormed(users) && OrdersWellFormed(orders)
    }

    /** Both stores start empty. */
    constructor ()
      ensures Valid() && users == [] && orders == []
    {
      users := [];
      orders := [];
    }

    /**
     * `POST /api/auth/register`. A taken email is refused and nothing changes;
     * otherwise exactly one user is appended with id `length + 1` and the hash of
     * the password (under the salt bcrypt drew), and a token for that id is returned.
     */
    method Register(name: string, email: string, password: string, salt: string) returns (resp: Response)
      requires Valid()
      modifies this`users
      ensures Valid()
      ensures EmailTaken(old(users), email) ==> users == old(users) && resp == UserExists
      ensures !EmailTaken(old(users), email) ==>
        && users == old(users) + [User(|old(users)| + 1, name, email, Crypto.Hash(password, salt))]
        && resp == Response(201, MessageAndToken("User registered successfully", Crypto.Sign(|old(users)| + 1)))
    {
      var userExists := FindUserByEmail(users, email);
      if userExists.Some? {
        return UserExists;
      }
      var hashedPassword := Crypto.Hash(password, salt);
      var newUser := User(|users| + 1, name, email, hashedPassword);
      users := users + [newUser];
      var token := Crypto.Sign(newUser.id);
      resp := Response(201, MessageAndToken("User registered successfully", token));
    }

    /**
     * `POST /api/checkout`, after the gate set `caller` (`req.user`). An invalid
     * request is refused and nothing changes; otherwise exactly one "Pending" order
     * is appended with id `length + 1`, the caller's id and the items' total.
     */
    method Checkout(caller: int, req: CheckoutRequest, createdAt: string) returns (resp: Response)
      requires Valid()
      modifies this`orders
      ensures Valid()
      ensures !IsValidOrder(req) ==> orders == old(orders) && resp == InvalidOrderData
      ensures IsValidOrder(req) ==>
        && orders == old(orders) + [Order(|old(orders)| + 1, caller, req.items.value, Total(req.items.value),
                                          req.shippingAddress.value, req.paymentMethod.value, "Pending", createdAt)]
        && resp == OrderPlaced
    {
      if req.items.None? || |req.items.value| == 0 || !Truthy(req.shippingAddress) || !Truthy(req.paymentMethod) {
        return InvalidOrderData;
      }
      var items := req.items.value;
      var totalPrice := Total(items);
      var newOrder := Order(|orders| + 1, caller, items, totalPrice,
                            req.shippingAddress.value, req.paymentMethod.value, "Pending", createdAt);
      orders := orders + [newOrder];
      resp := OrderPlaced;
    }
  }

  /**
   * `POST /api/auth/login`. Both an unknown email and a wrong password give the
   * one response `InvalidCredentials`; success returns a token for the user found.
   */
  function Login(users: seq<User>, email: string, password: string): (r: Response)
    ensures r.status != 200 ==> r == InvalidCredentials
    ensures r.status == 200 <==>
      FindUserByEmail(users, email).Some? && Crypto.Compare(password, FindUserByEmail(users, email).value.password)
    ensures r.status == 200 ==>
      r.body == MessageAndToken("Logged in successfully", Crypto.Sign(FindUserByEmail(users, email).value.id))
  {
    match FindUserByEmail(users, email)
    case None => InvalidCredentials
    case Some(user) =>
      if !Crypto.Compare(password, user.password) then InvalidCredentials
      else Response(200, MessageAndToken("Logged in successfully", Crypto.Sign(user.id)))
  }

  /** An email nobody registered is refused with the generic response. */
  lemma LoginUnknownEmail(users: seq<User>, email: string, password: string)
    requires !EmailTaken(users, email)
    ensures Login(users, email, password) == InvalidCredentials
  {
  }

  /** A wrong password for a registered email is refused with the same response. */
  lemma LoginWrongPassword(users: seq<User>, i: nat, password: string)
    requires UsersWellFormed(users) && i < |users|
    requires !Crypto.Compare(password, users[i].password)
    ensures Login(users, users[i].email, password) == InvalidCredentials
  {
    FindUserByEmailInStore(users, i);
  }

  /** The right password logs in as that user, and the token verifies to the user's id. */
  lemma LoginCorrectPassword(users: seq<User>, i: nat, password: string)
    requires UsersWellFormed(users) && i < |users|
    requires Crypto.Compare(password, users[i].password)
    ensures Login(users, users[i].email, password)
         == Response(200, MessageAndToken("Logged in successfully", Crypto.Sign(i + 1)))
    ensures Crypto.Verify(Login(users, users[i].email, password).body.token) == Some(i + 1)
  {
    FindUserByEmailInStore(users, i);
    Crypto.VerifySign(i + 1);
  }

  /** A user just registered can log in with the password given at registration. */
  lemma {:induction false} RegisterThenLogin(users: seq<User>, name: string, email: string, password: string, salt: string)
    requires UsersWellFormed(users) && !EmailTaken(users, email)
    ensures UsersWellFormed(users + [User(|users| + 1, name, email, Crypto.Hash(password, salt))])
    ensures Login(users + [User(|users| + 1, name, email, Crypto.Hash(password, salt))], email, password)
         == Response(200, MessageAndToken("Logged in successfully", Crypto.Sign(|users| + 1)))
  {
    var users' := users + [User(|users| + 1, name, email, Crypto.Hash(password, salt))];
    assert users'[|users|].email == email;
    LoginCorrectPassword(users', |users|, password);
  }

  /** The predicate that `orders.filter(order => order.userId === userId)` applies. */
  function OwnedBy(caller: int): Order -> bool
  {
    (o: Order) => o.userId == caller
  }

  /**
   * `GET /api/orders`: the caller's orders, in ledger order. Every listed order is
   * the caller's, every order of the caller is listed, and the ledger order is kept.
   */
  function ListOrders(orders: seq<Order>, caller: int): (r: Response)
    ensures r.status == 200 && r.body.OrderList?
    ensures forall k :: 0 <= k < |r.body.orders| ==> r.body.orders[k] in orders && r.body.orders[k].userId == caller
    ensures forall k :: 0 <= k < |orders| && orders[k].userId == caller ==> orders[k] in r.body.orders
    ensures IsSubsequence(r.body.orders, orders)
  {
    FilterIsSubsequence(orders, OwnedBy(caller));
    Response(200, OrderList(Filter(orders, OwnedBy(caller))))
  }

  /** The listing holds each of the caller's orders as often as the ledger does, and nobody else's. */
  lemma ListOrdersMultiplicity(orders: seq<Order>, caller: int, o: Order)
    ensures multiset(ListOrders(orders, caller).body.orders)[o]
         == if o.userId == caller then multiset(orders)[o] else 0
  {
    FilterMultiplicity(orders, OwnedBy(caller), o);
  }

  /** Checking out an order of `caller` appends it to the end of the caller's listing. */
  lemma {:induction false} ListOrdersAfterCheckout(orders: seq<Order>, caller: int, placed: Order)
    requires placed.userId == caller
    ensures ListOrders(orders + [placed], caller).body.orders
         == ListOrders(orders, caller).body.orders + [placed]
  {
    FilterAppend(orders, [placed], OwnedBy(caller));
    assert [placed][1..] == [];
  }

  /**
   * `GET /api/profile`: the name and email of the user whose id is the caller's,
   * or 404 when no user has it. The response type has no place for the digest.
   */
  function Profile(users: seq<User>, caller: int): (r: Response)
    ensures r.status == 404 <==> forall j :: 0 <= j < |users| ==> users[j].id != caller
    ensures r.status == 404 ==> r == UserNotFound
    ensures r.status != 404 ==>
      exists j :: 0 <= j < |users| && users[j].id == caller
        && r == Response(200, UserProfile(users[j].name, users[j].email))
  {
    match FindUserById(users, caller)
    case Some(user) => Response(200, UserProfile(user.name, user.email))
    case None => UserNotFound
  }

  /** In a well-formed store the profile of id `k` is that of the `k`-th registered user. */
  lemma ProfileInStore(users: seq<User>, caller: int)
    requires UsersWellFormed(users)
    ensures 1 <= caller <= |users| ==>
      Profile(users, caller) == Response(200, UserProfile(users[caller - 1].name, users[caller - 1].email))
    ensures !(1 <= caller <= |users|) ==> Profile(users, caller) == UserNotFound
  {
    FindUserByIdInStore(users, caller);
  }

  /**
   * `GET /api/products/:id`, given the result of `parseInt` on the path
   * parameter (`None` for NaN, which equals no id).
   */
  function ProductById(products: seq<Product>, id: Option<int>): (r: Response)
    ensures r.status == 200 ==> r.body.ProductRecord? && r.body.product in products && Some(r.body.product.id) == id
    ensures r.status != 200 ==> r == ProductNotFound
    ensures r.status == 404 <==> forall j :: 0 <= j < |products| ==> Some(products[j].id) != id
  {
    if id.None? then ProductNotFound
    else match FindProduct(products, id.value)
      case Some(p) => Response(200, ProductRecord(p))
      case None => ProductNotFound
  }

  /** On the backend's catalog, ids 1 to 9 find their product and every other id is not found. */
  lemma ProductByIdInCatalog(id: int)
    ensures 1 <= id <= 9 ==> ProductById(Products, Some(id)) == Response(200, ProductRecord(Products[id - 1]))
    ensures !(1 <= id <= 9) ==> ProductById(Products, Some(id)) == ProductNotFound
  {
    CatalogShape();
    FindProductByPosition(Products, id);
  }

  /** Two units at 100 and one at 50 come to 250. */
  lemma CheckoutTotalExample(a: Product, b: Product)
    requires a.price == 100 && b.price == 50
    ensures Total([CartItem(Some(a), 2), CartItem(Some(b), 1)]) == Rupees(250)
  {
    var items := [CartItem(Some(a), 2), CartItem(Some(b), 1)];
    assert items[..1] == [CartItem(Some(a), 2)];
    assert items[..1][..0] == [];
    assert Total(items[..1]) == Rupees(200);
    assert Total(items) == Plus(Total(items[..1]), LineAmount(items[1]));
  }
}
