/**
 * The protected routes of `ecommerce-backend/server.js` (`app.post('/api/checkout',
 * protect, ...)` and the two `app.get(..., protect, ...)`): the gate runs first and
 * the handler runs only when the gate calls `next`, with `req.user` as the caller.
 */
module Routes {
  import opened Wrappers
  import opened Seqs
  import opened Catalog
  import opened Backend
  import opened AuthMiddleware
  import Crypto

  /** `POST /api/checkout` behind the gate: the ledger can change only for an authorised caller. */
  method ProtectedCheckout(server: Server, authorization: Option<string>, req: CheckoutRequest, createdAt: string)
    returns (emitted: seq<Event>, resp: Option<Response>)
    requires server.Valid()
    modifies server`orders
    ensures server.Valid()
    ensures resp.Some? <==> AuthorisedUser(authorization).Some?
    ensures resp.Some? ==> emitted == [CallNext]
    ensures resp.None? ==> CallNext !in emitted && server.orders == old(server.orders)
    ensures resp.Some? && !IsValidOrder(req) ==>
      resp.value == InvalidOrderData && server.orders == old(server.orders)
    ensures resp.Some? && IsValidOrder(req) ==>
      && resp.value == OrderPlaced
      && server.orders == old(server.orders) + [Order(|old(server.orders)| + 1, AuthorisedUser(authorization).value,
                            req.items.value, Total(req.items.value), req.shippingAddress.value,
                            req.paymentMethod.value, "Pending", createdAt)]
  {
    var user;
    emitted, user := Protect(authorization);
    if user.Some? {
      var r := server.Checkout(user.value, req, createdAt);
      resp := Some(r);
    } else {
      resp := None;
    }
  }

  /** `GET /api/orders` behind the gate: an authorised caller gets exactly their own orders. */
  method ProtectedOrders(server: Server, authorization: Option<string>)
    returns (emitted: seq<Event>, resp: Option<Response>)
    ensures resp.Some? <==> AuthorisedUser(authorization).Some?
    ensures resp.Some? ==> emitted == [CallNext]
    ensures resp.None? ==> CallNext !in emitted
    ensures resp.Some? ==> resp.value == ListOrders(server.orders, AuthorisedUser(authorization).value)
  {
    var user;
    emitted, user := Protect(authorization);
    resp := if user.Some? then Some(ListOrders(server.orders, user.value)) else None;
  }

  /** `GET /api/profile` behind the gate. */
  method ProtectedProfile(server: Server, authorization: Option<string>)
    returns (emitted: seq<Event>, resp: Option<Response>)
    ensures resp.Some? <==> AuthorisedUser(authorization).Some?
    ensures resp.Some? ==> emitted == [CallNext]
    ensures resp.None? ==> CallNext !in emitted
    ensures resp.Some? ==> resp.value == Profile(server.users, AuthorisedUser(authorization).value)
  {
    var user;
    emitted, user := Protect(authorization);
    resp := if user.Some? then Some(Profile(server.users, user.value)) else None;
  }

  /**
   * On a fresh server, the first user registers, presents the returned token as a
   * bearer header, and places a valid order; their order listing then holds just
   * that order, with id 1, their user id 1 and status "Pending", and their profile
   * shows their name and email.
   */
  method RegisterCheckoutAndList(
    name: string, email: string, password: string, salt: string, req: CheckoutRequest, createdAt: string)
    returns (listed: Option<Response>, profile: Option<Response>)
    requires IsValidOrder(req)
    ensures listed == Some(Response(200, OrderList([Order(1, 1, req.items.value, Total(req.items.value),
                                                  req.shippingAddress.value, req.paymentMethod.value,
                                                  "Pending", createdAt)])))
    ensures profile == Some(Response(200, UserProfile(name, email)))
  {
    var server := new Server();
    var registered := server.Register(name, email, password, salt);
    assert registered.body.token == Crypto.Sign(1);
    var header := Some("Bearer " + Crypto.Sign(1));
    SignedTokenAuthorises(1);
    assert AuthorisedUser(header) == Some(1);
    var order := Order(1, 1, req.items.value, Total(req.items.value),
                       req.shippingAddress.value, req.paymentMethod.value, "Pending", createdAt);
    var emitted, placed := ProtectedCheckout(server, header, req, createdAt);
    assert server.orders == [order];
    ListOrdersAfterCheckout([], 1, order);
    assert ListOrders([], 1).body.orders == [];
    assert ListOrders(server.orders, 1) == Response(200, OrderList([order]));
    emitted, listed := ProtectedOrders(server, header);
    assert server.users == [User(1, name, email, Crypto.Hash(password, salt))];
    ProfileInStore(server.users, 1);
    emitted, profile := ProtectedProfile(server, header);
  }
}
