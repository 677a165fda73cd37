# E-commerce demo shop: a verified model of its core logic

This project models three pieces of sequential logic of a small e-commerce
demo and proves properties of each:

- **The API server** (`ecommerce-backend/server.js`). It keeps two in-memory
  stores, the users and the orders. Both grow only by appending, and each new
  entry gets the id `length + 1`. Registration refuses a taken email, stores a
  bcrypt digest and returns a signed token. Login refuses an unknown email and
  a wrong password with the same response. Checkout validates the request,
  totals the items and appends a "Pending" order for the authenticated caller.
  The order listing returns the caller's orders. The profile returns a name and
  an email only. The product lookup searches the fixed catalog.
  `Backend.Server` holds the two stores. Register and checkout are its methods.
  The read-only handlers are functions of the stores' contents.
- **The bearer-token gate** (`ecommerce-backend/middleware/authMiddleware.js`).
  `AuthMiddleware.Protect` is a method that returns the events the gate emits,
  in order, and the value it assigns to `req.user`. It models the header
  prefix check, the `split(' ')[1]` extraction, the verify call and the
  `if (!token)` check after the `try`. An absent or empty second field
  (`Bearer`, `Bearer `) therefore makes the gate call the send of a 401 twice,
  first "token failed" and then "no token". Express refuses the second call
  once the first response is out, so a client sees only "token failed". The module does not import `Backend`, so the gate
  cannot touch the stores. `Routes` puts the gate in front of the three
  protected handlers, the way the server's routes do.
- **The browser cart and catalog view** (`js/script.js`). `Storefront.Page`
  holds the module-level `products`, the stored cart and the stored token. Its
  methods are `addToCart`, `removeFromCart`, `updateQuantity`, the running total
  of `loadCart` (a loop proved against the fold `Catalog.Total`) and
  `filterAndSortProducts`. Each cart method is specified by a function on the
  cart. Lemmas relate those functions to the total and to each other.

bcrypt and jsonwebtoken are foreign libraries, so `Crypto` replaces them with
symbolic versions. A digest is a free constructor of the salt and the key
material bcrypt reads from the password: the password followed by a NUL
terminator, read cyclically for 72 characters. It is observed only through
`Compare`. So a password longer than 72 characters matches any password with
the same first 72, and a password holding a NUL can match a shorter one. A token is the text `jwt.`
followed by the user id in decimal. `Verify` accepts exactly the texts that
`Sign` produces and returns their ids (`VerifySign`, `VerifyOnlySigned`).

Prices are whole rupees, as in the catalog. A cart line made from a product
missing from the catalog has no price. Any total that includes such a line is
`NaN`, as in JavaScript (`Catalog.Amount`).

Where the design description and the code disagree, the model follows the
code:
- The gate's prefix test is `startsWith('Bearer')` with no space and no check
  that the header has two parts.
- Expiry is not checked at all in this model (see below).
- Totals are integers rather than decimals.

## Model

| member | source | states |
|---|---|---|
| `Backend.Server.constructor` | ecommerce-backend/server.js:97-98 | Both stores start empty, and the store invariant holds. |
| `Backend.Server.Register` | ecommerce-backend/server.js:118-134 | A taken email gives 400 "User already exists" and leaves the users unchanged. Otherwise exactly one user is appended: id `old length + 1`, the given name and email, and the bcrypt digest of the password. The response is 201 with a token signed for that id. Ids stay `index + 1` and emails stay pairwise distinct. Orders are untouched. |
| `Backend.Server.Checkout` | ecommerce-backend/server.js:154-177 | Missing or empty items, or a falsy address or payment method, give 400 "Invalid order data." and append nothing. Otherwise exactly one order is appended: id `old length + 1`, the caller's id (not from the body), the items' total and status "Pending". The response is 200. Every stored order keeps these facts. Users are untouched. |
| `Backend.FindUserByEmail` | ecommerce-backend/server.js:121 | Finds a user with the given email, or none exactly when no user has it. |
| `Backend.FindUserById` | ecommerce-backend/server.js:189 | Finds a user with the given id, or none exactly when no user has it. |
| `Backend.FindUserByIdInStore` | ecommerce-backend/server.js:189 | In a store built by registration, id `k` finds the `k`-th user, and any id outside 1 to the store's length finds none. |
| `Backend.IsValidOrder` | ecommerce-backend/server.js:158 | The checkout test: items present and non-empty, and a truthy address and payment method. Its consequences are stated by `Backend.Server.Checkout`. |
| `Backend.FindUserByEmailInStore` | ecommerce-backend/server.js:121-130 | In a store built by registration, the lookup by email returns the one user holding that email. |
| `Backend.Login` | ecommerce-backend/server.js:136-151 | Every failure is the same 400 "Invalid credentials". Success happens exactly when a user with the email exists and the password matches its digest. Success returns 200 with a token signed for that user's id. |
| `Backend.LoginUnknownEmail` | ecommerce-backend/server.js:138-142 | An email nobody registered gives "Invalid credentials". |
| `Backend.LoginWrongPassword` | ecommerce-backend/server.js:144-147 | A wrong password for a registered email gives the identical response. |
| `Backend.LoginCorrectPassword` | ecommerce-backend/server.js:149-150 | The right password for user `i` gives 200 with the token for id `i + 1`, and that token verifies to `i + 1`. |
| `Backend.RegisterThenLogin` | ecommerce-backend/server.js:129-150 | After a successful registration, logging in with the same email and password returns the token for the new id. |
| `Backend.ListOrders` | ecommerce-backend/server.js:180-184 | Always 200. Every listed order is in the ledger and belongs to the caller. Every order of the caller is listed. The ledger order is kept. |
| `Backend.ListOrdersMultiplicity` | ecommerce-backend/server.js:182 | Each of the caller's orders is listed as many times as it occurs in the ledger. Other users' orders never appear. |
| `Backend.ListOrdersAfterCheckout` | ecommerce-backend/server.js:174-182 | Appending an order of the caller appends it to the end of the caller's listing. |
| `Backend.Profile` | ecommerce-backend/server.js:187-200 | 404 "User not found" exactly when no user has the caller's id. Otherwise 200 with that user's name and email only. The body type has no field for the digest. |
| `Backend.ProfileInStore` | ecommerce-backend/server.js:189-199 | In a store built by registration, id `k` shows the `k`-th user's name and email, and any other id gives 404. |
| `Backend.ProductById` | ecommerce-backend/server.js:107-115 | 200 with a catalog product whose id equals the parsed id. Otherwise 404 "Product not found", exactly when no product has that id. A NaN id finds nothing. |
| `Backend.ProductByIdInCatalog` | ecommerce-backend/server.js:22-115 | On the shipped catalog, ids 1 to 9 return products 1 to 9 and every other id gives 404. |
| `Backend.CheckoutTotalExample` | ecommerce-backend/server.js:162 | Two units at 100 and one at 50 total 250. |
| `Catalog.CatalogShape` | ecommerce-backend/server.js:22-95 | The catalog has nine products with ids 1 to 9, positive integer prices and no category. |
| `Catalog.Total` | ecommerce-backend/server.js:162 | The left-fold total of the lines, from 0. It is NaN exactly when some line has no price. |
| `Catalog.TotalIsPriceSum` | ecommerce-backend/server.js:162 | The left-fold total is the sum of price times quantity when every line has a price. It is NaN exactly when some line lacks one. |
| `Catalog.FindProduct` | js/script.js:171 | Finds a catalog product with the id, or none exactly when no product has it. |
| `Catalog.FindProductByPosition` | ecommerce-backend/server.js:109 | In a product list whose ids are 1, 2, 3 … by position, id `k` finds the `k`-th product, and any other id finds none. |
| `Crypto.Sign` | ecommerce-backend/server.js:132 | A token is non-empty and holds no space, so it survives the `Bearer <token>` header. |
| `Crypto.Significant` | ecommerce-backend/server.js:127 | The key material bcrypt hashes is 72 characters long. It is the first 72 characters of a long password. For a shorter password it is the password followed by a NUL. |
| `Crypto.Hash` | ecommerce-backend/server.js:127 | The digest carries the given salt and 72 characters of key material. |
| `Crypto.Compare` | ecommerce-backend/server.js:144 | Compare succeeds exactly when the digest is the hash of the password under the digest's own salt. |
| `Crypto.CompareHash` | ecommerce-backend/server.js:144 | A password matches its own digest under any salt. Another password matches it exactly when the two give the same key material. |
| `Crypto.SignificantNulFree` | ecommerce-backend/server.js:144 | Two passwords of at most 72 characters without a NUL that give the same key material are equal. |
| `Crypto.PasswordTruncation` | ecommerce-backend/server.js:144 | Passwords of at most 72 characters without a NUL match only themselves. Two passwords of 72 characters or more with the same first 72 characters match each other's digests. |
| `Crypto.TerminatorCollision` | ecommerce-backend/server.js:144 | A password, a NUL and the password again matches the password's digest, and the reverse. In particular `""` and a lone NUL match each other's digests. |
| `Crypto.SaltsGiveDistinctDigests` | ecommerce-backend/server.js:126-127 | One password under two salts gives two different digests, and both match the password. |
| `Crypto.Verify` | ecommerce-backend/middleware/authMiddleware.js:14 | The empty token never verifies. Which tokens do verify is stated by `Crypto.VerifySign` and `Crypto.VerifyOnlySigned`. |
| `Crypto.VerifySign` | ecommerce-backend/middleware/authMiddleware.js:14 | A signed token verifies to the id it was signed for. |
| `Crypto.VerifyOnlySigned` | ecommerce-backend/middleware/authMiddleware.js:14 | A token that verifies to an id is the token signed for that id. |
| `Strings.SplitJoin` | ecommerce-backend/middleware/authMiddleware.js:11 | Splitting a join of space-free fields on the separator gives the fields back. |
| `Strings.JoinSplit` | ecommerce-backend/middleware/authMiddleware.js:11 | Joining the fields of a split gives the original header back. |
| `Strings.IncludesIff` | js/script.js:90-91 | `includes` holds exactly when the term occurs at some position of the text. |
| `AuthMiddleware.Protect` | ecommerce-backend/middleware/authMiddleware.js:5-28 | A missing, empty or non-`Bearer` header emits exactly one "no token" 401 and sets no user. A verified token sets `req.user` to its id and emits only one call of `next`. A failed, non-empty token emits exactly one "token failed" 401. A failed `undefined` or empty token emits "token failed" and then "no token". `next` is called only when a user is set. |
| `AuthMiddleware.HasBearerPrefix` | ecommerce-backend/middleware/authMiddleware.js:8 | The header is present, non-empty and starts with `Bearer`, case-sensitive and with no space required. Its cases are stated by `AuthMiddleware.BearerPrefixIsLiteral`. |
| `AuthMiddleware.ExtractToken` | ecommerce-backend/middleware/authMiddleware.js:11 | The extracted token holds no space. It is `undefined` exactly when the header holds no space. |
| `AuthMiddleware.AuthorisedUser` | ecommerce-backend/middleware/authMiddleware.js:8-17 | The gate lets a request through only for a `Bearer` header whose extracted token is truthy and verifies. |
| `AuthMiddleware.VerifyToken` | ecommerce-backend/middleware/authMiddleware.js:14 | Verification succeeds only for a truthy token, so an `undefined` or empty token fails. |
| `AuthMiddleware.ExtractTokenIsSecondField` | ecommerce-backend/middleware/authMiddleware.js:11 | For a header built from space-free fields, the token is the second field, or `undefined` when there is just one field. |
| `AuthMiddleware.BearerPrefixIsLiteral` | ecommerce-backend/middleware/authMiddleware.js:8-11 | `BearerX y` passes the prefix test with token `y`. `bearer y` fails it. |
| `AuthMiddleware.BareSchemeGivesNoToken` | ecommerce-backend/middleware/authMiddleware.js:11-27 | `Bearer` and `Bearer ` pass the prefix test. They give an `undefined` and an empty token, and both fail verification. So `Protect` calls the send of a 401 twice for them. |
| `AuthMiddleware.SignedTokenAuthorises` | ecommerce-backend/middleware/authMiddleware.js:8-17 | `Bearer ` followed by a signed token passes the prefix test, yields that token and verifies to its id. |
| `AuthMiddleware.OnlySignedTokensAuthorise` | ecommerce-backend/middleware/authMiddleware.js:11-14 | Any header that gets through carries exactly the token signed for the id it is let through as. |
| `Routes.ProtectedCheckout` | ecommerce-backend/server.js:154-177 | The ledger changes only when the gate authorises. The appended order's user id is the id the gate decoded. An unauthorised request never reaches the handler. |
| `Routes.ProtectedOrders` | ecommerce-backend/server.js:180-184 | The listing is produced only for an authorised request, and it is the decoded caller's listing. |
| `Routes.ProtectedProfile` | ecommerce-backend/server.js:187-200 | The profile is produced only for an authorised request, and it is the decoded caller's profile. |
| `Routes.RegisterCheckoutAndList` | ecommerce-backend/server.js:118-200 | On a fresh server: register, send the returned token, place a valid order. The listing is then exactly that one order (id 1, user 1, "Pending", its items' total), and the profile is the registered name and email. |
| `Storefront.FindItem` | js/script.js:172 | Finds the first cart line whose id is the given one (a number, or `undefined` for a line without a product), or none exactly when no line has it. |
| `Storefront.CartWithout` | js/script.js:227 | No remaining line has the id. Every other line stays, as many times as it occurred, and the cart order is kept. |
| `Storefront.CartAfterAdd` | js/script.js:170-178 | If a line holds the product, that first line gains one unit, and the length and all other lines are unchanged. Otherwise a copy of the catalog product with quantity 1 is appended at the end. |
| `Storefront.CartAfterUpdate` | js/script.js:233-245 | An absent id changes nothing. Otherwise the first matching line moves by `change`. If its quantity then falls to zero or below, every line of that product is removed. |
| `Storefront.AddToCartTotal` | js/script.js:174-178 | Each add raises the cart total by one unit's price. For a product missing from the catalog the total becomes NaN. |
| `Storefront.RemoveAfterAdd` | js/script.js:174-227 | For a catalog product, removing it after adding it leaves the same cart as removing it directly. |
| `Storefront.UnknownProductLine` | js/script.js:171-177 | Adding an id the catalog lacks appends a line with no product. Removing any number id keeps that line. Its own Remove button, which passes `undefined` (js/script.js:217), removes it together with every other line without an id. |
| `Storefront.UpdateQuantityTotal` | js/script.js:238 | An update that keeps the quantity positive moves the total by `change` units of the line's price. |
| `Storefront.SortByPrice` | js/script.js:99-103 | The result is a permutation of the input, ordered by rising price or by falling price. |
| `Storefront.Filtered` | js/script.js:88-97 | The filtered list is no longer than `products`, and each of its entries is one of the products. Its exact contents are stated by `Storefront.FilteredContents`. |
| `Storefront.Arranged` | js/script.js:99-103 | The displayed list is a permutation of the filtered list. Its order is stated by `Storefront.ArrangedOrder`. |
| `Storefront.FilteredContents` | js/script.js:88-97 | The filtered list keeps the order of `products`. It holds exactly the products whose lowercased name or description contains the lowercased term (when a term is given) and whose category equals the selected one (unless the selection is `all` or empty). |
| `Storefront.ArrangedOrder` | js/script.js:99-103 | The displayed list is a permutation of the filtered list. `low-to-high` gives non-decreasing prices and `high-to-low` non-increasing prices. Any other value leaves the filtered order. |
| `Storefront.CategoryEmptiesUncategorised` | js/script.js:95-97 | When no product has a category, choosing one shows nothing. |
| `Storefront.CategoryEmptiesBackendCatalog` | js/script.js:95-97 | The backend's products have no category, so any category other than `all` or empty shows nothing. |
| `Storefront.Page.constructor` | js/script.js:2 | A fresh page holds the given `products` (the fetched list) and the stored token, and an empty cart (no stored cart). |
| `Storefront.Page.AddToCart` | js/script.js:163-182 | Without a stored token the cart is unchanged. Otherwise the cart becomes `CartAfterAdd` of the old cart. |
| `Storefront.Page.RemoveFromCart` | js/script.js:225-231 | The cart becomes `CartWithout` of the old cart. The id may be `undefined`, as the Remove button of a line without a product passes it. |
| `Storefront.Page.UpdateQuantity` | js/script.js:233-245 | The cart becomes `CartAfterUpdate` of the old cart. The id may be `undefined`, as for the Remove button. |
| `Storefront.Page.LoadCart` | js/script.js:184-223 | An empty cart shows no total. Otherwise the loop's running sum equals the fold `Total` of the cart. |
| `Storefront.Page.FilterAndSortProducts` | js/script.js:68-106 | Shows the filtered and sorted list. When neither filter applies, the global `products` array itself is left in the displayed order, because the sort runs on it in place. Otherwise `products` is unchanged. |

## Left out

- DOM rendering, toasts, event wiring, page redirects and the two `setupSearch` definitions: user interface only.
- The `fetch`-based client calls (`fetchProducts`, `handleCheckout`, `handleRegister`, `handleLogin`, `loadUserOrders`, `loadUserProfile`, `loadProductDetails`) and the refetch at the start of `loadCart`: network I/O.
- The `localStorage` JSON round trip: the stored cart and token are fields of `Storefront.Page`, and a missing cart reads as empty.
- Express setup, CORS, dotenv, `app.listen` and `GET /api/products`, which only returns the catalog unchanged: infrastructure.
- bcrypt's algorithm, cost factor and random salt: the salt is a parameter of `Register`, and the digest is symbolic.
- Crypto.Significant: bcrypt reads 72 bytes of the UTF-8 encoding of the password and its NUL, while the model reads 72 characters. The two agree for ASCII passwords.
- Crypto.CompareHash: "the same key material" is counted in characters where bcrypt counts bytes, as for `Crypto.Significant`.
- Crypto.PasswordTruncation: counts characters where bcrypt counts bytes, as for `Crypto.Significant`.
- Crypto.TerminatorCollision: counts characters where bcrypt counts bytes, as for `Crypto.Significant`.
- jsonwebtoken's format, secret and one-hour expiry: tokens are symbolic, so an expired token is not modelled.
- `new Date().toISOString()`: the timestamp is a parameter of `Checkout`.
- `parseInt` of the route parameter: `Backend.ProductById` takes its result (`None` for NaN).
- `formatPrice` (`Intl.NumberFormat`): locale formatting of the displayed total.
- Strings.ToLower: maps only the ASCII letters, whereas JavaScript's `toLowerCase` covers all of Unicode.
- Storefront.SortByPrice: sorts stably by construction, but stability is not stated as a property.
- JavaScript number arithmetic: prices and quantities are integers. NaN appears only for a line without a price. Other wrongly typed fields are not modelled: a non-array `items`, or a price that is a string.
- Register and login with missing body fields: `email` and `password` are always strings here. In the source an `undefined` password makes bcrypt throw.
- Exceptions thrown by a handler that `next()` runs inside the gate's `try`: the source would report them as "token failed".
- Concurrency: register awaits bcrypt between the duplicate check and the append. Two interleaved registrations of one email could therefore both succeed. The model runs handlers one at a time, and email uniqueness is proved only for that case.
- A value left in `req.user` from earlier: `Protect` returns `None` when it assigns nothing.
