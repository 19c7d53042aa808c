# UrbanFashion shop backend — a verified model of its business logic

This project models the business logic of a small shop backend. The backend is built on Django and Django REST Framework. The model runs over an in-memory database and proves properties about it:

- **Catalog rules.** The two stock properties of a product, the enumerated choices (order status, size, rating 1–5), the field defaults and the uniqueness constraints of the cart, review and wishlist tables.
- **Order placement.** Validation of an order payload, then the creation of the order row and one item row per line, with the product's current price copied onto each item. The loop accumulates the total, which is then written back to the order.
- **The read side of the handlers.**
  - The product listing: search, category and stock filters applied in sequence, then a slice of at most six featured products.
  - Order listings scoped to their owner, unless the requester is staff.
  - The single-row lookups that the state-changing handlers start from.
- **The state-changing handlers**, as methods of the class `Store.Shop`:
  - registration, which assigns a verification token to the user's profile;
  - email verification;
  - payment confirmation;
  - owner-only update and deletion of reviews.

Every handler keeps the schema invariants (`Schema.TablesValid`: distinct and allocated keys, resolving foreign keys, the uniqueness constraints, rating choices, unique verification tokens). Each one states its whole effect on the tables.

Prices and totals are integer cents. Ids are allocated from auto-increment counters held by the store.

Modules, in dependency order:

| module | file | models |
|---|---|---|
| `Shared` | shared.dfy | `Option`, `Result`; the order-preserving filter `Keep` that a chain of ORM `.filter` calls performs; subsequences; Python slicing |
| `Models` | models.dfy | `api/models.py`: records, choices, defaults, stock predicates, uniqueness predicates |
| `Serializers` | serializers.dfy | `api/serializers.py`: payload validation, specification of order placement, `review_count` |
| `Views` | views.dfy | `api/views.py`, pure parts: listing filters, featured slice, order scoping, lookups, the review owner guard |
| `Schema` | schema.dfy | the database invariants, and one lemma per handler showing that its change keeps them |
| `Store` | store.dfy | `api/views.py` and `OrderSerializer.create`, imperative parts: the `Shop` class and its handler methods |
| `Scenarios` | scenarios.dfy | properties that span several requests |

Behaviours of the code that the model follows and that are easy to miss:

- No check that an order has at least one item. A quantity of 0 is accepted, because the field is a `PositiveIntegerField`, which admits 0. Its upper end is the database integer range, 2147483647 (`Serializers.MaxQuantity`).
- The status is a writable field of `OrderSerializer`. A client may therefore create an order in any of the five statuses; only when it gives none is the status `pending`.
- `stock_quantity` is a plain integer field and may be negative.
- Text fields of a payload (username, e-mail, password, review comment) are trimmed of surrounding whitespace before they are validated, and a value holding a null character is refused.
- Order creation is not atomic in the code (see Findings).
- Verifying an already-verified profile is reachable only while it still holds the token. After a successful verification the token is cleared, so submitting it again is "Invalid token", not "Already verified".
- Payment confirmation sets the status to `processing` from any prior status. It never touches `payment_verified`.

## Model

| member | source | states |
|---|---|---|
| Shared.Keep | api/views.py:45-59 | an ORM `.filter`: keeps exactly the rows satisfying the condition, and never more rows than it was given |
| Shared.Take | api/views.py:65 | slicing `[:6]`: the first min(6, n) rows |
| Models.IsInStock | api/models.py:35-37 | `is_in_stock`: stock_quantity > 0 |
| Models.IsLowStock | api/models.py:39-41 | `is_low_stock`: 0 < stock_quantity <= low_stock_threshold |
| Models.NewestFirst | api/models.py:29-30 | the product table's default ordering `-id`: ids strictly decrease along the table |
| Models.LowStockIsInStock | api/models.py:35-41 | a low-stock product is in stock |
| Models.NoStockIsNeither | api/models.py:35-41 | a product with stock_quantity <= 0 is neither in stock nor low on stock |
| Models.NonPositiveThresholdNeverLow | api/models.py:39-41 | with a threshold <= 0 a product is never low on stock |
| Models.NewProduct | api/models.py:17-27 | a new product has a blank description, is not featured, has stock 0 and low-stock threshold 5 |
| Models.NewProductOutOfStock | api/models.py:26-41 | a freshly created product is neither in stock nor low on stock |
| Models.ParseStatus | api/models.py:44-52 | a status code is accepted exactly when it is one of the five choices, and the accepted code is the one stored |
| Models.StatusRoundTrip | api/models.py:44-52 | every status has a code among the choices, and parsing that code gives the status back |
| Models.ParseSize | api/models.py:76-81 | a size code is accepted exactly when it is one of S/M/L/XL |
| Models.SizeRoundTrip | api/models.py:76-81 | every size has a code among the choices, and parsing that code gives the size back |
| Models.Range | api/models.py:136 | `range(lo, hi)`: hi - lo consecutive integers starting at lo |
| Models.RatingChoices | api/models.py:136 | the rating choices `[(i, i) for i in range(1, 6)]`, as their values |
| Models.IsRating | api/models.py:136 | a rating is valid when it is one of the choices |
| Models.RatingChoicesAreOneToFive | api/models.py:136 | a rating is one of the choices exactly when it is between 1 and 5 |
| Models.NewOrder | api/models.py:51-65 | a new order has total 0, payment not verified, blank shipping fields and payment method "UPI" |
| Models.NewCartItem | api/models.py:82-85 | a new cart row has size M and quantity 1 |
| Models.NewProfile | api/models.py:110-115 | a new profile has blank phone, address and token and is not verified |
| Models.CartUnique | api/models.py:89 | no two cart rows share (user, product, size) |
| Models.ReviewsUnique | api/models.py:143 | no two reviews share (product, user) |
| Models.WishlistUnique | api/models.py:155 | no two wishlist rows share (user, product) |
| Models.RatingsValid | api/models.py:136 | every stored rating is one of the declared choices |
| Models.NewCartItemKeepsCartUnique | api/models.py:82-89 | a row with the declared defaults keeps the (user, product, size) constraint exactly when the user holds no size-M row of that product |
| Models.CartAtMostOneRow | api/models.py:89 | under the cart constraint, at most one row has a given (user, product, size) |
| Models.ReviewAtMostOneRow | api/models.py:143 | under the review constraint, at most one row has a given (product, user) |
| Models.WishlistAtMostOneRow | api/models.py:155 | under the wishlist constraint, at most one row has a given (user, product) |
| Models.RemoveReviewKeepsConstraints | api/models.py:136-143 | deleting a review row keeps the (product, user) uniqueness and the rating choices |
| Serializers.FindProduct | api/serializers.py:63-65 | the primary-key lookup finds a product with that id, and finds none exactly when no product has it |
| Serializers.FindProductFindsRow | api/serializers.py:63-65 | with unique ids, the lookup of a stored product's id returns that product |
| Serializers.ValidateLine | api/serializers.py:61-69 | (corrected: price read-only, see Findings) a line is accepted exactly when a `product_id` is given and names an existing product, a size choice is given and any quantity lies in the field's range 0..2147483647; the accepted line carries that product, size and quantity |
| Serializers.ValidateLines | api/serializers.py:72 | the list is accepted exactly when every line is, and then line i of the result is the validated line i |
| Serializers.ValidateOrder | api/serializers.py:71-78 | an order payload is accepted exactly when any status is a choice, `items` is present and every line is valid; the validated data keeps the status and the lines in order |
| Serializers.ClientTotalIgnored | api/serializers.py:78 | a client-supplied total_amount does not change what reaches `create` |
| Serializers.QuantityAboveRangeRejected | api/models.py:104 | (corrected: price read-only, see Findings) a quantity above 2147483647, the `PositiveIntegerField` maximum, is refused with an error naming the line |
| Serializers.ValidateLineIgnoresPrice | api/serializers.py:61-69 | (corrected: price read-only, see Findings) line validation never reads the price |
| Serializers.ClientLinePricesIgnored | api/serializers.py:85-87 | (corrected: price read-only, see Findings) client-supplied line prices do not change what reaches `create` (the price is snapshotted) |
| Serializers.LinesTotal | api/serializers.py:84-88 | the reference total: the sum over the lines of the product's price times the line's quantity |
| Serializers.SnapshotItem | api/serializers.py:85-87 | the item row a line becomes: its id, the order, the line's product, size and quantity, and the product's price |
| Serializers.SnapshotItems | api/serializers.py:84-88 | the reference item rows: one per line, in line order, numbered consecutively |
| Serializers.ItemsTotal | api/serializers.py:84-88 | the sum over stored items of price times quantity |
| Serializers.LineQuantity | api/serializers.py:88 | a line without a quantity counts as quantity 1, the item field's default |
| Serializers.LineAmount | api/serializers.py:88 | what one line adds to the total: the catalogue price times the line's defaulted quantity |
| Serializers.SnapshotItemsAt | api/serializers.py:84-87 | exactly one item per line, in input order, with consecutive ids, attached to the order, with the line's product, size and quantity and the product's price |
| Serializers.SnapshotTotalMatchesItems | api/serializers.py:83-89 | the stored total equals the sum over the created items of price times quantity |
| Serializers.SnapshotPricesAreCatalogPrices | api/serializers.py:85-87 | each created item's price is the catalog price of its product at creation time |
| Serializers.NoLinesNoItems | api/serializers.py:83-90 | an empty item list creates no items and a total of 0 |
| Serializers.LinesTotalAppend | api/serializers.py:83-88 | the total is additive over any split of the lines |
| Serializers.PostOrderAsWritten | api/serializers.py:69-91 | with the serializers as declared, the only order rows that complete have no items and total 0, and a crash leaves a row with total 0 |
| Serializers.ValidatedItemKeysAsWritten | api/serializers.py:69 | as declared, a validated line holds the keys `size` and `price`, and `quantity` when given, once `product` has been popped |
| Serializers.RaisesDuplicateKeyword | api/serializers.py:87 | a Python call raises `TypeError` when an unpacked key repeats an explicit keyword |
| Serializers.AsWrittenItemCallAlwaysCollides | api/serializers.py:69 | as declared, every validated line passes `price` twice to the item constructor |
| Serializers.AsWrittenNeverPlacesItems | api/serializers.py:80-91 | as declared, no POST with at least one line yields a complete order |
| Serializers.AsWrittenExampleCrashes | api/serializers.py:80-91 | the two-line example crashes after inserting the order row |
| Serializers.CorrectedExampleTotal | api/serializers.py:80-91 | with the price read-only, the two-line example (100.00 x 2, 50.00 x 1) totals 250.00 and yields the two expected items |
| Serializers.ReviewCount | api/serializers.py:57-58 | `review_count` is at most the number of reviews, and is 0 exactly when no review is of the product |
| Serializers.KeepConcat | api/serializers.py:57-58 | filtering commutes with concatenation of tables |
| Serializers.ReviewCountAfterRemove | api/serializers.py:57-58 | deleting a review lowers its product's count by one and leaves every other count unchanged |
| Serializers.ReviewCountAfterReplace | api/serializers.py:57-58 | rewriting a review moves one unit of count from its old product to its new one |
| Serializers.ValidateReviewPatch | api/serializers.py:142-149 | an update is accepted exactly when a full update gives product and rating, a given product exists, a given rating is 1..5 and a given comment holds no null character (the `CharField` null-character validator); the null-character error is reported only for such a comment; fields are checked in declaration order (product, rating, comment), so a rating or comment error means the product was acceptable, and a comment error means the rating was too |
| Serializers.UnknownProductReportedFirst | api/serializers.py:148 | a full update naming an unknown product and no rating reports the product, the first declared field |
| Serializers.ApplyReviewPatch | api/serializers.py:142-149 | saving a patch replaces exactly the given writable fields, storing a given comment trimmed as a `CharField` does, and keeps id, author and verified_purchase |
| Serializers.StripWith | api/serializers.py:119-125 | stripping removes exactly the leading and the trailing run of removable characters: the result is the slice between them, has no removable character at either end, and is empty exactly when every character is removable |
| Serializers.Strip | api/serializers.py:119-125 | `CharField` input trimming (`str.strip()`): the input without its leading and trailing runs of whitespace, which are all that is removed; no whitespace at either end; empty exactly when the input is all whitespace |
| Serializers.StripIdempotent | api/serializers.py:119-125 | trimming an already trimmed value changes nothing |
| Serializers.StripKeepsInnerSpace | api/serializers.py:119-125 | only the outer whitespace goes: `" a b "` trims to `"a b"` |
| Serializers.StripWithKeeps | api/serializers.py:119-125 | stripping keeps every character that is not removable: such a character occurs in the result exactly when it occurs in the input |
| Serializers.NullCharSurvivesStrip | api/serializers.py:119-125 | a null character is in the trimmed value exactly when it is in the raw one, so the null-character validator sees the same answer either way |
| Serializers.IsSpace | api/serializers.py:119-125 | the characters `str.strip()` removes: Python's Unicode whitespace set |
| Serializers.ValidateRegistration | api/serializers.py:119-125 | on the trimmed values: registration is accepted exactly when a non-blank username held by no user, an email key and a non-blank password are given, and none of the three holds a null character; "taken" is reported only when some user has the trimmed name, and a null-character error only for a field that holds one |
| Views.Lower | api/views.py:46-48 | case folding keeps the length |
| Views.LowerIdempotent | api/views.py:46-48 | case folding twice is folding once |
| Views.IContainsIgnoresTermCase | api/views.py:46-48 | `icontains` ignores the case of the search term |
| Views.IContains | api/views.py:46-48 | `__icontains`: the case-folded term occurs somewhere in the case-folded text |
| Views.Truthy | api/views.py:44 | Python truthiness of a query parameter (`if search:`, `if category:`): present and non-empty |
| Views.MatchesSearch | api/views.py:45-49 | the search disjunction: title, description or category name contains the term, ignoring case |
| Views.InCategory | api/views.py:54 | `category__slug=slug`: the product's category exists and has that slug |
| Views.StockFilterOn | api/views.py:57-58 | the stock filter is on only for the exact parameter value `true` |
| Views.IContainsEmpty | api/views.py:44-48 | every text contains the empty term |
| Views.EmptySearchWouldKeepAll | api/views.py:43-49 | a search for the empty term would keep every product, so skipping a falsy term changes no listing |
| Views.FindCategory | api/views.py:48 | the category lookup finds the category with that id, or none exactly when there is none |
| Views.Selected | api/views.py:43-59 | the reference definition of the listing: every active filter (search, category, `in_stock == 'true'`) holds |
| Views.ProductQueryset | api/views.py:39-61 | a product is listed exactly when it is stored and passes every active filter |
| Views.ProductQuerysetIsConjunctiveFilter | api/views.py:39-61 | the three filters applied in turn equal one order-preserving filter by their conjunction |
| Views.ProductQuerysetPreservesOrder | api/views.py:39-61 | the listing is a subsequence of all products |
| Views.SearchResultsContainTerm | api/views.py:43-49 | with a search term, every listed product contains it, ignoring case, in its title, description or category name |
| Views.OtherStockValuesIgnored | api/views.py:57-59 | an `in_stock` value other than exactly "true" filters nothing |
| Views.NoParametersListsAll | api/views.py:39-61 | with no parameters every product is listed, in order |
| Views.Featured | api/views.py:63-67 | at most six products, each featured, in stock and in the filtered listing |
| Views.FeaturedInStock | api/views.py:65 | `is_featured=True, stock_quantity__gt=0` |
| Views.FeaturedIsPrefixOfListing | api/views.py:65 | the featured slice is the first up-to-six featured in-stock products of the listing, an ordered selection of it, and omits such a product only when six were already taken |
| Views.KeepKeepsNewestFirst | api/views.py:39-65 | filtering a table held in `-id` order keeps it in `-id` order |
| Views.FeaturedAreNewest | api/views.py:65 | over the `-id` order, a featured in-stock listed product that is left out is older than all six products shown |
| Views.ScopeOrders | api/views.py:78-81 | staff see every order; anyone else sees exactly their own orders |
| Views.ScopeOrdersPreservesOrder | api/views.py:78-81 | the scoped listing keeps the table order |
| Views.PlacedOrderVisible | api/views.py:75-81 | an order owned by the requester appears in the requester's listing |
| Views.FindOwnedOrder | api/views.py:169 | `Order.objects.get(id, user)` finds a row with that id and owner, and finds none exactly when there is none |
| Views.FindOwnedOrderIgnoresStatus | api/views.py:169-171 | changing an order's status does not change what the lookup finds |
| Views.FindProfileByToken | api/views.py:134 | the token lookup finds a profile holding the token, and finds none exactly when there is none |
| Views.FindProfileOfUser | api/views.py:109 | the profile lookup of `get_or_create` finds the user's profile, or none exactly when there is none |
| Views.FindReview | api/views.py:254-264 | the review a route names is found by id, or none exactly when no review has it |
| Views.OwnerGuardAsWritten | api/views.py:254-264 | as written, the author always passes the guard |
| Views.NonAuthorCrashesAsWritten | api/views.py:254-264 | as written, the guard agrees with the intended one exactly on the author; every non-author request ends in `AttributeError` |
| Views.OwnerGuard | api/views.py:254-264 | only the author passes; anyone else is refused with 403 |
| Schema.UsersValid | api/serializers.py:127-134 | users have allocated, distinct ids and distinct usernames |
| Schema.OrdersValid | api/models.py:51-102 | orders and items have allocated, distinct ids; each order's user, each item's order and each item's product exist |
| Schema.ReviewsValid | api/models.py:133-143 | reviews are unique per (product, user), have ratings among the choices, distinct ids, and existing products and users |
| Schema.CartValid | api/models.py:82-89 | cart rows are unique per (user, product, size), have distinct ids, and existing products and users |
| Schema.WishlistValid | api/models.py:149-155 | wishlist rows are unique per (user, product), have distinct ids, and existing products and users |
| Schema.TablesValid | api/models.py:6-155 | the conjunction of every table's constraints: what the database guarantees between requests |
| Schema.KeyTakenByOther | api/models.py:143 | another review than the one being saved already holds its (product, user) key, the case the database refuses |
| Schema.CatalogValid | api/models.py:6-30 | category names and slugs and product slugs are unique (`unique=True`), products are held in `-id` order, and every product's category exists |
| Schema.TokensUnique | api/views.py:107-110 | a non-empty verification token, a fresh `uuid4` string, names at most one profile |
| Schema.ProfilesValid | api/models.py:110-115 | one profile per user (the one-to-one field), with distinct ids, existing users and unique tokens |
| Schema.NewItemsKeepKeys | api/serializers.py:82-87 | the new order and items get fresh, distinct ids and reference existing rows |
| Schema.PlaceOrderKeepsTables | api/serializers.py:80-91 | inserting an order for an existing user, and one item per line for existing products, keeps every table invariant |
| Schema.AddUserKeepsReferences | api/serializers.py:127-134 | adding a user keeps every foreign key to users resolving |
| Schema.NewUserHasNoProfile | api/views.py:109 | a user with a never-allocated id has no profile, so `get_or_create` creates one |
| Schema.AddProfileKeepsProfiles | api/views.py:109-111 | a profile with a fresh id, for a user without one and with an unused token, keeps the profile invariant |
| Schema.RegisterKeepsTables | api/views.py:102-111 | registering a user with an unused name, with a profile holding a fresh token, keeps every table invariant |
| Schema.ClearedTokenUnused | api/views.py:138-140 | once a profile's token is cleared, no profile holds that token any more |
| Schema.VerifyKeepsTables | api/views.py:138-140 | marking a profile verified and clearing its token keeps every table invariant |
| Schema.StatusChangeKeepsTables | api/views.py:170-171 | changing an order's status keeps every table invariant |
| Schema.ReviewUpdateKeepsTables | api/views.py:254-258 | an update keeping id and author, with a valid rating, an existing product and a free (product, user) key, keeps every table invariant |
| Schema.ReviewRemovalKeepsTables | api/views.py:260-264 | deleting a review keeps every table invariant |
| Schema.RemovalKeepsReviewsValid | api/models.py:133-143 | deleting a review keeps the review table's ids and (product, user) keys unique and its foreign keys resolved |
| Schema.OtherTablesUnchanged | api/views.py:254-264 | replacing the review table by a valid one keeps every other table's invariant |
| Store.Shop.constructor | api/models.py:6-155 | a store opened on consistent tables holds exactly those tables |
| Store.Shop.CreateOrder | api/serializers.py:80-91 | (corrected: price read-only, see Findings) inserts one order (the given or pending status, total = sum of price times quantity, defaults elsewhere) and exactly the snapshotted items; changes nothing else, products included |
| Store.Shop.InsertItems | api/serializers.py:84-88 | (corrected: price read-only, see Findings) the loop appends one snapshotted item per line and returns the sum of price times quantity |
| Store.Shop.PlaceOrder | api/views.py:75-76 | (corrected: price read-only, see Findings) keeps the invariants; an invalid payload is rejected with its error and changes nothing; a valid one creates the order owned by the requester, with the given or pending status, the computed total, payment not verified, blank shipping fields and payment method "UPI", and its items |
| Store.Shop.Register | api/views.py:102-111 | keeps the invariants; an invalid request changes nothing; otherwise inserts a non-staff user with the trimmed username and email, and one profile holding the token |
| Store.Shop.CreateUser | api/serializers.py:127-134 | inserts the user row, then the user's profile saved with the token |
| Store.Shop.GetOrCreateProfile | api/views.py:109 | `get_or_create`: returns the user's existing profile unchanged, or inserts a blank one |
| Store.Shop.VerifyEmail | api/views.py:128-143 | a missing or empty token and an unknown token are errors that change nothing; an already-verified match changes nothing; an unverified match becomes verified with its token cleared, after which no profile holds that token |
| Store.Shop.ConfirmPayment | api/views.py:149-181 | a failed signature, a gateway fault, a missing id or an order not owned by the requester change nothing; otherwise exactly that order becomes processing; payment_verified never changes |
| Store.OrderIdGiven | api/views.py:167-168 | `if order_id:`: an absent id and the id 0 both count as missing |
| Store.Shop.UpdateReview | api/views.py:254-258 | (corrected: refusal as 403, see Findings) not found, invalid payload, a non-author and a taken (product, user) key each change nothing; otherwise exactly the review is rewritten with the patch, its comment trimmed |
| Store.Shop.DeleteReview | api/views.py:260-264 | (corrected: refusal as 403, see Findings) not found and a non-author change nothing; the author's delete removes exactly that row and lowers only its product's review count |
| Scenarios.FreshTokenFindsNewProfile | api/views.py:134 | `Profile.objects.get(verification_token=token)` finds the newly appended profile when no other profile holds its token |
| Scenarios.VerifyEmailReplay | api/views.py:134-143 | after a successful verification, the same token is an invalid token |
| Scenarios.ConfirmPaymentTwice | api/views.py:164-172 | a second confirmation of a confirmed order succeeds again and changes nothing |
| Scenarios.RegisterThenVerify | api/views.py:108-141 | the token handed out at registration verifies the new account |
| Scenarios.PlaceThenList | api/views.py:75-81 | a placed order is owned by the requester and appears in the requester's listing |

## Left out

- The payment gateway's signature check (`verify_payment_signature`) is a foreign library call. Its verdict is a parameter: valid, invalid, or a fault with a message. An exception raised by the order lookup for a malformed `order_id` is not modelled: `order_id` is an optional integer, and 0 counts as missing, as Python's truthiness makes it.
- The verification token from `uuid.uuid4()` is a parameter. `Store.Shop.Register` requires it to be non-empty and held by no profile, which is what a fresh UUID guarantees.
- Sending e-mail, the verification link and `print` calls are I/O whose failures are swallowed, so they are not modelled.
- `get_average_rating` uses floating-point division and rounding, so it is not modelled.
- Timestamps and `created_at` are not modelled. The product sequence stands for the product table in its default `-id` order (`Schema.CatalogValid` keeps `Models.NewestFirst`). The `ordering` options of the other models (newest first by creation time for orders, reviews, cart and wishlist rows, by name for categories) are not modelled: those tables are held in insertion order.
- Decimal `max_digits` limits and overflow are not modelled. Prices are unbounded integer cents.
- Image fields are not modelled.
- The HTTP layer is not modelled: status codes, routing, the `permission_classes` checks, content negotiation, JWT endpoints and the admin configuration. Outcomes are datatypes. The requester is a `User` argument, and `PlaceOrder` requires the requester to be a stored user, as authentication guarantees.
- The one-off scripts `create_superuser.py` and `test_token.py` are not part of this model.
- `MultipleObjectsReturned` is not modelled. Token uniqueness is a store invariant instead (`Schema.TokensUnique`).
- Validation reports one error, the first in the serializer's field order, where the framework collects all of them.
- Serializers.ValidateRegistration: the username character and length validators, e-mail format validation, the normalisation `create_user` applies (Unicode NFKC on the username, lower-casing of the e-mail domain) and password hashing are not modelled.
- Case-insensitive matching folds ASCII letters only.
- The framework's surrogate-character validator has no counterpart: a Dafny `char` is a Unicode scalar value, so no string of the model holds a surrogate.
- Views.FindReview: ignores the `product` query parameter. In the code, `get_queryset` filters by it (api/views.py:246-248), and update and destroy look the review up in that queryset. So a PATCH or DELETE of `/reviews/5/?product=3` on a review of product 2 is a 404 in the code, while the model finds the review.
- The review listing, and the cart, wishlist, profile, user and contact-message endpoints, are plain framework CRUD and are not modelled. Their tables appear only as state kept invariant.
- Review creation is plain framework CRUD and is not modelled.
- Store.Shop.UpdateReview: a save that would break the (product, user) constraint is reported as `ReviewConflict`. In the code it surfaces as a database integrity error, because the author field is read-only and the framework adds no uniqueness validator for it.
- Store.Shop.CreateOrder: models the intended serializer, in which the item price is read-only. As declared, every order with at least one line fails (see Findings).
- Serializers.ValidateLine: models the intended serializer, in which the item price is read-only. As declared, a line without `price` is rejected and a line with one makes `create` fail (see Findings).
- Store.Shop.PlaceOrder: places the order through the intended serializer, in which the item price is read-only. As declared, every order with at least one line fails after its row is inserted (see Findings).
- Store.Shop.UpdateReview: models the intended guard, which refuses a non-author with 403. As written, a non-author's request ends in an `AttributeError` (see Findings).
- Store.Shop.DeleteReview: models the intended guard, which refuses a non-author with 403. As written, a non-author's delete ends in an `AttributeError` (see Findings).
- Store.Shop.Register: the stored user has the trimmed username and e-mail. The code stores them after `create_user`'s normalisation as well (Unicode NFKC on the username, lower-casing of the e-mail domain), so for "Bob@EXAMPLE.COM" the stored e-mail is "Bob@example.com" where the model keeps the trimmed input.
- Transactions are not modelled. `CreateOrder` is a sequence of writes with no rollback.

## Findings

| source | as written | input that shows it | evidently intended | confidence | as-written member | corrected member |
|---|---|---|---|---|---|---|
| api/serializers.py:69, api/serializers.py:87 | `OrderItemSerializer` declares `price` as an ordinary writable field. Having no default, the field is required, so every validated line carries a `price` key. `create` then passes `price=price` explicitly alongside `**item_data`, and Python raises `TypeError` for the repeated keyword. This happens after the order row is inserted, leaving an order with total 0 and no items (unless requests are atomic, which is set outside the files modelled). A line without `price` is rejected as missing a required field. | items `[{product_id: 1, size: "M", quantity: 2, price: "100.00"}, {product_id: 2, size: "L", quantity: 1, price: "50.00"}]` with products priced 100.00 and 50.00 | `price` is read-only on order items. Each item is created with its product's current price, and the total is 250.00. | not executed | Serializers.AsWrittenNeverPlacesItems | Store.Shop.CreateOrder |
| api/views.py:257 | `perform_update` raises `permissions.PermissionDenied`, but `rest_framework.permissions` defines no `PermissionDenied` (it lives in `rest_framework.exceptions`). The attribute lookup raises `AttributeError`, which the framework's exception handler does not catch, so the request fails with a server error. | a PATCH to `/reviews/<id>/` by a logged-in user who is not the review's author | the non-author is refused with 403 "You can only edit your own reviews" | not executed | Views.NonAuthorCrashesAsWritten | Store.Shop.UpdateReview |
| api/views.py:263 | `perform_destroy` raises `permissions.PermissionDenied` in the same way, so a non-author's delete fails with a server error. The review is not deleted either way. | a DELETE of `/reviews/<id>/` by a logged-in user who is not the review's author | the non-author is refused with 403 "You can only delete your own reviews" | not executed | Views.NonAuthorCrashesAsWritten | Store.Shop.DeleteReview |
