/**
 * The database as one object holding every table, the schema invariants it
 * keeps, and the request handlers that change it: order placement, user
 * registration, email verification, payment confirmation and the owner-only
 * update and deletion of reviews.
 */
module Store {
  import opened Shared
  import opened Models
  import opened Serializers
  import opened Views
  import opened Schema

  // ---------------------------------------------------- handler outcomes

  datatype VerifyOutcome = TokenRequired | AlreadyVerified | EmailVerified | InvalidToken

  /** The payment gateway's answer to a signature check, which the model does not compute. */
  datatype SignatureVerdict = SignatureValid | SignatureInvalid | GatewayFault(message: string)

  datatype PaymentOutcome = PaymentVerified | OrderIdMissing | OrderNotFound | SignatureFailed | PaymentError(message: string)

  datatype ReviewOutcome =
    | ReviewNotFound
    | ReviewInvalid(error: ReviewError)
    | PermissionDenied
    | ReviewConflict
    | ReviewUpdated(review: Review)
    | ReviewDeleted

  datatype RegisterOutcome = RegisterRejected(error: RegisterError) | Registered(user: User)

  /** `if order_id:`: an absent id and the id 0 are both falsy. */
  predicate OrderIdGiven(orderId: Option<int>) {
    orderId.Some? && orderId.value != 0
  }

  // --------------------------------------------------------------- the store

  class Shop {
    var users: seq<User>
    var categories: seq<Category>
    var products: seq<Product>
    var orders: seq<Order>
    var orderItems: seq<OrderItem>
    var profiles: seq<Profile>
    var cartItems: seq<CartItem>
    var reviews: seq<Review>
    var wishlist: seq<WishlistItem>
    // the next value of each auto-increment primary key
    var nextUserId: int
    var nextOrderId: int
    var nextItemId: int
    var nextProfileId: int

    ghost function State(): Db
      reads this
    {
      Db(users, nextUserId, categories, products, orders, orderItems, nextOrderId, nextItemId,
         profiles, nextProfileId, reviews, cartItems, wishlist)
    }

    ghost predicate Valid()
      reads this
    {
      TablesValid(State())
    }

    /** A store loaded with consistent tables. */
    constructor (db: Db)
      requires TablesValid(db)
      ensures Valid() && State() == db
    {
      users, nextUserId := db.users, db.nextUserId;
      categories, products := db.categories, db.products;
      orders, orderItems, nextOrderId, nextItemId := db.orders, db.orderItems, db.nextOrderId, db.nextItemId;
      profiles, nextProfileId := db.profiles, db.nextProfileId;
      reviews, cartItems, wishlist := db.reviews, db.cartItems, db.wishlist;
    }

    // ------------------------------------------------------------ orders

    /**
     * `OrderSerializer.create` on validated data (with the item price treated
     * as read-only): insert the order, insert one item per line with the
     * product's price copied onto it while accumulating the total, then store
     * the total on the order.
     */
    method CreateOrder(user: int, data: OrderData) returns (order: Order)
      modifies this`orders, this`orderItems, this`nextOrderId, this`nextItemId
      ensures State() == WithOrder(old(State()), order, data.items)
      ensures order.id == old(nextOrderId) && order.user == user
      ensures order.status == if data.status.Some? then data.status.value else Pending
      ensures order.totalAmount == LinesTotal(data.items)
      ensures !order.paymentVerified && order.shipping == BlankShipping && order.paymentMethod == DefaultPaymentMethod
      ensures orders == old(orders) + [order]
      ensures orderItems == old(orderItems) + SnapshotItems(order.id, old(nextItemId), data.items)
      ensures nextOrderId == old(nextOrderId) + 1 && nextItemId == old(nextItemId) + |data.items|
    {
      order := NewOrder(nextOrderId, user, if data.status.Some? then data.status.value else Pending);
      nextOrderId := nextOrderId + 1;
      orders := orders + [order];
      var total := InsertItems(order.id, data.items);
      order := order.(totalAmount := total);
      orders := orders[|orders| - 1 := order];
      assert orders == old(orders) + [order];
      assert State() == WithOrder(old(State()), order, data.items);
    }

    /**
     * The loop of `OrderSerializer.create`: one item row per line, priced at
     * the product's current price, and the running total of price times quantity.
     */
    method InsertItems(orderId: int, lines: seq<LineData>) returns (total: int)
      modifies this`orderItems, this`nextItemId
      ensures orderItems == old(orderItems) + SnapshotItems(orderId, old(nextItemId), lines)
      ensures nextItemId == old(nextItemId) + |lines|
      ensures total == LinesTotal(lines)
    {
      total := 0;
      var k := 0;
      while k < |lines|
        invariant 0 <= k <= |lines|
        invariant nextItemId == old(nextItemId) + k
        invariant orderItems == old(orderItems) + SnapshotItems(orderId, old(nextItemId), lines[..k])
        invariant total == LinesTotal(lines[..k])
      {
        var line := lines[k];
        var product := line.product;
        var price := product.price;
        var item := OrderItem(nextItemId, orderId, product.id, line.size, LineQuantity(line), price);
        orderItems := orderItems + [item];
        nextItemId := nextItemId + 1;
        total := total + price * LineQuantity(line);
        assert lines[..k + 1][..k] == lines[..k];
        k := k + 1;
      }
      assert lines[..k] == lines;
    }

    /**
     * The create endpoint (`OrderViewSet.perform_create`): validate the
     * payload, then create the order owned by the requester.
     */
    method PlaceOrder(requester: User, req: OrderRequest) returns (r: Result<Order, OrderError>)
      requires Valid() && requester in users
      modifies this`orders, this`orderItems, this`nextOrderId, this`nextItemId
      ensures Valid()
      ensures r.Err? <==> ValidateOrder(products, req).Err?
      ensures r.Err? ==> r.error == ValidateOrder(products, req).error
      ensures r.Err? ==> orders == old(orders) && orderItems == old(orderItems)
      ensures r.Err? ==> nextOrderId == old(nextOrderId) && nextItemId == old(nextItemId)
      ensures r.Ok? ==>
        var d := ValidateOrder(products, req).value;
        && r.value.user == requester.id && r.value.id == old(nextOrderId)
        && r.value.status == (if d.status.Some? then d.status.value else Pending)
        && r.value.totalAmount == LinesTotal(d.items)
        && !r.value.paymentVerified && r.value.shipping == BlankShipping && r.value.paymentMethod == DefaultPaymentMethod
        && orders == old(orders) + [r.value]
        && orderItems == old(orderItems) + SnapshotItems(r.value.id, old(nextItemId), d.items)
        && nextOrderId == old(nextOrderId) + 1 && nextItemId == old(nextItemId) + |d.items|
    {
      match ValidateOrder(products, req)
      case Err(e) =>
        r := Err(e);
      case Ok(d) =>
        var order := CreateOrder(requester.id, d);
        assert requester.id == order.user && requester in old(users);
        PlaceOrderKeepsTables(old(State()), order, d.items);
        r := Ok(order);
    }

    // ------------------------------------------------------ registration

    /**
     * `RegisterView.post`: validate, create the user, then give the user's
     * profile (created here) the freshly generated verification token.
     */
    method Register(req: RegisterRequest, token: string) returns (r: RegisterOutcome)
      requires Valid()
      requires token != ""
      requires forall i :: 0 <= i < |profiles| ==> profiles[i].verificationToken != token
      modifies this`users, this`profiles, this`nextUserId, this`nextProfileId
      ensures Valid()
      ensures r.RegisterRejected? <==> ValidateRegistration(old(users), req).Some?
      ensures r.RegisterRejected? ==> Some(r.error) == ValidateRegistration(old(users), req)
      ensures r.RegisterRejected? ==> users == old(users) && profiles == old(profiles)
      ensures r.RegisterRejected? ==> nextUserId == old(nextUserId) && nextProfileId == old(nextProfileId)
      ensures r.Registered? ==>
        && r.user == User(old(nextUserId), Strip(req.username.value), Strip(req.email.value), false)
        && users == old(users) + [r.user]
        && profiles == old(profiles) + [NewProfile(old(nextProfileId), r.user.id).(verificationToken := token)]
        && nextUserId == old(nextUserId) + 1 && nextProfileId == old(nextProfileId) + 1
    {
      var invalid := ValidateRegistration(users, req);
      if invalid.Some? {
        r := RegisterRejected(invalid.value);
        return;
      }
      NewUserHasNoProfile(State(), nextUserId);
      var user, profile := CreateUser(Strip(req.username.value), Strip(req.email.value), token);
      RegisterKeepsTables(old(State()), user, profile);
      r := Registered(user);
    }

    /** The write half of registration: the user row, then its profile saved with the token. */
    method CreateUser(username: string, email: string, token: string) returns (user: User, profile: Profile)
      requires FindProfileOfUser(profiles, nextUserId).None?
      modifies this`users, this`profiles, this`nextUserId, this`nextProfileId
      ensures user == User(old(nextUserId), username, email, false)
      ensures profile == NewProfile(old(nextProfileId), user.id).(verificationToken := token)
      ensures users == old(users) + [user] && profiles == old(profiles) + [profile]
      ensures nextUserId == old(nextUserId) + 1 && nextProfileId == old(nextProfileId) + 1
      ensures State() == WithUser(old(State()), user, profile)
    {
      user := User(nextUserId, username, email, false);
      users := users + [user];
      nextUserId := nextUserId + 1;
      // a brand-new user has no profile yet, so `get_or_create` inserts a blank one ...
      var k := GetOrCreateProfile(user.id);
      // ... which is then saved with the token
      profile := profiles[k].(verificationToken := token);
      profiles := profiles[k := profile];
      assert profiles == old(profiles) + [profile];
    }

    /** `Profile.objects.get_or_create(user=user)`: the position of the user's profile, inserted blank when missing. */
    method GetOrCreateProfile(user: int) returns (k: nat)
      modifies this`profiles, this`nextProfileId
      ensures k < |profiles|
      ensures FindProfileOfUser(old(profiles), user).Some? ==>
        && k == FindProfileOfUser(old(profiles), user).value
        && profiles == old(profiles) && nextProfileId == old(nextProfileId)
      ensures FindProfileOfUser(old(profiles), user).None? ==>
        && k == |old(profiles)|
        && profiles == old(profiles) + [NewProfile(old(nextProfileId), user)]
        && nextProfileId == old(nextProfileId) + 1
    {
      var found := FindProfileOfUser(profiles, user);
      if found.Some? {
        return found.value;
      }
      k := |profiles|;
      profiles := profiles + [NewProfile(nextProfileId, user)];
      nextProfileId := nextProfileId + 1;
    }

    // -------------------------------------------------- email verification

    /** `VerifyEmailView.get`. */
    method VerifyEmail(token: Option<string>) returns (r: VerifyOutcome)
      requires Valid()
      modifies this`profiles
      ensures Valid()
      ensures r == TokenRequired <==> !Truthy(token)
      ensures Truthy(token) ==>
        var found := FindProfileByToken(old(profiles), token.value);
        && (r == InvalidToken <==> found.None?)
        && (r == AlreadyVerified <==> found.Some? && old(profiles)[found.value].isVerified)
        && (r == EmailVerified <==> found.Some? && !old(profiles)[found.value].isVerified)
      ensures r != EmailVerified ==> profiles == old(profiles)
      ensures r == EmailVerified ==>
        && Truthy(token)
        && var k := FindProfileByToken(old(profiles), token.value).value;
           profiles == old(profiles)[k := old(profiles)[k].(isVerified := true, verificationToken := "")]
      ensures r == EmailVerified ==> FindProfileByToken(profiles, token.value).None?
    {
      if !Truthy(token) {
        return TokenRequired;
      }
      var found := FindProfileByToken(profiles, token.value);
      if found.None? {
        return InvalidToken;
      }
      var k := found.value;
      if profiles[k].isVerified {
        return AlreadyVerified;
      }
      ClearedTokenUnused(profiles, k);
      profiles := profiles[k := profiles[k].(isVerified := true, verificationToken := "")];
      VerifyKeepsTables(old(State()), k);
      assert State() == WithVerified(old(State()), k);
      r := EmailVerified;
    }

    // ------------------------------------------------ payment confirmation

    /**
     * `RazorpayVerifyView.post`: once the gateway accepts the signature, the
     * requester's order is marked `processing`; `payment_verified` is never set.
     */
    method ConfirmPayment(requester: User, orderId: Option<int>, verdict: SignatureVerdict) returns (r: PaymentOutcome)
      requires Valid()
      modifies this`orders
      ensures Valid()
      ensures verdict == SignatureInvalid ==> r == SignatureFailed
      ensures verdict.GatewayFault? ==> r == PaymentError(verdict.message)
      ensures verdict == SignatureValid && !OrderIdGiven(orderId) ==> r == OrderIdMissing
      ensures r == OrderNotFound <==>
        verdict == SignatureValid && OrderIdGiven(orderId) && FindOwnedOrder(old(orders), orderId.value, requester.id).None?
      ensures r == PaymentVerified <==>
        verdict == SignatureValid && OrderIdGiven(orderId) && FindOwnedOrder(old(orders), orderId.value, requester.id).Some?
      ensures r != PaymentVerified ==> orders == old(orders)
      ensures r == PaymentVerified ==>
        && OrderIdGiven(orderId)
        && var k := FindOwnedOrder(old(orders), orderId.value, requester.id).value;
           orders == old(orders)[k := old(orders)[k].(status := Processing)]
      ensures r == PaymentVerified ==>
        && OrderIdGiven(orderId)
        && var k := FindOwnedOrder(old(orders), orderId.value, requester.id).value;
           FindOwnedOrder(orders, orderId.value, requester.id) == Some(k) && orders[k].status == Processing
      ensures |orders| == |old(orders)|
      ensures forall i :: 0 <= i < |orders| ==> orders[i].paymentVerified == old(orders)[i].paymentVerified
    {
      match verdict
      case SignatureInvalid =>
        r := SignatureFailed;
      case GatewayFault(message) =>
        r := PaymentError(message);
      case SignatureValid =>
        if !OrderIdGiven(orderId) {
          r := OrderIdMissing;
        } else {
          var found := FindOwnedOrder(orders, orderId.value, requester.id);
          if found.None? {
            r := OrderNotFound;
          } else {
            var k := found.value;
            FindOwnedOrderIgnoresStatus(orders, k, Processing, orderId.value, requester.id);
            orders := orders[k := orders[k].(status := Processing)];
            StatusChangeKeepsTables(old(State()), k, Processing);
            assert State() == WithStatus(old(State()), k, Processing);
            r := PaymentVerified;
          }
        }
    }

    // ------------------------------------------------------------ reviews

    /**
     * A review update: look the review up, validate the payload, refuse a
     * requester who is not the author (`perform_update`), and save unless the
     * new (product, user) pair is already taken by another review.
     */
    method UpdateReview(requester: User, reviewId: int, patch: ReviewPatch, partial: bool) returns (r: ReviewOutcome)
      requires Valid()
      modifies this`reviews
      ensures Valid()
      ensures !r.ReviewUpdated? ==> reviews == old(reviews)
      ensures
        var found := FindReview(old(reviews), reviewId);
        var invalid := ValidateReviewPatch(products, patch, partial);
        && (found.None? ==> r == ReviewNotFound)
        && (found.Some? && invalid.Some? ==> r == ReviewInvalid(invalid.value))
        && (found.Some? && invalid.None? && old(reviews)[found.value].user != requester.id ==> r == PermissionDenied)
        && (found.Some? && invalid.None? && old(reviews)[found.value].user == requester.id ==>
              var updated := ApplyReviewPatch(old(reviews)[found.value], patch);
              if KeyTakenByOther(old(reviews), found.value, updated) then r == ReviewConflict
              else r == ReviewUpdated(updated) && reviews == old(reviews)[found.value := updated])
    {
      var found := FindReview(reviews, reviewId);
      if found.None? {
        return ReviewNotFound;
      }
      var k := found.value;
      var invalid := ValidateReviewPatch(products, patch, partial);
      if invalid.Some? {
        return ReviewInvalid(invalid.value);
      }
      if OwnerGuard(reviews[k].user, requester.id) != GuardPasses {
        return PermissionDenied;
      }
      var updated := ApplyReviewPatch(reviews[k], patch);
      if KeyTakenByOther(reviews, k, updated) {
        return ReviewConflict;
      }
      RatingChoicesAreOneToFive(updated.rating);
      assert ProductExists(products, updated.product) by {
        if patch.product.Some? {
          assert FindProduct(products, updated.product).value in products;
        } else {
          assert reviews[k] in reviews;
        }
      }
      reviews := reviews[k := updated];
      ReviewUpdateKeepsTables(old(State()), k, updated);
      assert State() == WithReview(old(State()), k, updated);
      r := ReviewUpdated(updated);
    }

    /** A review deletion: only the author may delete (`perform_destroy`). */
    method DeleteReview(requester: User, reviewId: int) returns (r: ReviewOutcome)
      requires Valid()
      modifies this`reviews
      ensures Valid()
      ensures r != ReviewDeleted ==> reviews == old(reviews)
      ensures
        var found := FindReview(old(reviews), reviewId);
        && (found.None? ==> r == ReviewNotFound)
        && (found.Some? && old(reviews)[found.value].user != requester.id ==> r == PermissionDenied)
        && (found.Some? && old(reviews)[found.value].user == requester.id ==>
              && r == ReviewDeleted
              && reviews == RemoveAt(old(reviews), found.value)
              && forall p :: ReviewCount(reviews, p) ==
                   ReviewCount(old(reviews), p) - (if old(reviews)[found.value].product == p then 1 else 0))
    {
      var found := FindReview(reviews, reviewId);
      if found.None? {
        return ReviewNotFound;
      }
      var k := found.value;
      if OwnerGuard(reviews[k].user, requester.id) != GuardPasses {
        return PermissionDenied;
      }
      forall p
        ensures ReviewCount(RemoveAt(reviews, k), p) == ReviewCount(reviews, p) - (if reviews[k].product == p then 1 else 0)
      {
        ReviewCountAfterRemove(reviews, k, p);
      }
      reviews := RemoveAt(reviews, k);
      ReviewRemovalKeepsTables(old(State()), k);
      assert State() == WithoutReview(old(State()), k);
      r := ReviewDeleted;
    }
  }
}
