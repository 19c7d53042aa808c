/**
 * The schema invariants of the database (uniqueness, allocated keys and
 * resolving foreign keys), over a snapshot of every table, and the lemmas
 * that each change made by a request handler keeps them.
 */
module Schema {
  import opened Shared
  import opened Models
  import opened Serializers
  import opened Views

  // ----------------------------------------------------- schema invariants

  predicate UserExists(us: seq<User>, id: int) {
    exists u :: u in us && u.id == id
  }

  predicate OrderExists(os: seq<Order>, id: int) {
    exists o :: o in os && o.id == id
  }

  predicate ProductExists(ps: seq<Product>, id: int) {
    exists p :: p in ps && p.id == id
  }

  predicate CategoryExists(cs: seq<Category>, id: int) {
    exists c :: c in cs && c.id == id
  }

  /** Users have positive, allocated, distinct ids and distinct usernames. */
  ghost predicate UsersValid(us: seq<User>, nextUserId: int) {
    && 1 <= nextUserId
    && (forall i :: 0 <= i < |us| ==> 1 <= us[i].id < nextUserId)
    && (forall i, j :: 0 <= i < j < |us| ==> us[i].id != us[j].id && us[i].username != us[j].username)
  }

  /** Category names and slugs and product slugs are unique; products are held in `-id` order; every product's category exists. */
  ghost predicate CatalogValid(cs: seq<Category>, ps: seq<Product>) {
    && (forall i, j :: 0 <= i < j < |cs| ==> cs[i].id != cs[j].id && cs[i].name != cs[j].name && cs[i].slug != cs[j].slug)
    && ProductIdsUnique(ps)
    && NewestFirst(ps)
    && (forall i, j :: 0 <= i < j < |ps| ==> ps[i].slug != ps[j].slug)
    && (forall i :: 0 <= i < |ps| ==> CategoryExists(cs, ps[i].categoryId))
  }

  /** Orders and items have allocated, distinct ids; every foreign key resolves. */
  ghost predicate OrdersValid(us: seq<User>, ps: seq<Product>, os: seq<Order>, items: seq<OrderItem>, nextOrderId: int, nextItemId: int) {
    && 1 <= nextOrderId && 1 <= nextItemId
    && (forall i :: 0 <= i < |os| ==> 1 <= os[i].id < nextOrderId && UserExists(us, os[i].user))
    && (forall i, j :: 0 <= i < j < |os| ==> os[i].id != os[j].id)
    && (forall i :: 0 <= i < |items| ==>
          1 <= items[i].id < nextItemId && OrderExists(os, items[i].order) && ProductExists(ps, items[i].product))
    && (forall i, j :: 0 <= i < j < |items| ==> items[i].id != items[j].id)
  }

  /** A non-empty verification token names at most one profile. */
  predicate TokensUnique(pr: seq<Profile>) {
    forall i, j :: 0 <= i < j < |pr| && pr[i].verificationToken != "" ==>
      pr[i].verificationToken != pr[j].verificationToken
  }

  /** One profile per user (a one-to-one field), with allocated, distinct ids and unique tokens. */
  ghost predicate ProfilesValid(us: seq<User>, pr: seq<Profile>, nextProfileId: int) {
    && 1 <= nextProfileId
    && (forall i :: 0 <= i < |pr| ==> 1 <= pr[i].id < nextProfileId && UserExists(us, pr[i].user))
    && (forall i, j :: 0 <= i < j < |pr| ==> pr[i].id != pr[j].id && pr[i].user != pr[j].user)
    && TokensUnique(pr)
  }

  ghost predicate ReviewsValid(us: seq<User>, ps: seq<Product>, rs: seq<Review>) {
    && ReviewsUnique(rs) && RatingsValid(rs)
    && (forall i, j :: 0 <= i < j < |rs| ==> rs[i].id != rs[j].id)
    && (forall i :: 0 <= i < |rs| ==> ProductExists(ps, rs[i].product) && UserExists(us, rs[i].user))
  }

  ghost predicate CartValid(us: seq<User>, ps: seq<Product>, c: seq<CartItem>) {
    && CartUnique(c)
    && (forall i, j :: 0 <= i < j < |c| ==> c[i].id != c[j].id)
    && (forall i :: 0 <= i < |c| ==> ProductExists(ps, c[i].product) && UserExists(us, c[i].user))
  }

  ghost predicate WishlistValid(us: seq<User>, ps: seq<Product>, w: seq<WishlistItem>) {
    && WishlistUnique(w)
    && (forall i, j :: 0 <= i < j < |w| ==> w[i].id != w[j].id)
    && (forall i :: 0 <= i < |w| ==> ProductExists(ps, w[i].product) && UserExists(us, w[i].user))
  }

  /** The content of every table and the next value of each auto-increment key. */
  datatype Db = Db(
    users: seq<User>, nextUserId: int,
    categories: seq<Category>, products: seq<Product>,
    orders: seq<Order>, orderItems: seq<OrderItem>, nextOrderId: int, nextItemId: int,
    profiles: seq<Profile>, nextProfileId: int,
    reviews: seq<Review>, cartItems: seq<CartItem>, wishlist: seq<WishlistItem>)

  ghost predicate TablesValid(db: Db) {
    && UsersValid(db.users, db.nextUserId)
    && CatalogValid(db.categories, db.products)
    && OrdersValid(db.users, db.products, db.orders, db.orderItems, db.nextOrderId, db.nextItemId)
    && ProfilesValid(db.users, db.profiles, db.nextProfileId)
    && ReviewsValid(db.users, db.products, db.reviews)
    && CartValid(db.users, db.products, db.cartItems)
    && WishlistValid(db.users, db.products, db.wishlist)
  }

  // ------------------------------------------- order placement keeps the schema

  /** The new order and its items get fresh ids and reference existing rows. */
  lemma NewItemsKeepKeys(us: seq<User>, ps: seq<Product>, os: seq<Order>, items: seq<OrderItem>,
                         nextOrderId: int, nextItemId: int, order: Order, lines: seq<LineData>)
    requires OrdersValid(us, ps, os, items, nextOrderId, nextItemId)
    requires order.id == nextOrderId && UserExists(us, order.user)
    requires forall i :: 0 <= i < |lines| ==> lines[i].product in ps
    ensures OrdersValid(us, ps, os + [order], items + SnapshotItems(order.id, nextItemId, lines),
                        nextOrderId + 1, nextItemId + |lines|)
  {
    var added := SnapshotItems(order.id, nextItemId, lines);
    SnapshotItemsAt(order.id, nextItemId, lines);
    var all := items + added;
    var os' := os + [order];
    assert order in os';
    forall i | 0 <= i < |all|
      ensures 1 <= all[i].id < nextItemId + |lines| && OrderExists(os', all[i].order) && ProductExists(ps, all[i].product)
    {
      if i >= |items| {
        var p := lines[i - |items|].product;
        assert all[i] == added[i - |items|];
        assert p in ps;
      } else {
        var o :| o in os && o.id == all[i].order;
        assert o in os';
      }
    }
  }

  /** The tables after inserting `order` and one item row per line. */
  function WithOrder(db: Db, order: Order, lines: seq<LineData>): Db {
    db.(orders := db.orders + [order],
        orderItems := db.orderItems + SnapshotItems(order.id, db.nextItemId, lines),
        nextOrderId := db.nextOrderId + 1,
        nextItemId := db.nextItemId + |lines|)
  }

  lemma PlaceOrderKeepsTables(db: Db, order: Order, lines: seq<LineData>)
    requires TablesValid(db)
    requires order.id == db.nextOrderId && UserExists(db.users, order.user)
    requires forall i :: 0 <= i < |lines| ==> lines[i].product in db.products
    ensures TablesValid(WithOrder(db, order, lines))
  {
    NewItemsKeepKeys(db.users, db.products, db.orders, db.orderItems, db.nextOrderId, db.nextItemId, order, lines);
  }

  // ---------------------------------------------- registration keeps the schema

  /** Every reference to an existing user still resolves once another user is added. */
  lemma AddUserKeepsReferences(db: Db, u: User)
    requires TablesValid(db)
    ensures OrdersValid(db.users + [u], db.products, db.orders, db.orderItems, db.nextOrderId, db.nextItemId)
    ensures ProfilesValid(db.users + [u], db.profiles, db.nextProfileId)
    ensures ReviewsValid(db.users + [u], db.products, db.reviews)
    ensures CartValid(db.users + [u], db.products, db.cartItems)
    ensures WishlistValid(db.users + [u], db.products, db.wishlist)
  {
    forall id | UserExists(db.users, id)
      ensures UserExists(db.users + [u], id)
    {
      var x :| x in db.users && x.id == id;
      assert x in db.users + [u];
    }
  }

  /** A user whose id was never allocated has no profile. */
  lemma NewUserHasNoProfile(db: Db, id: int)
    requires TablesValid(db) && id == db.nextUserId
    ensures FindProfileOfUser(db.profiles, id).None?
  {
    forall i | 0 <= i < |db.profiles|
      ensures db.profiles[i].user != id
    {
      assert UserExists(db.users, db.profiles[i].user);
      var x :| x in db.users && x.id == db.profiles[i].user;
      var j :| 0 <= j < |db.users| && db.users[j] == x;
    }
  }

  /** A profile with a fresh id, for an existing user without one, and with an unused token keeps the profile invariant. */
  lemma AddProfileKeepsProfiles(us: seq<User>, pr: seq<Profile>, nextProfileId: int, p: Profile)
    requires ProfilesValid(us, pr, nextProfileId)
    requires p.id == nextProfileId && UserExists(us, p.user)
    requires forall i :: 0 <= i < |pr| ==> pr[i].user != p.user && pr[i].verificationToken != p.verificationToken
    ensures ProfilesValid(us, pr + [p], nextProfileId + 1)
  {
    var pr' := pr + [p];
    forall i, j | 0 <= i < j < |pr'|
      ensures pr'[i].id != pr'[j].id && pr'[i].user != pr'[j].user
      ensures pr'[i].verificationToken != "" ==> pr'[i].verificationToken != pr'[j].verificationToken
    {
      assert pr'[i] == pr[i];
      if j < |pr| {
        assert pr'[j] == pr[j];
      }
    }
  }

  /** The tables after inserting user `u` and profile `p`. */
  function WithUser(db: Db, u: User, p: Profile): Db {
    db.(users := db.users + [u], nextUserId := db.nextUserId + 1,
        profiles := db.profiles + [p], nextProfileId := db.nextProfileId + 1)
  }

  lemma RegisterKeepsTables(db: Db, u: User, p: Profile)
    requires TablesValid(db)
    requires u.id == db.nextUserId
    requires forall x :: x in db.users ==> x.username != u.username
    requires p.id == db.nextProfileId && p.user == u.id
    requires forall i :: 0 <= i < |db.profiles| ==> db.profiles[i].verificationToken != p.verificationToken
    ensures TablesValid(WithUser(db, u, p))
  {
    AddUserKeepsReferences(db, u);
    NewUserHasNoProfile(db, u.id);
    var us' := db.users + [u];
    assert u in us';
    AddProfileKeepsProfiles(us', db.profiles, db.nextProfileId, p);
    forall i, j | 0 <= i < j < |us'|
      ensures us'[i].id != us'[j].id && us'[i].username != us'[j].username
    {
      assert us'[i] == db.users[i] && us'[i] in db.users;
    }
  }

  // ------------------------------------------ verification keeps the schema

  /** The tables after profile `k` is marked verified and its token cleared. */
  function WithVerified(db: Db, k: nat): Db
    requires k < |db.profiles|
  {
    db.(profiles := db.profiles[k := db.profiles[k].(isVerified := true, verificationToken := "")])
  }

  /** Once a profile's token is cleared, no profile holds that token any more. */
  lemma ClearedTokenUnused(pr: seq<Profile>, k: nat)
    requires TokensUnique(pr) && k < |pr| && pr[k].verificationToken != ""
    ensures FindProfileByToken(pr[k := pr[k].(isVerified := true, verificationToken := "")], pr[k].verificationToken).None?
  {
    var pr' := pr[k := pr[k].(isVerified := true, verificationToken := "")];
    forall i | 0 <= i < |pr'|
      ensures pr'[i].verificationToken != pr[k].verificationToken
    {
      if i < k {
        assert pr[i].verificationToken != "" ==> pr[i].verificationToken != pr[k].verificationToken;
      }
    }
  }

  lemma VerifyKeepsTables(db: Db, k: nat)
    requires TablesValid(db) && k < |db.profiles|
    ensures TablesValid(WithVerified(db, k))
  {
  }

  // -------------------------------------------- payment keeps the schema

  /** The tables after order `k` gets `status`. */
  function WithStatus(db: Db, k: nat, status: OrderStatus): Db
    requires k < |db.orders|
  {
    db.(orders := db.orders[k := db.orders[k].(status := status)])
  }

  /** Changing an order's status touches no key, so the order invariants survive it. */
  lemma StatusChangeKeepsTables(db: Db, k: nat, status: OrderStatus)
    requires TablesValid(db) && k < |db.orders|
    ensures TablesValid(WithStatus(db, k, status))
  {
    var os := db.orders;
    var os' := os[k := os[k].(status := status)];
    forall i | 0 <= i < |db.orderItems|
      ensures OrderExists(os', db.orderItems[i].order)
    {
      var o :| o in os && o.id == db.orderItems[i].order;
      var j :| 0 <= j < |os| && os[j] == o;
      assert os'[j].id == o.id;
    }
  }

  // ---------------------------------------------- reviews keep the schema

  /** Another review than the one at `k` already holds the (product, user) key of `r`. */
  predicate KeyTakenByOther(rs: seq<Review>, k: nat, r: Review) {
    exists j :: 0 <= j < |rs| && j != k && rs[j].product == r.product && rs[j].user == r.user
  }

  /** The tables after review `k` is replaced by `updated`. */
  function WithReview(db: Db, k: nat, updated: Review): Db
    requires k < |db.reviews|
  {
    db.(reviews := db.reviews[k := updated])
  }

  lemma ReviewUpdateKeepsTables(db: Db, k: nat, updated: Review)
    requires TablesValid(db) && k < |db.reviews|
    requires updated.id == db.reviews[k].id && updated.user == db.reviews[k].user
    requires IsRating(updated.rating) && ProductExists(db.products, updated.product)
    requires !KeyTakenByOther(db.reviews, k, updated)
    ensures TablesValid(WithReview(db, k, updated))
  {
    var rs := db.reviews;
    var rs' := rs[k := updated];
    forall i, j | 0 <= i < j < |rs'|
      ensures (rs'[i].product, rs'[i].user) != (rs'[j].product, rs'[j].user)
    {
      if i == k {
        assert !(rs[j].product == updated.product && rs[j].user == updated.user);
      } else if j == k {
        assert !(rs[i].product == updated.product && rs[i].user == updated.user);
      }
    }
    assert ReviewsValid(db.users, db.products, rs');
    OtherTablesUnchanged(db, rs');
  }

  /** The tables after review `k` is deleted. */
  function WithoutReview(db: Db, k: nat): Db
    requires k < |db.reviews|
  {
    db.(reviews := RemoveAt(db.reviews, k))
  }

  lemma ReviewRemovalKeepsTables(db: Db, k: nat)
    requires TablesValid(db) && k < |db.reviews|
    ensures TablesValid(WithoutReview(db, k))
  {
    RemovalKeepsReviewsValid(db.users, db.products, db.reviews, k);
    OtherTablesUnchanged(db, RemoveAt(db.reviews, k));
  }

  /** Deleting one review keeps the review table's keys unique and its foreign keys resolved. */
  lemma RemovalKeepsReviewsValid(us: seq<User>, ps: seq<Product>, rs: seq<Review>, k: nat)
    requires ReviewsValid(us, ps, rs) && k < |rs|
    ensures ReviewsValid(us, ps, RemoveAt(rs, k))
  {
    var rs' := RemoveAt(rs, k);
    RemoveReviewKeepsConstraints(rs, k);
    forall i, j | 0 <= i < j < |rs'|
      ensures rs'[i].id != rs'[j].id
    {
      var i' := if i < k then i else i + 1;
      var j' := if j < k then j else j + 1;
      assert rs'[i] == rs[i'] && rs'[j] == rs[j'] && i' < j';
    }
    forall i | 0 <= i < |rs'|
      ensures ProductExists(ps, rs'[i].product) && UserExists(us, rs'[i].user)
    {
      assert rs'[i] == rs[if i < k then i else i + 1];
    }
  }

  /** Replacing the review table by a valid one leaves every other table's invariant in place. */
  lemma OtherTablesUnchanged(db: Db, rs: seq<Review>)
    requires TablesValid(db) && ReviewsValid(db.users, db.products, rs)
    ensures TablesValid(db.(reviews := rs))
  {
  }
}
