/**
 * The shop's relational schema: one record per table row, the enumerated
 * choices, the field defaults, the two stock properties of a product and
 * the uniqueness constraints, stated as predicates over a table (a sequence
 * of rows). Prices are integer cents (two decimal places).
 */
module Models {
  import opened Shared

  // ---------------------------------------------------------------- users

  /** The framework's user: only the fields the shop logic reads. */
  datatype User = User(id: int, username: string, email: string, isStaff: bool)

  // ------------------------------------------------------------- catalog

  datatype Category = Category(id: int, name: string, slug: string)

  datatype Product = Product(
    id: int,
    title: string,
    slug: string,
    categoryId: int,
    price: int,               // cents
    description: string,
    isFeatured: bool,
    stockQuantity: int,       // a plain integer field: may be negative
    lowStockThreshold: int)

  const DefaultLowStockThreshold := 5

  /** The product table's default ordering, `-id`: newest first. */
  predicate NewestFirst(ps: seq<Product>) {
    forall i, j :: 0 <= i < j < |ps| ==> ps[i].id > ps[j].id
  }

  /** A product row created with only its required fields given. */
  function NewProduct(id: int, title: string, slug: string, categoryId: int, price: int): (p: Product)
    ensures p.id == id && p.title == title && p.slug == slug
    ensures p.categoryId == categoryId && p.price == price
    ensures p.description == "" && !p.isFeatured
    ensures p.stockQuantity == 0 && p.lowStockThreshold == DefaultLowStockThreshold
  {
    Product(id, title, slug, categoryId, price, "", false, 0, DefaultLowStockThreshold)
  }

  /** `Product.is_in_stock`. */
  predicate IsInStock(p: Product) {
    p.stockQuantity > 0
  }

  /** `Product.is_low_stock` (a chained comparison). */
  predicate IsLowStock(p: Product) {
    0 < p.stockQuantity && p.stockQuantity <= p.lowStockThreshold
  }

  lemma LowStockIsInStock(p: Product)
    ensures IsLowStock(p) ==> IsInStock(p)
  {
  }

  lemma NoStockIsNeither(p: Product)
    requires p.stockQuantity <= 0
    ensures !IsInStock(p) && !IsLowStock(p)
  {
  }

  lemma NonPositiveThresholdNeverLow(p: Product)
    requires p.lowStockThreshold <= 0
    ensures !IsLowStock(p)
  {
  }

  /** A freshly created product is out of stock, hence not low on stock either. */
  lemma NewProductOutOfStock(id: int, title: string, slug: string, categoryId: int, price: int)
    ensures !IsInStock(NewProduct(id, title, slug, categoryId, price))
    ensures !IsLowStock(NewProduct(id, title, slug, categoryId, price))
  {
  }

  // -------------------------------------------------------------- choices

  datatype OrderStatus = Pending | Processing | Shipped | Delivered | Canceled

  /** The stored codes of `Order.STATUS_CHOICES`, in declaration order. */
  const StatusChoices: seq<string> := ["pending", "processing", "shipped", "delivered", "canceled"]

  function StatusCode(s: OrderStatus): string {
    match s
    case Pending => "pending"
    case Processing => "processing"
    case Shipped => "shipped"
    case Delivered => "delivered"
    case Canceled => "canceled"
  }

  /** The choice validation of the status field: a code is accepted only if it is one of the five. */
  function ParseStatus(code: string): (r: Option<OrderStatus>)
    ensures r.Some? <==> code in StatusChoices
    ensures r.Some? ==> StatusCode(r.value) == code
  {
    if code == "pending" then Some(Pending)
    else if code == "processing" then Some(Processing)
    else if code == "shipped" then Some(Shipped)
    else if code == "delivered" then Some(Delivered)
    else if code == "canceled" then Some(Canceled)
    else None
  }

  lemma StatusRoundTrip(s: OrderStatus)
    ensures StatusCode(s) in StatusChoices
    ensures ParseStatus(StatusCode(s)) == Some(s)
  {
  }

  datatype Size = S | M | L | XL

  /** The stored codes of `SIZE_CHOICES` (the same list for cart and order items). */
  const SizeChoices: seq<string> := ["S", "M", "L", "XL"]

  const DefaultSize := M

  function SizeCode(s: Size): string {
    match s
    case S => "S"
    case M => "M"
    case L => "L"
    case XL => "XL"
  }

  function ParseSize(code: string): (r: Option<Size>)
    ensures r.Some? <==> code in SizeChoices
    ensures r.Some? ==> SizeCode(r.value) == code
  {
    if code == "S" then Some(S)
    else if code == "M" then Some(M)
    else if code == "L" then Some(L)
    else if code == "XL" then Some(XL)
    else None
  }

  lemma SizeRoundTrip(s: Size)
    ensures SizeCode(s) in SizeChoices
    ensures ParseSize(SizeCode(s)) == Some(s)
  {
  }

  /** Python's `range(lo, hi)`. */
  function Range(lo: int, hi: int): (r: seq<int>)
    decreases hi - lo
    ensures |r| == if lo < hi then hi - lo else 0
    ensures forall i :: 0 <= i < |r| ==> r[i] == lo + i
  {
    if lo >= hi then [] else [lo] + Range(lo + 1, hi)
  }

  /** The rating choices `[(i, i) for i in range(1, 6)]`, as their values. */
  function RatingChoices(): seq<int> {
    Range(1, 6)
  }

  predicate IsRating(r: int) {
    r in RatingChoices()
  }

  lemma RatingChoicesAreOneToFive(r: int)
    ensures IsRating(r) <==> 1 <= r <= 5
  {
    var cs := RatingChoices();
    if 1 <= r <= 5 {
      assert cs[r - 1] == r;
    }
  }

  // --------------------------------------------------------------- orders

  datatype Shipping = Shipping(name: string, phone: string, address: string, city: string, state: string, pincode: string)

  /** Every shipping field is declared `blank=True` and defaults to the empty string. */
  const BlankShipping := Shipping("", "", "", "", "", "")

  const DefaultPaymentMethod := "UPI"

  datatype Order = Order(
    id: int,
    user: int,
    status: OrderStatus,
    totalAmount: int,         // cents
    shipping: Shipping,
    paymentMethod: string,
    paymentVerified: bool)

  /** The row `Order.objects.create(user=..., status=...)` inserts: every other field at its default. */
  function NewOrder(id: int, user: int, status: OrderStatus): (o: Order)
    ensures o.id == id && o.user == user && o.status == status
    ensures o.totalAmount == 0 && !o.paymentVerified
    ensures o.shipping == BlankShipping && o.paymentMethod == DefaultPaymentMethod
  {
    Order(id, user, status, 0, BlankShipping, DefaultPaymentMethod, false)
  }

  datatype OrderItem = OrderItem(id: int, order: int, product: int, size: Size, quantity: nat, price: int)

  const DefaultQuantity: nat := 1

  // ----------------------------------------------------------------- cart

  datatype CartItem = CartItem(id: int, user: int, product: int, size: Size, quantity: nat)

  function NewCartItem(id: int, user: int, product: int): (c: CartItem)
    ensures c.id == id && c.user == user && c.product == product
    ensures c.size == DefaultSize && SizeCode(c.size) == "M"
    ensures c.quantity == DefaultQuantity && c.quantity == 1
  {
    CartItem(id, user, product, DefaultSize, DefaultQuantity)
  }

  // ------------------------------------------------------- profile, review

  datatype Profile = Profile(id: int, user: int, phone: string, address: string, isVerified: bool, verificationToken: string)

  function NewProfile(id: int, user: int): (p: Profile)
    ensures p.id == id && p.user == user
    ensures p.phone == "" && p.address == ""
    ensures !p.isVerified && p.verificationToken == ""
  {
    Profile(id, user, "", "", false, "")
  }

  datatype Review = Review(id: int, product: int, user: int, rating: int, comment: string, verifiedPurchase: bool)

  datatype WishlistItem = WishlistItem(id: int, user: int, product: int)

  // ----------------------------------------------- uniqueness constraints

  /** `unique_together = ("user", "product", "size")` on the cart. */
  predicate CartUnique(c: seq<CartItem>) {
    forall i, j :: 0 <= i < j < |c| ==>
      (c[i].user, c[i].product, c[i].size) != (c[j].user, c[j].product, c[j].size)
  }

  /** `unique_together = ("product", "user")` on reviews. */
  predicate ReviewsUnique(rs: seq<Review>) {
    forall i, j :: 0 <= i < j < |rs| ==> (rs[i].product, rs[i].user) != (rs[j].product, rs[j].user)
  }

  /** `unique_together = ("user", "product")` on the wishlist. */
  predicate WishlistUnique(w: seq<WishlistItem>) {
    forall i, j :: 0 <= i < j < |w| ==> (w[i].user, w[i].product) != (w[j].user, w[j].product)
  }

  /** Every stored rating is one of the declared choices. */
  predicate RatingsValid(rs: seq<Review>) {
    forall i :: 0 <= i < |rs| ==> IsRating(rs[i].rating)
  }

  /**
   * Adding a row with the declared defaults keeps the cart constraint exactly
   * when the user holds no size-M row of that product yet.
   */
  lemma NewCartItemKeepsCartUnique(c: seq<CartItem>, id: int, user: int, product: int)
    requires CartUnique(c)
    ensures CartUnique(c + [NewCartItem(id, user, product)]) <==>
      forall i :: 0 <= i < |c| ==> !(c[i].user == user && c[i].product == product && c[i].size == DefaultSize)
  {
    var c' := c + [NewCartItem(id, user, product)];
    if !CartUnique(c') {
      var i, j :| 0 <= i < j < |c'| && (c'[i].user, c'[i].product, c'[i].size) == (c'[j].user, c'[j].product, c'[j].size);
      assert j == |c|;
    }
    if exists i :: 0 <= i < |c| && c[i].user == user && c[i].product == product && c[i].size == DefaultSize {
      var i :| 0 <= i < |c| && c[i].user == user && c[i].product == product && c[i].size == DefaultSize;
      assert c'[i] == c[i] && c'[|c|] == NewCartItem(id, user, product);
    }
  }

  /** The positions of the cart rows with key (user, product, size). */
  function CartRowsWithKey(c: seq<CartItem>, user: int, product: int, size: Size): set<nat> {
    set i: nat | i < |c| && c[i].user == user && c[i].product == product && c[i].size == size
  }

  function ReviewRowsWithKey(rs: seq<Review>, product: int, user: int): set<nat> {
    set i: nat | i < |rs| && rs[i].product == product && rs[i].user == user
  }

  function WishlistRowsWithKey(w: seq<WishlistItem>, user: int, product: int): set<nat> {
    set i: nat | i < |w| && w[i].user == user && w[i].product == product
  }

  /** Under the cart constraint every (user, product, size) key names at most one row. */
  lemma CartAtMostOneRow(c: seq<CartItem>, user: int, product: int, size: Size)
    requires CartUnique(c)
    ensures |CartRowsWithKey(c, user, product, size)| <= 1
  {
    var rows := CartRowsWithKey(c, user, product, size);
    if rows != {} {
      var i :| i in rows;
      assert rows == {i};
    }
  }

  lemma ReviewAtMostOneRow(rs: seq<Review>, product: int, user: int)
    requires ReviewsUnique(rs)
    ensures |ReviewRowsWithKey(rs, product, user)| <= 1
  {
    var rows := ReviewRowsWithKey(rs, product, user);
    if rows != {} {
      var i :| i in rows;
      assert rows == {i};
    }
  }

  lemma WishlistAtMostOneRow(w: seq<WishlistItem>, user: int, product: int)
    requires WishlistUnique(w)
    ensures |WishlistRowsWithKey(w, user, product)| <= 1
  {
    var rows := WishlistRowsWithKey(w, user, product);
    if rows != {} {
      var i :| i in rows;
      assert rows == {i};
    }
  }

  /** Deleting a review row keeps the (product, user) constraint and the rating choices. */
  lemma RemoveReviewKeepsConstraints(rs: seq<Review>, k: nat)
    requires k < |rs| && ReviewsUnique(rs) && RatingsValid(rs)
    ensures ReviewsUnique(RemoveAt(rs, k)) && RatingsValid(RemoveAt(rs, k))
  {
    var r := RemoveAt(rs, k);
    forall i, j | 0 <= i < j < |r|
      ensures (r[i].product, r[i].user) != (r[j].product, r[j].user)
    {
      var i' := if i < k then i else i + 1;
      var j' := if j < k then j else j + 1;
      assert r[i] == rs[i'] && r[j] == rs[j'] && i' < j';
    }
  }
}
