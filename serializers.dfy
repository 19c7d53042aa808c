/**
 * The serializer layer: validation of order, review and registration
 * payloads, the specification of order placement (one snapshotted item per
 * line and the accumulated total), and the `review_count` field.
 */
module Serializers {
  import opened Shared
  import opened Models

  // ---------------------------------------------------------- lookups

  /** The primary-key lookup a related field performs against `Product.objects.all()`. */
  function FindProduct(ps: seq<Product>, id: int): (r: Option<Product>)
    ensures r.Some? ==> r.value in ps && r.value.id == id
    ensures r.None? <==> forall p :: p in ps ==> p.id != id
  {
    if ps == [] then None
    else if ps[0].id == id then Some(ps[0])
    else FindProduct(ps[1..], id)
  }

  /** The primary key is unique in the product table. */
  predicate ProductIdsUnique(ps: seq<Product>) {
    forall i, j :: 0 <= i < j < |ps| ==> ps[i].id != ps[j].id
  }

  lemma FindProductFindsRow(ps: seq<Product>, p: Product)
    requires ProductIdsUnique(ps) && p in ps
    ensures FindProduct(ps, p.id) == Some(p)
  {
    var q := FindProduct(ps, p.id).value;
    var i :| 0 <= i < |ps| && ps[i] == p;
    var j :| 0 <= j < |ps| && ps[j] == q;
  }

  // --------------------------------------------------- order payloads

  /** One element of the `items` list of an order payload, as the client sends it. */
  datatype LineRequest = LineRequest(productId: Option<int>, size: Option<string>, quantity: Option<int>, price: Option<int>)

  /** An order payload. `totalAmount` is what a client may send for the read-only field. */
  datatype OrderRequest = OrderRequest(status: Option<string>, totalAmount: Option<int>, items: Option<seq<LineRequest>>)

  /** A validated line: the related product instance, a size choice, an optional quantity. */
  datatype LineData = LineData(product: Product, size: Size, quantity: Option<nat>)

  /** The validated data handed to `create`: only the writable fields. */
  datatype OrderData = OrderData(status: Option<OrderStatus>, items: seq<LineData>)

  datatype OrderError =
    | ItemsRequired
    | InvalidStatus(code: string)
    | ProductRequired(line: nat)
    | UnknownProduct(line: nat, id: int)
    | SizeRequired(line: nat)
    | InvalidSize(line: nat, code: string)
    | NegativeQuantity(line: nat, quantity: int)
    | QuantityTooLarge(line: nat, quantity: int)

  /**
   * The largest `PositiveIntegerField` value: the database integer range gives
   * the field a maximum-value validator, which the serializer field inherits.
   */
  const MaxQuantity: int := 2147483647

  /** Validation of one line (line number `k`), with the price treated as read-only. */
  function ValidateLine(ps: seq<Product>, k: nat, l: LineRequest): (r: Result<LineData, OrderError>)
    ensures r.Ok? <==>
      && l.productId.Some? && FindProduct(ps, l.productId.value).Some?
      && l.size.Some? && ParseSize(l.size.value).Some?
      && (l.quantity.Some? ==> 0 <= l.quantity.value <= MaxQuantity)
    ensures r.Ok? ==>
      && r.value.product in ps && r.value.product.id == l.productId.value
      && SizeCode(r.value.size) == l.size.value
      && (r.value.quantity.Some? <==> l.quantity.Some?)
      && (r.value.quantity.Some? ==> r.value.quantity.value == l.quantity.value)
  {
    if l.productId.None? then Err(ProductRequired(k))
    else match FindProduct(ps, l.productId.value)
    case None => Err(UnknownProduct(k, l.productId.value))
    case Some(p) =>
      if l.size.None? then Err(SizeRequired(k))
      else match ParseSize(l.size.value)
        case None => Err(InvalidSize(k, l.size.value))
        case Some(sz) =>
          match l.quantity
          case None => Ok(LineData(p, sz, None))
          case Some(q) =>
            if q < 0 then Err(NegativeQuantity(k, q))
            else if q > MaxQuantity then Err(QuantityTooLarge(k, q))
            else Ok(LineData(p, sz, Some(q)))
  }

  /** Validation of the whole list; the first failing line is reported. */
  function ValidateLines(ps: seq<Product>, ls: seq<LineRequest>): (r: Result<seq<LineData>, OrderError>)
    ensures r.Ok? <==> forall i :: 0 <= i < |ls| ==> ValidateLine(ps, i, ls[i]).Ok?
    ensures r.Ok? ==> |r.value| == |ls| && forall i :: 0 <= i < |ls| ==> ValidateLine(ps, i, ls[i]) == Ok(r.value[i])
    decreases |ls|
  {
    if ls == [] then Ok([])
    else
      var n := |ls| - 1;
      assert forall i :: 0 <= i < n ==> ls[..n][i] == ls[i];
      match ValidateLines(ps, ls[..n])
      case Err(e) => Err(e)
      case Ok(prefix) =>
        match ValidateLine(ps, n, ls[n])
        case Err(e) => Err(e)
        case Ok(d) =>
          assert forall i :: 0 <= i < n ==> (prefix + [d])[i] == prefix[i];
          Ok(prefix + [d])
  }

  /**
   * `OrderSerializer` validation: `status` must be a choice when given, `items`
   * is required (an empty list is accepted), and the read-only fields are dropped.
   */
  function ValidateOrder(ps: seq<Product>, req: OrderRequest): (r: Result<OrderData, OrderError>)
    ensures r.Ok? <==>
      && (req.status.Some? ==> ParseStatus(req.status.value).Some?)
      && req.items.Some?
      && (forall i :: 0 <= i < |req.items.value| ==> ValidateLine(ps, i, req.items.value[i]).Ok?)
    ensures r.Ok? ==>
      && (r.value.status.Some? <==> req.status.Some?)
      && (r.value.status.Some? ==> StatusCode(r.value.status.value) == req.status.value)
      && |r.value.items| == |req.items.value|
      && (forall i :: 0 <= i < |req.items.value| ==> ValidateLine(ps, i, req.items.value[i]) == Ok(r.value.items[i]))
  {
    var status :=
      match req.status
      case None => Ok(None)
      case Some(code) => if ParseStatus(code).Some? then Ok(ParseStatus(code)) else Err(InvalidStatus(code));
    if status.Err? then Err(status.error)
    else if req.items.None? then Err(ItemsRequired)
    else match ValidateLines(ps, req.items.value)
      case Err(e) => Err(e)
      case Ok(lines) => Ok(OrderData(status.value, lines))
  }

  /** A client-supplied `total_amount` is read-only: it never reaches `create`. */
  lemma ClientTotalIgnored(ps: seq<Product>, req: OrderRequest, t: Option<int>)
    ensures ValidateOrder(ps, req.(totalAmount := t)) == ValidateOrder(ps, req)
  {
  }

  /** A quantity beyond the field's integer range is refused, naming the line. */
  lemma QuantityAboveRangeRejected(ps: seq<Product>, k: nat, l: LineRequest)
    requires l.productId.Some? && FindProduct(ps, l.productId.value).Some?
    requires l.size.Some? && ParseSize(l.size.value).Some?
    requires l.quantity.Some? && l.quantity.value > MaxQuantity
    ensures ValidateLine(ps, k, l) == Err(QuantityTooLarge(k, l.quantity.value))
  {
  }

  /** Line validation never reads the price. */
  lemma ValidateLineIgnoresPrice(ps: seq<Product>, k: nat, l: LineRequest, price: Option<int>)
    ensures ValidateLine(ps, k, l.(price := price)) == ValidateLine(ps, k, l)
  {
  }

  /** A client-supplied line price never reaches `create` either (price is snapshotted). */
  lemma {:induction false} ClientLinePricesIgnored(ps: seq<Product>, ls: seq<LineRequest>, prices: seq<Option<int>>)
    requires |prices| == |ls|
    ensures ValidateLines(ps, seq(|ls|, i requires 0 <= i < |ls| => ls[i].(price := prices[i]))) == ValidateLines(ps, ls)
    decreases |ls|
  {
    var ls' := seq(|ls|, i requires 0 <= i < |ls| => ls[i].(price := prices[i]));
    if ls != [] {
      var n := |ls| - 1;
      ClientLinePricesIgnored(ps, ls[..n], prices[..n]);
      assert ls'[..n] == seq(n, i requires 0 <= i < n => ls[..n][i].(price := prices[..n][i]));
      ValidateLineIgnoresPrice(ps, n, ls[n], prices[n]);
    }
  }

  // ------------------------------------------------ order placement spec

  /** `item_data.get("quantity", 1)`, which agrees with the item's field default. */
  function LineQuantity(l: LineData): (q: nat)
    ensures l.quantity.Some? ==> q == l.quantity.value
    ensures l.quantity.None? ==> q == DefaultQuantity
  {
    match l.quantity
    case Some(q) => q
    case None => DefaultQuantity
  }

  /** What one line adds to the total: the product's price times the line's quantity. */
  function LineAmount(l: LineData): int {
    l.product.price * LineQuantity(l)
  }

  /** The sum over the lines of price times quantity. */
  function LinesTotal(ls: seq<LineData>): int
    decreases |ls|
  {
    if ls == [] then 0 else LinesTotal(ls[..|ls| - 1]) + LineAmount(ls[|ls| - 1])
  }

  /** The item a line becomes: the product's price at creation time is copied onto it. */
  function SnapshotItem(id: int, orderId: int, l: LineData): OrderItem {
    OrderItem(id, orderId, l.product.id, l.size, LineQuantity(l), l.product.price)
  }

  /** The items created for an order, numbered from `firstId`, one per line, in line order. */
  function SnapshotItems(orderId: int, firstId: int, ls: seq<LineData>): (items: seq<OrderItem>)
    ensures |items| == |ls|
    decreases |ls|
  {
    if ls == [] then []
    else SnapshotItems(orderId, firstId, ls[..|ls| - 1]) + [SnapshotItem(firstId + |ls| - 1, orderId, ls[|ls| - 1])]
  }

  /** The sum over stored items of price times quantity: how an order's total relates to its items. */
  function ItemsTotal(items: seq<OrderItem>): int
    decreases |items|
  {
    if items == [] then 0
    else ItemsTotal(items[..|items| - 1]) + items[|items| - 1].price * items[|items| - 1].quantity
  }

  /** Exactly one item per line, in input order, attached to the order, with the line's size and quantity. */
  lemma {:induction false} SnapshotItemsAt(orderId: int, firstId: int, ls: seq<LineData>)
    ensures |SnapshotItems(orderId, firstId, ls)| == |ls|
    ensures forall i :: 0 <= i < |ls| ==>
      SnapshotItems(orderId, firstId, ls)[i] ==
        OrderItem(firstId + i, orderId, ls[i].product.id, ls[i].size, LineQuantity(ls[i]), ls[i].product.price)
    decreases |ls|
  {
    if ls != [] {
      SnapshotItemsAt(orderId, firstId, ls[..|ls| - 1]);
    }
  }

  /** The stored total equals the sum over the created items of price times quantity. */
  lemma {:induction false} SnapshotTotalMatchesItems(orderId: int, firstId: int, ls: seq<LineData>)
    ensures ItemsTotal(SnapshotItems(orderId, firstId, ls)) == LinesTotal(ls)
    decreases |ls|
  {
    if ls != [] {
      var n := |ls| - 1;
      SnapshotTotalMatchesItems(orderId, firstId, ls[..n]);
      var items := SnapshotItems(orderId, firstId, ls);
      assert items[..|items| - 1] == SnapshotItems(orderId, firstId, ls[..n]);
    }
  }

  /** Each item's price is the catalog price of its product when the order is created. */
  lemma SnapshotPricesAreCatalogPrices(ps: seq<Product>, orderId: int, firstId: int, ls: seq<LineData>)
    requires ProductIdsUnique(ps)
    requires forall i :: 0 <= i < |ls| ==> ls[i].product in ps
    ensures forall i :: 0 <= i < |ls| ==>
      var item := SnapshotItems(orderId, firstId, ls)[i];
      FindProduct(ps, item.product).Some? && item.price == FindProduct(ps, item.product).value.price
  {
    SnapshotItemsAt(orderId, firstId, ls);
    forall i | 0 <= i < |ls|
      ensures FindProduct(ps, ls[i].product.id) == Some(ls[i].product)
    {
      FindProductFindsRow(ps, ls[i].product);
    }
  }

  /** No lines: no items and a zero total. */
  lemma NoLinesNoItems(orderId: int, firstId: int)
    ensures SnapshotItems(orderId, firstId, []) == [] && LinesTotal([]) == 0
  {
  }

  /** Totals add up line by line, in any split of the lines. */
  lemma {:induction false} LinesTotalAppend(a: seq<LineData>, b: seq<LineData>)
    ensures LinesTotal(a + b) == LinesTotal(a) + LinesTotal(b)
    decreases |b|
  {
    if b == [] {
      assert a + b == a;
    } else {
      var n := |b| - 1;
      assert (a + b)[..|a + b| - 1] == a + b[..n];
      assert (a + b)[|a + b| - 1] == b[n];
      LinesTotalAppend(a, b[..n]);
      calc {
        LinesTotal(a + b);
        LinesTotal(a + b[..n]) + LineAmount(b[n]);
        LinesTotal(a) + LinesTotal(b[..n]) + LineAmount(b[n]);
        LinesTotal(a) + LinesTotal(b);
      }
    }
  }

  // ----------------------------------- the serializer as declared (finding)

  /**
   * As declared, `OrderItemSerializer` lists `price` as an ordinary model
   * field: it is writable and, having no default, required. A validated line
   * therefore carries the keys below once `product` has been popped.
   */
  function ValidatedItemKeysAsWritten(l: LineRequest): set<string>
    requires l.price.Some?
  {
    {"size", "price"} + (if l.quantity.Some? then {"quantity"} else {})
  }

  /** The keywords `create` passes explicitly next to `**item_data`. */
  const ExplicitItemKeywords: set<string> := {"order", "product", "price"}

  /** A Python call raises `TypeError` when an unpacked key repeats an explicit keyword. */
  predicate RaisesDuplicateKeyword(explicit: set<string>, unpacked: set<string>) {
    explicit * unpacked != {}
  }

  /** The outcome of a POST of an order with the serializers as declared. */
  datatype AsWrittenOutcome =
    | Rejected(error: OrderError)
    | PriceRequired
    | CrashedAfterOrderRow(order: Order)
    | CreatedWithoutItems(order: Order)

  function PostOrderAsWritten(ps: seq<Product>, req: OrderRequest, id: int, user: int): (r: AsWrittenOutcome)
    ensures r.CreatedWithoutItems? ==> req.items == Some([]) && r.order.totalAmount == 0
    ensures r.CrashedAfterOrderRow? ==> r.order.totalAmount == 0
    ensures r.CrashedAfterOrderRow? ==>
      && req.items.Some? && req.items.value != [] && req.items.value[0].price.Some?
      && RaisesDuplicateKeyword(ExplicitItemKeywords, ValidatedItemKeysAsWritten(req.items.value[0]))
  {
    match ValidateOrder(ps, req)
    case Err(e) => Rejected(e)
    case Ok(d) =>
      var ls := req.items.value;
      if exists k :: 0 <= k < |ls| && ls[k].price.None? then PriceRequired
      else
        var row := NewOrder(id, user, if d.status.Some? then d.status.value else Pending);
        if ls == [] then CreatedWithoutItems(row)
        else
          // the first line's `OrderItem.objects.create` call already raises
          AsWrittenItemCallAlwaysCollides(ls[0]);
          CrashedAfterOrderRow(row)
  }

  /** As written, no line ever becomes an item: every accepted line collides on `price`. */
  lemma AsWrittenItemCallAlwaysCollides(l: LineRequest)
    requires l.price.Some?
    ensures RaisesDuplicateKeyword(ExplicitItemKeywords, ValidatedItemKeysAsWritten(l))
  {
    assert "price" in ExplicitItemKeywords * ValidatedItemKeysAsWritten(l);
  }

  /** As written, a POST with at least one line never yields a complete order. */
  lemma AsWrittenNeverPlacesItems(ps: seq<Product>, req: OrderRequest, id: int, user: int)
    requires req.items.Some? && req.items.value != []
    ensures !PostOrderAsWritten(ps, req, id, user).CreatedWithoutItems?
  {
  }

  /** The two-line example (100.00 x 2 in M, 50.00 x 1 in L), sent with prices, crashes. */
  lemma AsWrittenExampleCrashes()
    ensures
      var shirt := NewProduct(1, "Shirt", "shirt", 1, 10000);
      var cap := NewProduct(2, "Cap", "cap", 1, 5000);
      var req := OrderRequest(None, None, Some([
        LineRequest(Some(1), Some("M"), Some(2), Some(10000)),
        LineRequest(Some(2), Some("L"), Some(1), Some(5000))]));
      PostOrderAsWritten([shirt, cap], req, 1, 7) == CrashedAfterOrderRow(NewOrder(1, 7, Pending))
  {
    var shirt := NewProduct(1, "Shirt", "shirt", 1, 10000);
    var cap := NewProduct(2, "Cap", "cap", 1, 5000);
    var l1 := LineRequest(Some(1), Some("M"), Some(2), Some(10000));
    var l2 := LineRequest(Some(2), Some("L"), Some(1), Some(5000));
    assert ValidateLine([shirt, cap], 0, l1).Ok?;
    assert ValidateLine([shirt, cap], 1, l2).Ok?;
    AsWrittenItemCallAlwaysCollides(l1);
  }

  /** The example, sent without prices, validates to its two lines in order. */
  lemma CorrectedExampleValidates(shirt: Product, cap: Product)
    requires shirt == NewProduct(1, "Shirt", "shirt", 1, 10000) && cap == NewProduct(2, "Cap", "cap", 1, 5000)
    ensures ValidateOrder([shirt, cap], OrderRequest(None, None, Some([
        LineRequest(Some(1), Some("M"), Some(2), None),
        LineRequest(Some(2), Some("L"), Some(1), None)])))
      == Ok(OrderData(None, [LineData(shirt, M, Some(2)), LineData(cap, L, Some(1))]))
  {
    var l1 := LineRequest(Some(1), Some("M"), Some(2), None);
    var l2 := LineRequest(Some(2), Some("L"), Some(1), None);
    assert ValidateLine([shirt, cap], 0, l1) == Ok(LineData(shirt, M, Some(2)));
    assert ValidateLine([shirt, cap], 1, l2) == Ok(LineData(cap, L, Some(1)));
    var r := ValidateOrder([shirt, cap], OrderRequest(None, None, Some([l1, l2])));
    assert r.Ok? && |r.value.items| == 2;
    assert r.value.items[0] == LineData(shirt, M, Some(2)) && r.value.items[1] == LineData(cap, L, Some(1));
    assert r.value.status.None?;
    assert r.value.items == [LineData(shirt, M, Some(2)), LineData(cap, L, Some(1))];
  }

  /** With the price read-only, the same example yields two snapshotted items totalling 250.00. */
  lemma CorrectedExampleTotal()
    ensures
      var shirt := NewProduct(1, "Shirt", "shirt", 1, 10000);
      var cap := NewProduct(2, "Cap", "cap", 1, 5000);
      var req := OrderRequest(None, None, Some([
        LineRequest(Some(1), Some("M"), Some(2), None),
        LineRequest(Some(2), Some("L"), Some(1), None)]));
      var r := ValidateOrder([shirt, cap], req);
      r.Ok? && LinesTotal(r.value.items) == 25000
        && SnapshotItems(1, 1, r.value.items) == [OrderItem(1, 1, 1, M, 2, 10000), OrderItem(2, 1, 2, L, 1, 5000)]
  {
    var shirt := NewProduct(1, "Shirt", "shirt", 1, 10000);
    var cap := NewProduct(2, "Cap", "cap", 1, 5000);
    CorrectedExampleValidates(shirt, cap);
    var ls := [LineData(shirt, M, Some(2)), LineData(cap, L, Some(1))];
    assert ls[..1] == [LineData(shirt, M, Some(2))];
  }

  // ------------------------------------------------------- review_count

  /** The reviews of one product, in table order. */
  function ReviewsOf(rs: seq<Review>, product: int): seq<Review> {
    Keep(rs, (r: Review) => r.product == product)
  }

  /** `get_review_count`: the number of review rows of the product. */
  function ReviewCount(rs: seq<Review>, product: int): (n: nat)
    ensures n <= |rs|
    ensures n == 0 <==> forall r :: r in rs ==> r.product != product
  {
    var of := ReviewsOf(rs, product);
    assert of != [] ==> of[0] in of;
    |of|
  }

  lemma {:induction false} KeepConcat<T>(a: seq<T>, b: seq<T>, f: T -> bool)
    ensures Keep(a + b, f) == Keep(a, f) + Keep(b, f)
  {
    if a == [] {
      assert a + b == b;
    } else {
      assert (a + b)[0] == a[0];
      assert (a + b)[1..] == a[1..] + b;
      KeepConcat(a[1..], b, f);
    }
  }

  /** Deleting a review lowers its product's count by one and leaves every other count alone. */
  lemma ReviewCountAfterRemove(rs: seq<Review>, k: nat, product: int)
    requires k < |rs|
    ensures ReviewCount(RemoveAt(rs, k), product) ==
      ReviewCount(rs, product) - (if rs[k].product == product then 1 else 0)
  {
    var f := (r: Review) => r.product == product;
    assert rs == rs[..k] + ([rs[k]] + rs[k + 1..]);
    KeepConcat(rs[..k], [rs[k]] + rs[k + 1..], f);
    KeepConcat([rs[k]], rs[k + 1..], f);
    KeepConcat(rs[..k], rs[k + 1..], f);
  }

  /** Rewriting review `k` in place moves one unit of count from its old product to its new one. */
  lemma ReviewCountAfterReplace(rs: seq<Review>, k: nat, r: Review, product: int)
    requires k < |rs|
    ensures ReviewCount(rs[k := r], product) ==
      ReviewCount(rs, product) - (if rs[k].product == product then 1 else 0) + (if r.product == product then 1 else 0)
  {
    var f := (x: Review) => x.product == product;
    assert rs == rs[..k] + ([rs[k]] + rs[k + 1..]);
    assert rs[k := r] == rs[..k] + ([r] + rs[k + 1..]);
    KeepConcat(rs[..k], [rs[k]] + rs[k + 1..], f);
    KeepConcat([rs[k]], rs[k + 1..], f);
    KeepConcat(rs[..k], [r] + rs[k + 1..], f);
    KeepConcat([r], rs[k + 1..], f);
  }

  // ------------------------------------------------------ review payloads

  /** The writable review fields a client may send; absent fields are `None`. */
  datatype ReviewPatch = ReviewPatch(product: Option<int>, rating: Option<int>, comment: Option<string>)

  datatype ReviewError =
    | FieldRequired(field: string)
    | UnknownReviewProduct(id: int)
    | RatingNotAChoice(rating: int)
    | CommentNullCharacter

  /** The code point every `CharField` refuses ("Null characters are not allowed."). */
  const NullChar: char := '\0'

  /**
   * `ReviewSerializer` validation of an update. A full update (`partial` false)
   * needs `product` and `rating`; a given product must exist, a given rating
   * must be a choice, and a given comment must hold no null character.
   */
  function ValidateReviewPatch(ps: seq<Product>, patch: ReviewPatch, partial: bool): (r: Option<ReviewError>)
    ensures r.None? <==>
      && (!partial ==> patch.product.Some? && patch.rating.Some?)
      && (patch.product.Some? ==> FindProduct(ps, patch.product.value).Some?)
      && (patch.rating.Some? ==> 1 <= patch.rating.value <= 5)
      && (patch.comment.Some? ==> NullChar !in patch.comment.value)
    ensures r == Some(CommentNullCharacter) ==> patch.comment.Some? && NullChar in patch.comment.value
    // fields are checked in declaration order: product, then rating, then comment
    ensures r.Some? && r.value != FieldRequired("product") && !r.value.UnknownReviewProduct? ==>
      && (!partial ==> patch.product.Some?)
      && (patch.product.Some? ==> FindProduct(ps, patch.product.value).Some?)
    ensures r.Some? && r.value.CommentNullCharacter? ==>
      && (!partial ==> patch.rating.Some?)
      && (patch.rating.Some? ==> 1 <= patch.rating.value <= 5)
  {
    RatingChoicesAreOneToFive(if patch.rating.Some? then patch.rating.value else 0);
    if !partial && patch.product.None? then Some(FieldRequired("product"))
    else if patch.product.Some? && FindProduct(ps, patch.product.value).None? then Some(UnknownReviewProduct(patch.product.value))
    else if !partial && patch.rating.None? then Some(FieldRequired("rating"))
    else if patch.rating.Some? && !IsRating(patch.rating.value) then Some(RatingNotAChoice(patch.rating.value))
    else if patch.comment.Some? && NullChar in patch.comment.value then Some(CommentNullCharacter)
    else None
  }

  /** A full update naming an unknown product and no rating reports the product, the first field. */
  lemma UnknownProductReportedFirst()
    ensures ValidateReviewPatch([], ReviewPatch(Some(999), None, None), false) == Some(UnknownReviewProduct(999))
  {
  }

  /**
   * `serializer.save()` on an existing review: the given fields replace the
   * stored ones; the comment, a `CharField` in the serializer, is trimmed.
   */
  function ApplyReviewPatch(rv: Review, patch: ReviewPatch): (r: Review)
    ensures r.id == rv.id && r.user == rv.user && r.verifiedPurchase == rv.verifiedPurchase
    ensures r.product == (if patch.product.Some? then patch.product.value else rv.product)
    ensures r.rating == (if patch.rating.Some? then patch.rating.value else rv.rating)
    ensures r.comment == (if patch.comment.Some? then Strip(patch.comment.value) else rv.comment)
  {
    rv.(product := if patch.product.Some? then patch.product.value else rv.product,
        rating := if patch.rating.Some? then patch.rating.value else rv.rating,
        comment := if patch.comment.Some? then Strip(patch.comment.value) else rv.comment)
  }

  // ------------------------------------------------- CharField trimming

  /** The characters Python's `str.strip()` removes (the Unicode whitespace). */
  predicate IsSpace(c: char) {
    || c == ' ' || '\t' <= c <= '\r' || '\U{1C}' <= c <= '\U{1F}' || c == '\U{85}' || c == '\U{A0}'
    || c == '\U{1680}' || '\U{2000}' <= c <= '\U{200A}' || c == '\U{2028}' || c == '\U{2029}'
    || c == '\U{202F}' || c == '\U{205F}' || c == '\U{3000}'
  }

  /** The number of leading characters of `s` that satisfy `space`. */
  function Leading(s: string, space: char -> bool): (n: nat)
    ensures n <= |s|
    ensures forall i :: 0 <= i < n ==> space(s[i])
    ensures n < |s| ==> !space(s[n])
  {
    if s == [] || !space(s[0]) then 0 else 1 + Leading(s[1..], space)
  }

  /** The number of trailing characters of `s` that satisfy `space`. */
  function Trailing(s: string, space: char -> bool): (n: nat)
    ensures n <= |s|
    ensures forall i :: |s| - n <= i < |s| ==> space(s[i])
    ensures n < |s| ==> !space(s[|s| - 1 - n])
  {
    if s == [] || !space(s[|s| - 1]) then 0 else 1 + Trailing(s[..|s| - 1], space)
  }

  /** Every character of `s` satisfies `f`. */
  predicate Every(s: string, f: char -> bool) {
    forall i :: 0 <= i < |s| ==> f(s[i])
  }

  /** The `n` characters of `s` from position `i`. */
  function Slice(s: string, i: nat, n: nat): (r: string)
    requires i + n <= |s|
    ensures |r| == n
  {
    s[i..i + n]
  }

  /** `str.strip` with the characters to remove given by `space`. */
  function StripWith(s: string, space: char -> bool): (r: string)
    ensures r == [] <==> Every(s, space)
    ensures r != [] ==> !space(r[0]) && !space(r[|r| - 1])
    ensures r != [] ==> Leading(s, space) + |r| + Trailing(s, space) == |s| && r == Slice(s, Leading(s, space), |r|)
    ensures exists i :: 0 <= i <= |s| - |r| && Slice(s, i, |r|) == r && Every(s[..i], space) && Every(s[i + |r|..], space)
  {
    var lead := Leading(s, space);
    if lead == |s| then
      assert Slice(s, 0, 0) == [] && s[0..] == s;
      []
    else
      var end := |s| - Trailing(s, space);
      assert lead < end by {
        assert !space(s[lead]);
      }
      assert Slice(s, lead, end - lead) == s[lead..end];
      assert Every(s[..lead], space) && Every(s[end..], space);
      s[lead..end]
  }

  /**
   * `str.strip()`, which a `CharField` applies to its input before any other
   * validation: the input with its leading and trailing runs of whitespace
   * removed, so a slice without whitespace at either end, and empty exactly
   * when the input is all whitespace.
   */
  function Strip(s: string): (r: string)
    ensures r == [] <==> Every(s, IsSpace)
    ensures r != [] ==> !IsSpace(r[0]) && !IsSpace(r[|r| - 1])
    ensures r != [] ==> Leading(s, IsSpace) + |r| + Trailing(s, IsSpace) == |s| && r == Slice(s, Leading(s, IsSpace), |r|)
    ensures exists i :: 0 <= i <= |s| - |r| && Slice(s, i, |r|) == r && Every(s[..i], IsSpace) && Every(s[i + |r|..], IsSpace)
  {
    StripWith(s, IsSpace)
  }

  /** Only the outer runs of whitespace go: the space between two words stays. */
  lemma StripKeepsInnerSpace()
    ensures Strip(" a b ") == "a b"
  {
    assert Leading(" a b ", IsSpace) == 1 by {
      assert Leading("a b ", IsSpace) == 0;
    }
    assert Trailing(" a b ", IsSpace) == 1 by {
      assert Trailing(" a b", IsSpace) == 0;
    }
  }

  /** Stripping twice is stripping once. */
  lemma StripIdempotent(s: string)
    ensures Strip(Strip(s)) == Strip(s)
  {
    var r := Strip(s);
    if r != [] {
      assert Leading(r, IsSpace) == 0 && Trailing(r, IsSpace) == 0;
      assert r[0..|r|] == r;
    }
  }

  // ------------------------------------------------- registration payload

  datatype RegisterRequest = RegisterRequest(username: Option<string>, email: Option<string>, password: Option<string>)

  datatype RegisterError = MissingField(field: string) | NullCharacter(field: string) | UsernameTaken

  /**
   * `RegisterSerializer` validation. Every field is stripped first; then the
   * username must be non-blank, hold no null character and be held by no
   * user, the email key must be present (it may be blank) and hold no null
   * character, and the password must be non-blank and hold no null character.
   */
  function ValidateRegistration(users: seq<User>, req: RegisterRequest): (r: Option<RegisterError>)
    ensures r.None? <==>
      && req.username.Some? && Strip(req.username.value) != "" && NullChar !in req.username.value
      && (forall u :: u in users ==> u.username != Strip(req.username.value))
      && req.email.Some? && NullChar !in req.email.value
      && req.password.Some? && Strip(req.password.value) != "" && NullChar !in req.password.value
    ensures r == Some(UsernameTaken) ==>
      req.username.Some? && exists u :: u in users && u.username == Strip(req.username.value)
    ensures r.Some? && r.value.NullCharacter? ==>
      || (r.value.field == "username" && req.username.Some? && NullChar in req.username.value)
      || (r.value.field == "email" && req.email.Some? && NullChar in req.email.value)
      || (r.value.field == "password" && req.password.Some? && NullChar in req.password.value)
  {
    if req.username.None? || Strip(req.username.value) == "" then Some(MissingField("username"))
    else if NullChar in req.username.value then Some(NullCharacter("username"))
    else if exists u :: u in users && u.username == Strip(req.username.value) then Some(UsernameTaken)
    else if req.email.None? then Some(MissingField("email"))
    else if NullChar in req.email.value then Some(NullCharacter("email"))
    else if req.password.None? || Strip(req.password.value) == "" then Some(MissingField("password"))
    else if NullChar in req.password.value then Some(NullCharacter("password"))
    else None
  }

  /** Cutting runs of `space` from both ends keeps every character outside `space`. */
  lemma TrimKeeps(s: string, lead: nat, trail: nat, space: char -> bool, c: char)
    requires lead + trail <= |s| && !space(c)
    requires forall i :: 0 <= i < lead ==> space(s[i])
    requires forall i :: |s| - trail <= i < |s| ==> space(s[i])
    ensures c in s <==> c in s[lead..|s| - trail]
  {
    if c in s {
      var k :| 0 <= k < |s| && s[k] == c;
      assert s[lead..|s| - trail][k - lead] == s[k];
    }
  }

  /** Stripping never removes a character outside `space`. */
  lemma StripWithKeeps(s: string, space: char -> bool, c: char)
    requires !space(c)
    ensures c in s <==> c in StripWith(s, space)
  {
    var r := StripWith(s, space);
    if r != [] {
      var lead, trail := Leading(s, space), Trailing(s, space);
      assert r == s[lead..|s| - trail];
      TrimKeeps(s, lead, trail, space, c);
    }
  }

  /** Stripping never removes a null character, so checking the raw value is checking the stripped one. */
  lemma NullCharSurvivesStrip(s: string)
    ensures NullChar in s <==> NullChar in Strip(s)
  {
    StripWithKeeps(s, IsSpace, NullChar);
  }

}
