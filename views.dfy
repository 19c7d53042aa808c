/**
 * The read side of the request handlers: the product listing with its
 * search, category and stock filters, the featured slice, the staff/owner
 * scoping of order listings, the single-row lookups (`objects.get`) the
 * state-changing handlers start from, and the owner guard of review updates
 * and deletions.
 */
module Views {
  import opened Shared
  import opened Models

  // ------------------------------------------- case-insensitive substring

  /** ASCII lower-casing of one character. */
  function LowerChar(c: char): char {
    if 'A' <= c <= 'Z' then (c as int + 32) as char else c
  }

  function Lower(s: string): (r: string)
    ensures |r| == |s|
  {
    seq(|s|, i requires 0 <= i < |s| => LowerChar(s[i]))
  }

  predicate OccursAt(hay: string, needle: string, i: int) {
    0 <= i <= |hay| - |needle| && hay[i..i + |needle|] == needle
  }

  predicate ContainsSub(hay: string, needle: string) {
    exists i :: 0 <= i <= |hay| - |needle| && OccursAt(hay, needle, i)
  }

  /** A `__icontains` lookup. */
  predicate IContains(hay: string, needle: string) {
    ContainsSub(Lower(hay), Lower(needle))
  }

  lemma LowerIdempotent(s: string)
    ensures Lower(Lower(s)) == Lower(s)
  {
  }

  /** The lookup ignores the case of the search term. */
  lemma IContainsIgnoresTermCase(hay: string, needle: string)
    ensures IContains(hay, Lower(needle)) == IContains(hay, needle)
  {
    LowerIdempotent(needle);
  }

  /** Every text contains the empty term. */
  lemma IContainsEmpty(hay: string)
    ensures IContains(hay, "")
  {
    assert OccursAt(Lower(hay), Lower(""), 0);
  }

  // ------------------------------------------------------ product listing

  /** The category a product's foreign key names. */
  function FindCategory(cs: seq<Category>, id: int): (r: Option<Category>)
    ensures r.Some? ==> r.value in cs && r.value.id == id
    ensures r.None? <==> forall c :: c in cs ==> c.id != id
  {
    if cs == [] then None
    else if cs[0].id == id then Some(cs[0])
    else FindCategory(cs[1..], id)
  }

  /** The query parameters of the product listing; an absent parameter is `None`. */
  datatype ProductQuery = ProductQuery(search: Option<string>, category: Option<string>, inStock: Option<string>)

  /** Python truthiness of an optional query parameter. */
  predicate Truthy(v: Option<string>) {
    v.Some? && v.value != ""
  }

  /** Title, description or category name contains the term, ignoring case. */
  predicate MatchesSearch(cs: seq<Category>, term: string, p: Product) {
    || IContains(p.title, term)
    || IContains(p.description, term)
    || (FindCategory(cs, p.categoryId).Some? && IContains(FindCategory(cs, p.categoryId).value.name, term))
  }

  /** `category__slug=slug`. */
  predicate InCategory(cs: seq<Category>, slug: string, p: Product) {
    FindCategory(cs, p.categoryId).Some? && FindCategory(cs, p.categoryId).value.slug == slug
  }

  /** The stock filter is applied only for the exact parameter value `true`. */
  predicate StockFilterOn(q: ProductQuery) {
    q.inStock == Some("true")
  }

  /** The reference definition: a product is listed when it passes every active filter. */
  predicate Selected(cs: seq<Category>, q: ProductQuery, p: Product) {
    && (Truthy(q.search) ==> MatchesSearch(cs, q.search.value, p))
    && (Truthy(q.category) ==> InCategory(cs, q.category.value, p))
    && (StockFilterOn(q) ==> p.stockQuantity > 0)
  }

  /** The three filters of the listing, as the predicates handed to `.filter`. */
  function SearchFilter(cs: seq<Category>, term: string): Product -> bool {
    p => MatchesSearch(cs, term, p)
  }

  function CategoryFilter(cs: seq<Category>, slug: string): Product -> bool {
    p => InCategory(cs, slug, p)
  }

  function StockFilter(): Product -> bool {
    (p: Product) => p.stockQuantity > 0
  }

  function SelectedBy(cs: seq<Category>, q: ProductQuery): Product -> bool {
    p => Selected(cs, q, p)
  }

  /** `ProductViewSet.get_queryset`: the three filters applied one after the other. */
  function ProductQueryset(ps: seq<Product>, cs: seq<Category>, q: ProductQuery): (r: seq<Product>)
    ensures |r| <= |ps|
    ensures forall p :: p in r <==> p in ps && Selected(cs, q, p)
  {
    var bySearch := if Truthy(q.search) then Keep(ps, SearchFilter(cs, q.search.value)) else ps;
    var byCategory := if Truthy(q.category) then Keep(bySearch, CategoryFilter(cs, q.category.value)) else bySearch;
    if StockFilterOn(q) then Keep(byCategory, StockFilter()) else byCategory
  }

  /** Each stage as a filter that is the identity when its parameter is absent. */
  function SearchStage(cs: seq<Category>, q: ProductQuery): Product -> bool {
    p => Truthy(q.search) ==> MatchesSearch(cs, q.search.value, p)
  }

  function CategoryStage(cs: seq<Category>, q: ProductQuery): Product -> bool {
    p => Truthy(q.category) ==> InCategory(cs, q.category.value, p)
  }

  function StockStage(q: ProductQuery): Product -> bool {
    (p: Product) => StockFilterOn(q) ==> p.stockQuantity > 0
  }

  function SearchAndCategory(cs: seq<Category>, q: ProductQuery): Product -> bool {
    p => SearchStage(cs, q)(p) && CategoryStage(cs, q)(p)
  }

  lemma SearchStageIsFilter(ps: seq<Product>, cs: seq<Category>, q: ProductQuery)
    ensures (if Truthy(q.search) then Keep(ps, SearchFilter(cs, q.search.value)) else ps) == Keep(ps, SearchStage(cs, q))
  {
    if Truthy(q.search) {
      KeepCongruent(ps, SearchFilter(cs, q.search.value), SearchStage(cs, q));
    } else {
      KeepAll(ps, SearchStage(cs, q));
    }
  }

  lemma CategoryStageIsFilter(ps: seq<Product>, cs: seq<Category>, q: ProductQuery)
    ensures (if Truthy(q.category) then Keep(ps, CategoryFilter(cs, q.category.value)) else ps) == Keep(ps, CategoryStage(cs, q))
  {
    if Truthy(q.category) {
      KeepCongruent(ps, CategoryFilter(cs, q.category.value), CategoryStage(cs, q));
    } else {
      KeepAll(ps, CategoryStage(cs, q));
    }
  }

  lemma StockStageIsFilter(ps: seq<Product>, q: ProductQuery)
    ensures (if StockFilterOn(q) then Keep(ps, StockFilter()) else ps) == Keep(ps, StockStage(q))
  {
    if StockFilterOn(q) {
      KeepCongruent(ps, StockFilter(), StockStage(q));
    } else {
      KeepAll(ps, StockStage(q));
    }
  }

  /** The staged filtering is exactly the one-pass conjunctive filter. */
  lemma ProductQuerysetIsConjunctiveFilter(ps: seq<Product>, cs: seq<Category>, q: ProductQuery)
    ensures ProductQueryset(ps, cs, q) == Keep(ps, SelectedBy(cs, q))
  {
    var s1 := if Truthy(q.search) then Keep(ps, SearchFilter(cs, q.search.value)) else ps;
    var s2 := if Truthy(q.category) then Keep(s1, CategoryFilter(cs, q.category.value)) else s1;
    SearchStageIsFilter(ps, cs, q);
    CategoryStageIsFilter(s1, cs, q);
    StockStageIsFilter(s2, q);
    KeepKeep(ps, SearchStage(cs, q), CategoryStage(cs, q), SearchAndCategory(cs, q));
    KeepKeep(ps, SearchAndCategory(cs, q), StockStage(q), SelectedBy(cs, q));
  }

  /** The listing keeps the store's order: it is a subsequence of all products. */
  lemma ProductQuerysetPreservesOrder(ps: seq<Product>, cs: seq<Category>, q: ProductQuery)
    ensures IsSubsequence(ProductQueryset(ps, cs, q), ps)
  {
    ProductQuerysetIsConjunctiveFilter(ps, cs, q);
    KeepIsSubsequence(ps, SelectedBy(cs, q));
  }

  /**
   * An empty term would match every product, so the `if search:` guard, which
   * skips the empty term, changes no listing.
   */
  lemma EmptySearchWouldKeepAll(ps: seq<Product>, cs: seq<Category>)
    ensures Keep(ps, SearchFilter(cs, "")) == ps
  {
    forall p: Product
      ensures SearchFilter(cs, "")(p)
    {
      IContainsEmpty(p.title);
    }
    KeepAll(ps, SearchFilter(cs, ""));
  }

  /** With a search term, every listed product contains it in its title, description or category name. */
  lemma SearchResultsContainTerm(ps: seq<Product>, cs: seq<Category>, q: ProductQuery, p: Product)
    requires Truthy(q.search) && p in ProductQueryset(ps, cs, q)
    ensures IContains(p.title, q.search.value) || IContains(p.description, q.search.value)
         || exists c :: c in cs && c.id == p.categoryId && IContains(c.name, q.search.value)
  {
  }

  /** Any `in_stock` value other than exactly `true` (`True`, `1`, ...) filters nothing. */
  lemma OtherStockValuesIgnored(ps: seq<Product>, cs: seq<Category>, q: ProductQuery, v: string)
    requires v != "true"
    ensures ProductQueryset(ps, cs, q.(inStock := Some(v))) == ProductQueryset(ps, cs, q.(inStock := None))
  {
  }

  /** With no active parameter the listing is every product. */
  lemma NoParametersListsAll(ps: seq<Product>, cs: seq<Category>)
    ensures ProductQueryset(ps, cs, ProductQuery(None, None, None)) == ps
  {
  }

  // ------------------------------------------------------------- featured

  const FeaturedLimit: nat := 6

  predicate FeaturedInStock(p: Product) {
    p.isFeatured && p.stockQuantity > 0
  }

  /** `ProductViewSet.featured`: the first six featured, in-stock products of the listing. */
  function Featured(ps: seq<Product>, cs: seq<Category>, q: ProductQuery): (r: seq<Product>)
    ensures |r| <= FeaturedLimit
    ensures forall p :: p in r ==> FeaturedInStock(p) && p in ProductQueryset(ps, cs, q)
  {
    Take(Keep(ProductQueryset(ps, cs, q), FeaturedInStock), FeaturedLimit)
  }

  /**
   * The featured slice is an order-preserving selection from the listing, and
   * it leaves nothing out unless six products were already taken.
   */
  lemma FeaturedIsPrefixOfListing(ps: seq<Product>, cs: seq<Category>, q: ProductQuery)
    ensures IsSubsequence(Featured(ps, cs, q), ProductQueryset(ps, cs, q))
    ensures IsSubsequence(Featured(ps, cs, q), ps)
    ensures Featured(ps, cs, q) == Keep(ProductQueryset(ps, cs, q), FeaturedInStock)[..|Featured(ps, cs, q)|]
    ensures |Featured(ps, cs, q)| < FeaturedLimit ==>
      forall p :: p in ProductQueryset(ps, cs, q) && FeaturedInStock(p) ==> p in Featured(ps, cs, q)
  {
    var listing := ProductQueryset(ps, cs, q);
    var all := Keep(listing, FeaturedInStock);
    var r := Featured(ps, cs, q);
    PrefixIsSubsequence(all, |r|);
    KeepIsSubsequence(listing, FeaturedInStock);
    SubsequenceTransitive(r, all, listing);
    ProductQuerysetPreservesOrder(ps, cs, q);
    SubsequenceTransitive(r, listing, ps);
  }

  /** Filtering a newest-first table keeps it newest first. */
  lemma {:induction false} KeepKeepsNewestFirst(ps: seq<Product>, f: Product -> bool)
    requires NewestFirst(ps)
    ensures NewestFirst(Keep(ps, f))
  {
    if ps != [] {
      var rest := Keep(ps[1..], f);
      KeepKeepsNewestFirst(ps[1..], f);
      if f(ps[0]) {
        assert Keep(ps, f) == [ps[0]] + rest;
        forall x | x in rest
          ensures x.id < ps[0].id
        {
          var j :| 0 <= j < |ps[1..]| && ps[1..][j] == x;
          assert ps[j + 1] == x;
        }
      }
    }
  }

  /**
   * Over the table's `-id` order, a featured, in-stock listed product left out
   * of the slice is older than every product in it, and it is left out only
   * because six were taken.
   */
  lemma FeaturedAreNewest(ps: seq<Product>, cs: seq<Category>, q: ProductQuery, p: Product)
    requires NewestFirst(ps)
    requires p in ProductQueryset(ps, cs, q) && FeaturedInStock(p) && p !in Featured(ps, cs, q)
    ensures |Featured(ps, cs, q)| == FeaturedLimit
    ensures forall x :: x in Featured(ps, cs, q) ==> x.id > p.id
  {
    var listing := ProductQueryset(ps, cs, q);
    ProductQuerysetIsConjunctiveFilter(ps, cs, q);
    KeepKeepsNewestFirst(ps, SelectedBy(cs, q));
    var all := Keep(listing, FeaturedInStock);
    KeepKeepsNewestFirst(listing, FeaturedInStock);
    var r := Featured(ps, cs, q);
    assert r == all[..|r|];
    assert p in all;
    var j :| 0 <= j < |all| && all[j] == p;
    assert forall i :: 0 <= i < |r| ==> r[i] in r && r[i] == all[i];
    assert |r| <= j;
    forall x | x in r
      ensures x.id > p.id
    {
      var i :| 0 <= i < |r| && r[i] == x;
      assert all[i] == x;
    }
  }

  // --------------------------------------------------------- order scoping

  /** `OrderViewSet.get_queryset`: staff see every order, anyone else only their own. */
  function ScopeOrders(orders: seq<Order>, requester: User): (r: seq<Order>)
    ensures requester.isStaff ==> r == orders
    ensures !requester.isStaff ==> forall o :: o in r <==> o in orders && o.user == requester.id
  {
    if requester.isStaff then orders else Keep(orders, (o: Order) => o.user == requester.id)
  }

  lemma ScopeOrdersPreservesOrder(orders: seq<Order>, requester: User)
    ensures IsSubsequence(ScopeOrders(orders, requester), orders)
  {
    if requester.isStaff {
      PrefixIsSubsequence(orders, |orders|);
      assert orders[..|orders|] == orders;
    } else {
      KeepIsSubsequence(orders, (o: Order) => o.user == requester.id);
    }
  }

  /** An order placed by the requester shows up in the requester's own listing. */
  lemma PlacedOrderVisible(orders: seq<Order>, o: Order, requester: User)
    requires o.user == requester.id
    ensures o in ScopeOrders(orders + [o], requester)
  {
  }

  // ------------------------------------------------------------- lookups
  // Each `objects.get` is the position of the first row matching its condition.

  /** `Order.objects.get(id=id, user=user)`. */
  function FindOwnedOrder(os: seq<Order>, id: int, user: int): (r: Option<nat>)
    ensures r.Some? ==> r.value < |os| && os[r.value].id == id && os[r.value].user == user
    ensures r.None? <==> forall i :: 0 <= i < |os| ==> !(os[i].id == id && os[i].user == user)
  {
    if os == [] then None
    else if os[0].id == id && os[0].user == user then Some(0)
    else match FindOwnedOrder(os[1..], id, user)
      case None => None
      case Some(i) => Some(i + 1)
  }

  /** The lookup reads only ids and owners, so changing an order's status does not move it. */
  lemma {:induction false} FindOwnedOrderIgnoresStatus(os: seq<Order>, k: nat, status: OrderStatus, id: int, user: int)
    requires k < |os|
    ensures FindOwnedOrder(os[k := os[k].(status := status)], id, user) == FindOwnedOrder(os, id, user)
  {
    var os' := os[k := os[k].(status := status)];
    if k > 0 {
      assert os'[1..] == os[1..][k - 1 := os[k].(status := status)];
      FindOwnedOrderIgnoresStatus(os[1..], k - 1, status, id, user);
    } else {
      assert os'[1..] == os[1..];
    }
  }

  /** `Profile.objects.get(verification_token=token)`. */
  function FindProfileByToken(ps: seq<Profile>, token: string): (r: Option<nat>)
    ensures r.Some? ==> r.value < |ps| && ps[r.value].verificationToken == token
    ensures r.None? <==> forall i :: 0 <= i < |ps| ==> ps[i].verificationToken != token
  {
    if ps == [] then None
    else if ps[0].verificationToken == token then Some(0)
    else match FindProfileByToken(ps[1..], token)
      case None => None
      case Some(i) => Some(i + 1)
  }

  /** The profile of a user (`get_or_create(user=user)` looks it up first). */
  function FindProfileOfUser(ps: seq<Profile>, user: int): (r: Option<nat>)
    ensures r.Some? ==> r.value < |ps| && ps[r.value].user == user
    ensures r.None? <==> forall i :: 0 <= i < |ps| ==> ps[i].user != user
  {
    if ps == [] then None
    else if ps[0].user == user then Some(0)
    else match FindProfileOfUser(ps[1..], user)
      case None => None
      case Some(i) => Some(i + 1)
  }

  /** The review a detail route names. */
  function FindReview(rs: seq<Review>, id: int): (r: Option<nat>)
    ensures r.Some? ==> r.value < |rs| && rs[r.value].id == id
    ensures r.None? <==> forall i :: 0 <= i < |rs| ==> rs[i].id != id
  {
    if rs == [] then None
    else if rs[0].id == id then Some(0)
    else match FindReview(rs[1..], id)
      case None => None
      case Some(i) => Some(i + 1)
  }

  // ------------------------------------------------------ the owner guard

  /**
   * What a guard on the author of a review does with a request: let it
   * through, refuse it with HTTP 403, or end it in an uncaught Python
   * exception (HTTP 500).
   */
  datatype GuardResult = GuardPasses | GuardRefuses | GuardCrashes(exception: string)

  /** The names `rest_framework.permissions` defines; `PermissionDenied` lives in `rest_framework.exceptions`. */
  const PermissionsModuleNames: set<string> := {
    "SAFE_METHODS", "Http404", "exceptions",
    "OperationHolderMixin", "SingleOperandHolder", "OperandHolder", "AND", "OR", "NOT",
    "BasePermissionMetaclass", "BasePermission", "AllowAny", "IsAuthenticated", "IsAdminUser",
    "IsAuthenticatedOrReadOnly", "DjangoModelPermissions", "DjangoModelPermissionsOrAnonReadOnly",
    "DjangoObjectPermissions"
  }

  /**
   * `perform_update` / `perform_destroy` as written: a non-author reaches
   * `raise permissions.PermissionDenied(...)`, whose attribute lookup fails
   * before anything is raised.
   */
  function OwnerGuardAsWritten(author: int, requester: int): (g: GuardResult)
    ensures author == requester ==> g == GuardPasses
  {
    if author == requester then GuardPasses
    else if "PermissionDenied" in PermissionsModuleNames then GuardRefuses
    else GuardCrashes("AttributeError")
  }

  /** The guard as intended: only the author passes, anyone else gets HTTP 403. */
  function OwnerGuard(author: int, requester: int): (g: GuardResult)
    ensures g == GuardPasses <==> author == requester
    ensures g != GuardPasses ==> g == GuardRefuses
  {
    if author == requester then GuardPasses else GuardRefuses
  }

  /**
   * The written guard agrees with the intended one exactly on the author:
   * every non-author request ends in an `AttributeError` instead of a 403.
   */
  lemma NonAuthorCrashesAsWritten(author: int, requester: int)
    ensures OwnerGuardAsWritten(author, requester) == OwnerGuard(author, requester) <==> author == requester
    ensures author != requester ==> OwnerGuardAsWritten(author, requester) == GuardCrashes("AttributeError")
  {
    assert "PermissionDenied" !in PermissionsModuleNames;
  }
}
