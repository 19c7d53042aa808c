/** What a client can rely on across several requests. */
module Scenarios {
  import opened Shared
  import opened Models
  import opened Serializers
  import opened Views
  import opened Store

  // ------------------------------------------- what callers can rely on

  /** The token is cleared on success, so submitting it again is an invalid token, not "already verified". */
  method VerifyEmailReplay(shop: Shop, token: string) returns (first: VerifyOutcome, second: VerifyOutcome)
    requires shop.Valid() && token != ""
    modifies shop
    ensures shop.Valid()
    ensures first == EmailVerified ==> second == InvalidToken
  {
    first := shop.VerifyEmail(Some(token));
    second := shop.VerifyEmail(Some(token));
  }

  /** A second confirmation with a valid signature succeeds again and changes nothing more. */
  method ConfirmPaymentTwice(shop: Shop, requester: User, orderId: int) returns (first: PaymentOutcome, second: PaymentOutcome, ghost afterFirst: seq<Order>)
    requires shop.Valid()
    modifies shop
    ensures shop.Valid()
    ensures first == PaymentVerified ==> second == PaymentVerified && shop.orders == afterFirst
  {
    first := shop.ConfirmPayment(requester, Some(orderId), SignatureValid);
    afterFirst := shop.orders;
    second := shop.ConfirmPayment(requester, Some(orderId), SignatureValid);
    if first == PaymentVerified {
      // the order found again is already processing, so the second update writes what is there
      var k := FindOwnedOrder(afterFirst, orderId, requester.id).value;
      assert afterFirst[k].(status := Processing) == afterFirst[k];
      assert afterFirst[k := afterFirst[k]] == afterFirst;
    }
  }

  /** The token handed out at registration verifies the new account. */
  method RegisterThenVerify(shop: Shop, req: RegisterRequest, token: string) returns (reg: RegisterOutcome, ver: VerifyOutcome)
    requires shop.Valid() && token != ""
    requires forall i :: 0 <= i < |shop.profiles| ==> shop.profiles[i].verificationToken != token
    modifies shop
    ensures shop.Valid()
    ensures reg.Registered? ==> ver == EmailVerified
  {
    ghost var before := shop.profiles;
    reg := shop.Register(req, token);
    if reg.Registered? {
      // the new profile is the only one holding the token
      FreshTokenFindsNewProfile(before, shop.profiles[|before|], token);
    }
    ver := shop.VerifyEmail(Some(token));
  }

  /** A profile appended with a token no other profile holds is the one the token finds. */
  lemma FreshTokenFindsNewProfile(ps: seq<Profile>, p: Profile, token: string)
    requires forall i :: 0 <= i < |ps| ==> ps[i].verificationToken != token
    requires p.verificationToken == token
    ensures FindProfileByToken(ps + [p], token) == Some(|ps|)
  {
    var found := FindProfileByToken(ps + [p], token);
    assert (ps + [p])[|ps|].verificationToken == token;
    assert found.Some? && (ps + [p])[found.value].verificationToken == token;
  }

  /** A requester who places an order sees it in their own order listing. */
  method PlaceThenList(shop: Shop, requester: User, req: OrderRequest) returns (r: Result<Order, OrderError>)
    requires shop.Valid() && requester in shop.users
    modifies shop
    ensures shop.Valid()
    ensures r.Ok? ==> r.value in ScopeOrders(shop.orders, requester) && r.value.user == requester.id
  {
    r := shop.PlaceOrder(requester, req);
    if r.Ok? {
      PlacedOrderVisible(old(shop.orders), r.value, requester);
    }
  }
}
