/**
 * Starting a hosted checkout (`POST /api/create-checkout-session`): the
 * handler validates the price and user ids, reuses the user's stored
 * customer id or creates a customer and records its id, then asks the
 * provider for a subscription checkout session and answers with its URL.
 *
 * `stripe.customers.create` and `stripe.checkout.sessions.create` are the
 * oracles `createCustomer` and `createSession`; the `DOMAIN` environment
 * variable is the input `domain`.
 */
module CheckoutSession {
  import opened Common
  import opened Text
  import opened UserDb

  /** The parameters of the customer created for a user without one. */
  datatype CustomerParams = CustomerParams(email: string, name: string, metadata: map<string, string>)

  datatype LineItem = LineItem(price: string, quantity: nat)

  /** The parameters of `stripe.checkout.sessions.create`. */
  datatype SessionParams = SessionParams(
    customer: string,
    paymentMethodTypes: seq<string>,
    lineItems: seq<LineItem>,
    mode: string,
    successUrl: string,
    cancelUrl: string,
    metadata: map<string, string>)

  /** A created session; its `url` may be null. */
  datatype Session = Session(url: Option<string>)

  const SUCCESS_PATH := "/subscription/success"
  const SESSION_QUERY := "session_id={CHECKOUT_SESSION_ID}"
  const CANCEL_PATH := "/subscription/canceled"

  /** The customer created for `user`: its email and name, and metadata naming the user. */
  function CustomerParamsFor(user: User): (p: CustomerParams)
    ensures p.email == user.email && p.name == user.name
    ensures p.metadata.Keys == {"userId"} && p.metadata["userId"] == user.id
  {
    CustomerParams(user.email, user.name, map["userId" := user.id])
  }

  /**
   * Where the provider sends the customer after paying: the domain (the text
   * "undefined" when `DOMAIN` is unset), the success page, and the session
   * id placeholder the provider fills in.
   */
  function SuccessUrl(domain: Option<string>): string
  {
    EnvText(domain) + SUCCESS_PATH + "?" + SESSION_QUERY
  }

  /** Where the provider sends the customer after cancelling. */
  function CancelUrl(domain: Option<string>): string
  {
    EnvText(domain) + CANCEL_PATH
  }

  /**
   * The success URL reads back: for a domain without '?', the text before
   * the first '?' is the domain and the success page, and the query after it
   * is exactly the session id placeholder.
   */
  lemma SuccessUrlQuery(domain: Option<string>)
    requires '?' !in EnvText(domain)
    ensures Split(SuccessUrl(domain), "?") == [EnvText(domain) + SUCCESS_PATH, SESSION_QUERY]
  {
    var page := EnvText(domain) + SUCCESS_PATH;
    assert '?' !in SUCCESS_PATH;
    assert '?' !in page;
    assert '?' !in SESSION_QUERY;
    CharDelimits(page, '?');
    CharFree(SESSION_QUERY, '?');
    var parts := [page, SESSION_QUERY];
    assert Join(parts, "?") == SuccessUrl(domain);
    SplitJoin(parts, "?");
  }

  /**
   * The session for `customerId`: card payments, exactly one line item of
   * one unit of the price, subscription mode, the two return URLs and
   * metadata naming the user.
   */
  function SessionParamsFor(customerId: string, priceId: string, userId: string, domain: Option<string>)
    : (p: SessionParams)
    ensures p.customer == customerId
    ensures p.paymentMethodTypes == ["card"]
    ensures |p.lineItems| == 1 && p.lineItems[0].price == priceId && p.lineItems[0].quantity == 1
    ensures p.mode == "subscription"
    ensures p.successUrl == SuccessUrl(domain) && p.cancelUrl == CancelUrl(domain)
    ensures p.metadata.Keys == {"userId"} && p.metadata["userId"] == userId
  {
    SessionParams(customerId, ["card"], [LineItem(priceId, 1)], "subscription",
                  SuccessUrl(domain), CancelUrl(domain), map["userId" := userId])
  }

  /** The JSON body of the request. */
  datatype RequestBody = RequestBody(priceId: Option<string>, userId: Option<string>)

  /** The response body. */
  datatype Reply = Checkout(url: Option<string>) | Failure(error: string) | Unhandled

  const MISSING_IDS_ERROR := "Missing priceId or userId"
  const USER_NOT_FOUND_ERROR := "User not found"
  const POST_ERROR := "Failed to create checkout session"

  /**
   * `POST`. `body` is `None` when the request body is not valid JSON: that
   * failure happens before the handler's `try` and escapes it, so the
   * framework answers 500 (`Unhandled`). The ghost outputs are the customer
   * created and the session requested, if any.
   *  - a missing or empty price id or user id answers 400 before any lookup;
   *  - an unknown user answers 404;
   *  - a user with a truthy stored customer id keeps it: no customer is
   *    created and the store is unchanged;
   *  - otherwise a customer is created with `CustomerParamsFor(user)`; if that
   *    fails the answer is 500 and the store is unchanged, else its id is
   *    recorded on the user before the session is requested;
   *  - the session requested is `SessionParamsFor` the customer id; its URL
   *    is answered, or 500 when the provider refuses.
   */
  method Post(body: Option<RequestBody>, db: UserStore, domain: Option<string>,
              createCustomer: CustomerParams -> Call<string>,
              createSession: SessionParams -> Call<Session>)
    returns (response: Response<Reply>, ghost customer: Option<CustomerParams>, ghost session: Option<SessionParams>)
    requires db.Valid()
    modifies db
    ensures db.Valid()
    ensures body.None? ==>
      response == Response(500, Unhandled) && customer.None? && session.None? && db.users == old(db.users)
    ensures body.Some? && !(Truthy(body.value.priceId) && Truthy(body.value.userId)) ==>
      response == Response(400, Failure(MISSING_IDS_ERROR)) && customer.None? && session.None?
      && db.users == old(db.users)
    ensures body.Some? && Truthy(body.value.priceId) && Truthy(body.value.userId)
            && body.value.userId.value !in old(db.users) ==>
      response == Response(404, Failure(USER_NOT_FOUND_ERROR)) && customer.None? && session.None?
      && db.users == old(db.users)
    ensures body.Some? && Truthy(body.value.priceId) && Truthy(body.value.userId)
            && body.value.userId.value in old(db.users) ==>
      var priceId, userId := body.value.priceId.value, body.value.userId.value;
      var user := old(db.users)[userId];
      if Truthy(user.stripeCustomerId) then
        customer.None? && db.users == old(db.users)
        && session == Some(SessionParamsFor(user.stripeCustomerId.value, priceId, userId, domain))
      else
        customer == Some(CustomerParamsFor(user))
        && match createCustomer(customer.value)
           case Threw(_) =>
             response == Response(500, Failure(POST_ERROR)) && session.None? && db.users == old(db.users)
           case Returned(id) =>
             db.users == WithCustomerId(old(db.users), userId, id)
             && session == Some(SessionParamsFor(id, priceId, userId, domain))
    ensures session.Some? ==>
      match createSession(session.value)
      case Threw(_) => response == Response(500, Failure(POST_ERROR))
      case Returned(s) => response == Response(200, Checkout(s.url))
  {
    customer, session := None, None;
    if body.None? {
      return Response(500, Unhandled), customer, session;
    }
    var b := body.value;
    if !Truthy(b.priceId) || !Truthy(b.userId) {
      return Response(400, Failure(MISSING_IDS_ERROR)), customer, session;
    }
    var priceId, userId := b.priceId.value, b.userId.value;
    var found := db.FindById(userId);
    if found.None? {
      return Response(404, Failure(USER_NOT_FOUND_ERROR)), customer, session;
    }
    var user := found.value;
    var customerId := user.stripeCustomerId;
    if !Truthy(customerId) {
      var params := CustomerParamsFor(user);
      customer := Some(params);
      match createCustomer(params)
      case Threw(_) =>
        return Response(500, Failure(POST_ERROR)), customer, session;
      case Returned(id) =>
        customerId := Some(id);
        db.SetCustomerId(userId, id);
    }
    var params := SessionParamsFor(customerId.value, priceId, userId, domain);
    session := Some(params);
    match createSession(params)
    case Threw(_) =>
      response := Response(500, Failure(POST_ERROR));
    case Returned(s) =>
      response := Response(200, Checkout(s.url));
  }
}
