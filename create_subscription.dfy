/**
 * Creating a subscription (`POST /api/create-subscription`): the handler
 * validates the ids, resolves an optional coupon code, and `createSubscription`
 * builds the provider's parameters from its options (defaults first, then
 * the optional fields one by one) and submits them.
 *
 * `stripe.coupons.retrieve` and `stripe.subscriptions.create` are the oracles
 * `retrieveCoupon` and `create`.
 */
module CreateSubscription {
  import opened Common

  /** The `options` argument of `createSubscription`; every field may be absent. */
  datatype Options = Options(
    paymentBehavior: Option<string>,
    metadata: Option<map<string, string>>,
    trialPeriodDays: Option<int>,
    billingCycleAnchor: Option<int>,
    prorationBehavior: Option<string>,
    promotionCode: Option<string>,
    coupon: Option<string>,
    taxRates: Option<seq<string>>)

  /** One subscription item. */
  datatype Item = Item(price: string)

  /**
   * The parameters submitted to the provider. The optional fields are
   * `None` when the builder leaves them unset.
   */
  datatype SubscriptionParams = SubscriptionParams(
    customer: string,
    items: seq<Item>,
    paymentBehavior: string,
    expand: seq<string>,
    metadata: map<string, string>,
    trialPeriodDays: Option<int>,
    billingCycleAnchor: Option<int>,
    prorationBehavior: Option<string>,
    defaultTaxRates: Option<seq<string>>)

  const DEFAULT_PAYMENT_BEHAVIOR := "default_incomplete"
  const DEFAULT_PRORATION_BEHAVIOR := "create_prorations"
  const EXPAND: seq<string> := ["latest_invoice.payment_intent", "customer"]

  /**
   * The parameters `createSubscription` builds: one item with the price, the
   * fixed `expand` list, the payment behaviour and metadata with their
   * defaults; a trial only for a non-zero trial length; a proration
   * behaviour exactly when a (non-zero) billing-cycle anchor is set; tax rates
   * exactly when given. Coupon and promotion code are not carried over.
   */
  function ParamsFor(customerId: string, priceId: string, options: Options): (p: SubscriptionParams)
    ensures p.customer == customerId && p.items == [Item(priceId)] && p.expand == EXPAND
    ensures p.paymentBehavior == OrElse(options.paymentBehavior, DEFAULT_PAYMENT_BEHAVIOR)
    ensures options.metadata.None? ==> p.metadata == map[]
    ensures options.metadata.Some? ==> p.metadata == options.metadata.value
    ensures p.trialPeriodDays.Some? <==> TruthyNumber(options.trialPeriodDays)
    ensures p.trialPeriodDays.Some? ==> p.trialPeriodDays == options.trialPeriodDays
    ensures p.billingCycleAnchor.Some? <==> TruthyNumber(options.billingCycleAnchor)
    ensures p.billingCycleAnchor.Some? ==> p.billingCycleAnchor == options.billingCycleAnchor
    ensures p.prorationBehavior.Some? <==> p.billingCycleAnchor.Some?
    ensures p.prorationBehavior.Some? ==>
      p.prorationBehavior.value == OrElse(options.prorationBehavior, DEFAULT_PRORATION_BEHAVIOR)
    ensures p.defaultTaxRates == options.taxRates
  {
    var anchored := TruthyNumber(options.billingCycleAnchor);
    SubscriptionParams(
      customerId,
      [Item(priceId)],
      OrElse(options.paymentBehavior, DEFAULT_PAYMENT_BEHAVIOR),
      EXPAND,
      match options.metadata case Some(m) => m case None => map[],
      if TruthyNumber(options.trialPeriodDays) then options.trialPeriodDays else None,
      if anchored then options.billingCycleAnchor else None,
      if anchored then Some(OrElse(options.prorationBehavior, DEFAULT_PRORATION_BEHAVIOR)) else None,
      options.taxRates)
  }

  /** The coupon and promotion code given in the options have no effect on the parameters. */
  lemma CouponIgnored(customerId: string, priceId: string, options: Options,
                      coupon: Option<string>, promotionCode: Option<string>)
    ensures ParamsFor(customerId, priceId, options)
         == ParamsFor(customerId, priceId, options.(coupon := coupon, promotionCode := promotionCode))
  {
  }

  /** What the expanded latest invoice carries. */
  datatype Invoice = Invoice(clientSecret: Option<string>, hostedInvoiceUrl: Option<string>)

  /** A created subscription; `latestInvoice` may be missing. */
  datatype Subscription = Subscription(id: string, status: string, latestInvoice: Option<Invoice>)

  /** The outcome of `createSubscription`: the subscription or the wrapped error it rethrows. */
  datatype Created = Created(subscription: Subscription) | CreateFailed(error: string)

  const CREATE_ERROR_PREFIX := "Could not create subscription: "

  /**
   * `createSubscription`: builds the parameters as `ParamsFor` states, field
   * by field as the source does, submits them once, and returns the
   * subscription or rethrows the provider's error wrapped.
   */
  method Create(customerId: string, priceId: string, options: Options,
                create: SubscriptionParams -> Call<Subscription>)
    returns (r: Created, ghost sent: SubscriptionParams)
    ensures sent == ParamsFor(customerId, priceId, options)
    ensures create(sent).Returned? ==> r == Created(create(sent).value)
    ensures create(sent).Threw? ==> r == CreateFailed(CREATE_ERROR_PREFIX + create(sent).message)
  {
    var params := SubscriptionParams(
      customerId, [Item(priceId)], OrElse(options.paymentBehavior, DEFAULT_PAYMENT_BEHAVIOR),
      EXPAND, if options.metadata.Some? then options.metadata.value else map[],
      None, None, None, None);
    if TruthyNumber(options.trialPeriodDays) {
      params := params.(trialPeriodDays := options.trialPeriodDays);
    }
    if TruthyNumber(options.billingCycleAnchor) {
      params := params.(billingCycleAnchor := options.billingCycleAnchor);
      params := params.(prorationBehavior := Some(OrElse(options.prorationBehavior, DEFAULT_PRORATION_BEHAVIOR)));
    }
    if options.taxRates.Some? {
      params := params.(defaultTaxRates := options.taxRates);
    }
    sent := params;
    match create(params)
    case Returned(subscription) =>
      r := Created(subscription);
    case Threw(message) =>
      r := CreateFailed(CREATE_ERROR_PREFIX + message);
  }

  /** The JSON body of the request. */
  datatype RequestBody = RequestBody(
    customerId: Option<string>,
    priceId: Option<string>,
    trialPeriodDays: Option<int>,
    metadata: Option<map<string, string>>,
    couponCode: Option<string>)

  /** A resolved coupon. */
  datatype Coupon = Coupon(id: string)

  /** The response body: the new subscription's particulars, or an error message. */
  datatype Reply =
    | Subscribed(subscriptionId: string, status: string, clientSecret: Option<string>, invoiceUrl: Option<string>)
    | Failure(error: string)

  const MISSING_IDS_ERROR := "Customer ID và Price ID là bắt buộc"
  const INVALID_COUPON_ERROR := "Mã giảm giá không hợp lệ hoặc đã hết hạn"
  const POST_ERROR := "Đã xảy ra lỗi khi tạo subscription"

  /**
   * The options `POST` hands to `createSubscription`: the trial length and
   * metadata from the body, the resolved coupon's id, and the payment
   * behaviour "default_incomplete".
   */
  function PostOptions(body: RequestBody, coupon: Option<Coupon>): (o: Options)
    ensures o.paymentBehavior == Some(DEFAULT_PAYMENT_BEHAVIOR)
    ensures o.trialPeriodDays == body.trialPeriodDays && o.metadata == body.metadata
    ensures o.coupon.Some? <==> coupon.Some?
    ensures coupon.Some? ==> o.coupon.value == coupon.value.id
  {
    Options(Some(DEFAULT_PAYMENT_BEHAVIOR), body.metadata, body.trialPeriodDays, None, None, None,
            match coupon case Some(c) => Some(c.id) case None => None, None)
  }

  /**
   * `POST`. `body` is `None` when the request body is not valid JSON. The
   * ghost outputs say whether a coupon was looked up and which parameters,
   * if any, were submitted:
   *  - a body that does not parse answers 500;
   *  - a missing or empty customer id or price id answers 400 before any
   *    call to the provider;
   *  - a coupon code that fails to resolve answers 400 and nothing is created;
   *  - otherwise the parameters submitted are `ParamsFor` the ids and
   *    `PostOptions`, and a subscription with a latest invoice is answered
   *    with its id, status, client secret and invoice URL; a creation
   *    failure or a missing latest invoice answers 500.
   */
  method Post(body: Option<RequestBody>,
              retrieveCoupon: string -> Call<Coupon>,
              create: SubscriptionParams -> Call<Subscription>)
    returns (response: Response<Reply>, ghost couponLookedUp: bool, ghost sent: Option<SubscriptionParams>)
    ensures body.None? ==> response == Response(500, Failure(POST_ERROR)) && !couponLookedUp && sent.None?
    ensures body.Some? && !(Truthy(body.value.customerId) && Truthy(body.value.priceId)) ==>
      response == Response(400, Failure(MISSING_IDS_ERROR)) && !couponLookedUp && sent.None?
    ensures couponLookedUp <==>
      body.Some? && Truthy(body.value.customerId) && Truthy(body.value.priceId) && Truthy(body.value.couponCode)
    ensures couponLookedUp && retrieveCoupon(body.value.couponCode.value).Threw? ==>
      response == Response(400, Failure(INVALID_COUPON_ERROR)) && sent.None?
    ensures sent.Some? <==>
      body.Some? && Truthy(body.value.customerId) && Truthy(body.value.priceId)
      && !(couponLookedUp && retrieveCoupon(body.value.couponCode.value).Threw?)
    ensures sent.Some? ==>
      var b := body.value;
      var coupon := if couponLookedUp then Some(retrieveCoupon(b.couponCode.value).value) else None;
      sent.value == ParamsFor(b.customerId.value, b.priceId.value, PostOptions(b, coupon))
    ensures sent.Some? ==>
      match create(sent.value)
      case Threw(_) => response == Response(500, Failure(POST_ERROR))
      case Returned(s) =>
        match s.latestInvoice
        case None => response == Response(500, Failure(POST_ERROR))
        case Some(invoice) =>
          response == Response(200, Subscribed(s.id, s.status, invoice.clientSecret, invoice.hostedInvoiceUrl))
  {
    couponLookedUp, sent := false, None;
    if body.None? {
      return Response(500, Failure(POST_ERROR)), couponLookedUp, sent;
    }
    var b := body.value;
    if !Truthy(b.customerId) || !Truthy(b.priceId) {
      return Response(400, Failure(MISSING_IDS_ERROR)), couponLookedUp, sent;
    }
    var coupon: Option<Coupon> := None;
    if Truthy(b.couponCode) {
      couponLookedUp := true;
      match retrieveCoupon(b.couponCode.value)
      case Threw(_) =>
        return Response(400, Failure(INVALID_COUPON_ERROR)), couponLookedUp, sent;
      case Returned(c) =>
        coupon := Some(c);
    }
    var created, params := Create(b.customerId.value, b.priceId.value, PostOptions(b, coupon), create);
    sent := Some(params);
    match created
    case CreateFailed(_) =>
      response := Response(500, Failure(POST_ERROR));
    case Created(s) =>
      match s.latestInvoice
      case None =>
        response := Response(500, Failure(POST_ERROR));
      case Some(invoice) =>
        response := Response(200, Subscribed(s.id, s.status, invoice.clientSecret, invoice.hostedInvoiceUrl));
  }

  /**
   * Whatever the body, the parameters `POST` submits ask for the
   * "default_incomplete" payment behaviour, carry no trial for a zero or
   * missing trial length, and set no billing-cycle anchor, proration
   * behaviour or tax rates.
   */
  lemma PostParamsShape(b: RequestBody, coupon: Option<Coupon>)
    requires Truthy(b.customerId) && Truthy(b.priceId)
    ensures var p := ParamsFor(b.customerId.value, b.priceId.value, PostOptions(b, coupon));
      && p.paymentBehavior == DEFAULT_PAYMENT_BEHAVIOR
      && (p.trialPeriodDays.Some? <==> TruthyNumber(b.trialPeriodDays))
      && p.billingCycleAnchor.None? && p.prorationBehavior.None? && p.defaultTaxRates.None?
      && p.items == [Item(b.priceId.value)] && p.customer == b.customerId.value
  {
  }
}
