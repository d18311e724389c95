/**
 * The webhook receiver (`POST /api/stripe-webhook`): it verifies the
 * provider's signature, appends one line per verified event to
 * `src/logs/webhook-events.log`, runs at most one handler chosen by the
 * event type, and acknowledges.
 *
 * The signature check, the subscription lookup, the clock and the file
 * system are inputs: `Inbound` is what `constructEvent` made of the request,
 * `retrieve` stands for `stripe.subscriptions.retrieve`, `now` for
 * `new Date().toISOString()`, and two booleans say whether `mkdirSync` and
 * `appendFileSync` succeed.
 */
module StripeWebhook {
  import opened Common

  /** The six event handlers of the receiver. */
  datatype Handler =
    | CheckoutSessionCompleted
    | SubscriptionCreated
    | SubscriptionUpdated
    | SubscriptionDeleted
    | InvoicePaymentSucceeded
    | InvoicePaymentFailed

  /** The event type each handler is registered under in the switch. */
  function EventTypeOf(h: Handler): string
  {
    match h
    case CheckoutSessionCompleted => "checkout.session.completed"
    case SubscriptionCreated => "customer.subscription.created"
    case SubscriptionUpdated => "customer.subscription.updated"
    case SubscriptionDeleted => "customer.subscription.deleted"
    case InvoicePaymentSucceeded => "invoice.payment_succeeded"
    case InvoicePaymentFailed => "invoice.payment_failed"
  }

  /**
   * The switch on `event.type`: a known type selects exactly the handler
   * registered under it; any other type falls to the default case, which
   * runs no handler.
   */
  function Classify(eventType: string): (h: Option<Handler>)
    ensures h.Some? ==> EventTypeOf(h.value) == eventType
    ensures h.None? <==> forall k: Handler :: EventTypeOf(k) != eventType
  {
    if eventType == "checkout.session.completed" then Some(CheckoutSessionCompleted)
    else if eventType == "customer.subscription.created" then Some(SubscriptionCreated)
    else if eventType == "customer.subscription.updated" then Some(SubscriptionUpdated)
    else if eventType == "customer.subscription.deleted" then Some(SubscriptionDeleted)
    else if eventType == "invoice.payment_succeeded" then Some(InvoicePaymentSucceeded)
    else if eventType == "invoice.payment_failed" then Some(InvoicePaymentFailed)
    else None
  }

  /** Each handler is reached by its own event type and by no other. */
  lemma ClassifyEventType(h: Handler, eventType: string)
    ensures Classify(eventType) == Some(h) <==> eventType == EventTypeOf(h)
  {
  }

  /** The fields of `event.data.object` that the receiver and its handlers read. */
  datatype EventObject = EventObject(
    id: Option<string>,              // `.id`
    subscription: Option<string>,    // `.subscription` of a checkout session
    metadataUserId: Option<string>)  // `.metadata?.userId` of a checkout session

  /** A verified event. */
  datatype Event = Event(id: string, eventType: string, payload: EventObject)

  /** The customer-id column of the log line: the object's id when truthy, else "N/A". */
  function CustomerIdText(obj: EventObject): (r: string)
    ensures r != ""
    ensures Truthy(obj.id) ==> r == obj.id.value
    ensures !Truthy(obj.id) ==> r == "N/A"
  {
    OrElse(obj.id, "N/A")
  }

  /** The log line without its newline. */
  function LogBody(timestamp: string, event: Event): string
  {
    timestamp + " - Event: " + event.eventType + " - ID: " + event.id
      + " - Customer ID: " + CustomerIdText(event.payload)
  }

  /**
   * The text appended to the log for one event: one line, terminated by a
   * newline, with no other newline in it as long as the timestamp and the
   * event's fields contain none.
   */
  function LogEntry(timestamp: string, event: Event): (r: string)
    ensures |r| > 0 && r[|r| - 1] == '\n'
    ensures r[..|r| - 1] == LogBody(timestamp, event)
    ensures '\n' !in timestamp + event.eventType + event.id + CustomerIdText(event.payload)
            ==> '\n' !in r[..|r| - 1]
  {
    LogBody(timestamp, event) + "\n"
  }

  /** A subscription as `stripe.subscriptions.retrieve` returns it: its status and the price id of each item. */
  datatype Subscription = Subscription(status: string, itemPriceIds: seq<string>)

  /** A call of `grantSubscriptionAccess(userId, priceId)`. */
  datatype Grant = Grant(userId: string, priceId: string)

  /** The statuses for which the checkout handler grants access. */
  predicate GrantsAccess(status: string)
  {
    status == "active" || status == "trialing"
  }

  /**
   * `handleCheckoutSessionCompleted`: it returns at once when the session has
   * no subscription; otherwise it retrieves the subscription and grants access
   * to the user named in the session's metadata, with the first item's price,
   * when the subscription is active or trialing. A failed retrieval, and the
   * TypeError of reading the first item of a subscription without items, are
   * caught and end the handler without a grant.
   */
  function CheckoutCompletedGrant(session: EventObject, retrieve: string -> Call<Subscription>): (g: Option<Grant>)
    ensures g.Some? <==>
      && Truthy(session.subscription)
      && retrieve(session.subscription.value).Returned?
      && Truthy(session.metadataUserId)
      && GrantsAccess(retrieve(session.subscription.value).value.status)
      && retrieve(session.subscription.value).value.itemPriceIds != []
    ensures g.Some? ==>
      g.value == Grant(session.metadataUserId.value, retrieve(session.subscription.value).value.itemPriceIds[0])
  {
    if !Truthy(session.subscription) then None
    else
      match retrieve(session.subscription.value)
      case Threw(_) => None
      case Returned(subscription) =>
        if !Truthy(session.metadataUserId) then None
        else if !GrantsAccess(subscription.status) then None
        else if subscription.itemPriceIds == [] then None
        else Some(Grant(session.metadataUserId.value, subscription.itemPriceIds[0]))
  }

  /** What the receiver was handed: an unreadable request, or what `constructEvent` made of it. */
  datatype Inbound =
    | Unreadable                 // reading the body or the headers threw
    | Rejected(message: string)  // `constructEvent` threw with this message
    | Verified(event: Event)

  /** The JSON bodies of the receiver's responses: `{received: true}` or `{error}`. */
  datatype Reply = Received | Failure(error: string)

  const INTERNAL_SERVER_ERROR := "Internal server error"

  /** Everything one POST does, in the order it does it. */
  datatype Effects = Effects(
    response: Response<Reply>,
    createsDir: bool,          // `mkdirSync` is called
    appended: Option<string>,  // text appended to the log file
    handler: Option<Handler>,  // handler run
    grant: Option<Grant>)      // access granted by that handler

  /**
   * The receiver's behaviour. A request that fails verification gets 400 with
   * the verification error and changes nothing. A verified event creates the
   * logs directory when it is missing (a failure there escapes to the outer
   * catch: 500, nothing logged, nothing run), appends its log line (a failed
   * append is caught and changes nothing else), runs the one handler of its
   * type if any, and gets 200 `{received: true}`.
   */
  function PostEffects(
    inbound: Inbound, dirExists: bool, now: string, mkdirOk: bool, appendOk: bool,
    retrieve: string -> Call<Subscription>): (fx: Effects)
    ensures fx.createsDir <==> inbound.Verified? && !dirExists
    ensures !inbound.Verified? ==> fx.appended == None && fx.handler == None && fx.grant == None
    ensures inbound.Rejected? ==> fx.response == Response(400, Failure(inbound.message))
    ensures inbound.Unreadable? ==> fx.response == Response(500, Failure(INTERNAL_SERVER_ERROR))
    ensures inbound.Verified? && !dirExists && !mkdirOk ==>
      fx == Effects(Response(500, Failure(INTERNAL_SERVER_ERROR)), true, None, None, None)
    ensures inbound.Verified? && (dirExists || mkdirOk) ==>
      && fx.response == Response(200, Received)
      && fx.appended == (if appendOk then Some(LogEntry(now, inbound.event)) else None)
      && fx.handler == Classify(inbound.event.eventType)
      && fx.grant == (if fx.handler == Some(CheckoutSessionCompleted)
                      then CheckoutCompletedGrant(inbound.event.payload, retrieve) else None)
    ensures fx.response.status == 200 <==> inbound.Verified? && (dirExists || mkdirOk)
  {
    match inbound
    case Unreadable =>
      Effects(Response(500, Failure(INTERNAL_SERVER_ERROR)), false, None, None, None)
    case Rejected(message) =>
      Effects(Response(400, Failure(message)), false, None, None, None)
    case Verified(event) =>
      if !dirExists && !mkdirOk then
        Effects(Response(500, Failure(INTERNAL_SERVER_ERROR)), true, None, None, None)
      else
        var appended := if appendOk then Some(LogEntry(now, event)) else None;
        var handler := Classify(event.eventType);
        var grant := if handler == Some(CheckoutSessionCompleted)
                     then CheckoutCompletedGrant(event.payload, retrieve) else None;
        Effects(Response(200, Received), !dirExists, appended, handler, grant)
  }

  /** Whether the log append succeeds changes neither the response nor what is dispatched. */
  lemma AppendOutcomeIsInvisible(
    inbound: Inbound, dirExists: bool, now: string, mkdirOk: bool,
    retrieve: string -> Call<Subscription>)
    ensures var ok := PostEffects(inbound, dirExists, now, mkdirOk, true, retrieve);
            var failed := PostEffects(inbound, dirExists, now, mkdirOk, false, retrieve);
            ok.response == failed.response && ok.handler == failed.handler && ok.grant == failed.grant
  {
  }

  /** An event of a type no handler is registered under is still logged and acknowledged, and runs nothing. */
  lemma UnknownTypeAcknowledged(event: Event, dirExists: bool, now: string, retrieve: string -> Call<Subscription>)
    requires forall h: Handler :: EventTypeOf(h) != event.eventType
    ensures var fx := PostEffects(Verified(event), dirExists, now, true, true, retrieve);
            fx.response == Response(200, Received) && fx.appended == Some(LogEntry(now, event))
            && fx.handler == None && fx.grant == None
  {
  }

  /**
   * The receiver with the state its POST handler touches: whether the logs
   * directory exists, and, as ghost state, the lines of the log file, the
   * handlers that ran and the grants they made.
   */
  class WebhookReceiver {
    var logsDirExists: bool
    ghost var log: seq<string>
    ghost var handled: seq<Handler>
    ghost var grants: seq<Grant>

    constructor (logsDirExists: bool, ghost log: seq<string>)
      ensures this.logsDirExists == logsDirExists && this.log == log
      ensures handled == [] && grants == []
    {
      this.logsDirExists := logsDirExists;
      this.log := log;
      handled, grants := [], [];
    }

    /** The switch: runs the handler of the event's type, if any; only the checkout handler can grant. */
    method Dispatch(event: Event, retrieve: string -> Call<Subscription>)
      modifies this`handled, this`grants
      ensures handled == old(handled) + Classify(event.eventType).ToSeq()
      ensures grants == old(grants) +
        (if Classify(event.eventType) == Some(CheckoutSessionCompleted)
         then CheckoutCompletedGrant(event.payload, retrieve).ToSeq() else [])
    {
      var handler := Classify(event.eventType);
      match handler
      case None =>
      case Some(h) =>
        handled := handled + [h];
        if h == CheckoutSessionCompleted {
          var grant := CheckoutCompletedGrant(event.payload, retrieve);
          if grant.Some? {
            grants := grants + [grant.value];
          }
        }
    }

    /** `POST`: verify, ensure the directory, log, dispatch, respond. */
    method Post(
      inbound: Inbound, now: string, mkdirOk: bool, appendOk: bool,
      retrieve: string -> Call<Subscription>) returns (response: Response<Reply>)
      modifies this
      ensures var fx := PostEffects(inbound, old(logsDirExists), now, mkdirOk, appendOk, retrieve);
        && response == fx.response
        && logsDirExists == (old(logsDirExists) || (fx.createsDir && mkdirOk))
        && log == old(log) + fx.appended.ToSeq()
        && handled == old(handled) + fx.handler.ToSeq()
        && grants == old(grants) + fx.grant.ToSeq()
    {
      match inbound
      case Unreadable =>
        return Response(500, Failure(INTERNAL_SERVER_ERROR));
      case Rejected(message) =>
        return Response(400, Failure(message));
      case Verified(event) =>
        if !logsDirExists {
          if !mkdirOk {
            return Response(500, Failure(INTERNAL_SERVER_ERROR));
          }
          logsDirExists := true;
        }
        var entry := LogEntry(now, event);
        if appendOk {
          log := log + [entry];
        }
        Dispatch(event, retrieve);
        return Response(200, Received);
    }
  }
}
