/**
 * Getting or creating the provider's customer for a user
 * (`POST /api/customers/create`): a stored customer id is reused when the
 * provider still has that customer; when there is none, or it was deleted,
 * or looking it up fails, a customer is created from the user's fields and
 * its id is recorded on the user.
 *
 * `stripe.customers.retrieve` and `stripe.customers.create` are the oracles
 * `retrieve` and `create`; the clock reading for `createdAt` is the input `now`.
 */
module CustomersCreate {
  import opened Common
  import opened UserDb

  /** The address in the provider's shape. */
  datatype CustomerAddress = CustomerAddress(line1: string, city: string, postalCode: string, country: string)

  /** The parameters of `stripe.customers.create`. */
  datatype CustomerParams = CustomerParams(
    email: string,
    name: string,
    phone: Option<string>,
    address: Option<CustomerAddress>,
    metadata: map<string, string>,
    description: string)

  /** What `stripe.customers.retrieve` gives back: a live customer or a deleted one. */
  datatype Retrieved = Live(id: string) | Deleted(id: string)

  /** The outcome of `getOrCreateStripeCustomer`: a customer id or the wrapped error it rethrows. */
  datatype Outcome = CustomerId(id: string) | Failed(error: string)

  const SOURCE := "your_application_name"
  const CREATE_ERROR_PREFIX := "Unable to create Stripe Customer: "

  /** street becomes `line1`, zip becomes `postal_code`; a missing address stays missing. */
  function AddressParams(a: Option<Address>): (r: Option<CustomerAddress>)
    ensures r.Some? <==> a.Some?
    ensures a.Some? ==> AddressOf(r.value) == a.value
  {
    match a
    case None => None
    case Some(Address(street, city, zip, country)) => Some(CustomerAddress(street, city, zip, country))
  }

  /** The application's address behind a provider address: the inverse of `AddressParams`. */
  function AddressOf(c: CustomerAddress): Address
  {
    Address(c.line1, c.city, c.postalCode, c.country)
  }

  /** The description given to a new customer: "User <id> - <email>". */
  function Description(user: User): string
  {
    "User " + user.id + " - " + user.email
  }

  /**
   * The parameters of the customer created for `user` at time `now`: the
   * user's email, name, phone and address, metadata naming the user, the
   * creation time and the application, and the description.
   */
  function CustomerParamsFor(user: User, now: string): (p: CustomerParams)
    ensures p.email == user.email && p.name == user.name && p.phone == user.phone
    ensures p.address.Some? <==> user.address.Some?
    ensures p.address.Some? ==> AddressOf(p.address.value) == user.address.value
    ensures p.metadata.Keys == {"userId", "createdAt", "source"}
    ensures p.metadata["userId"] == user.id && p.metadata["createdAt"] == now && p.metadata["source"] == SOURCE
    ensures p.description == Description(user)
  {
    CustomerParams(user.email, user.name, user.phone, AddressParams(user.address),
                   map["userId" := user.id, "createdAt" := now, "source" := SOURCE],
                   Description(user))
  }

  /**
   * The customer id `getOrCreateStripeCustomer` reuses, if any: the id of the
   * customer retrieved for a truthy stored id, provided it is not deleted.
   */
  function Reusable(user: User, retrieve: string -> Call<Retrieved>): (r: Option<string>)
    ensures r.Some? <==>
      Truthy(user.stripeCustomerId) && retrieve(user.stripeCustomerId.value).Returned?
      && retrieve(user.stripeCustomerId.value).value.Live?
    ensures r.Some? ==> r.value == retrieve(user.stripeCustomerId.value).value.id
  {
    if Truthy(user.stripeCustomerId) then
      match retrieve(user.stripeCustomerId.value)
      case Returned(Live(id)) => Some(id)
      case _ => None
    else None
  }

  /**
   * `getOrCreateStripeCustomer(user)` against the store `db`:
   *  - a reusable customer's id is returned, nothing is created and the
   *    store is unchanged;
   *  - otherwise a customer is created with `CustomerParamsFor(user, now)`
   *    (returned as the ghost `created`); on success its id is recorded on
   *    the user and returned, on failure the store is unchanged and the
   *    error comes back wrapped.
   */
  method GetOrCreate(db: UserStore, user: User, now: string,
                     retrieve: string -> Call<Retrieved>, create: CustomerParams -> Call<string>)
    returns (r: Outcome, ghost created: Option<CustomerParams>)
    requires db.Valid()
    modifies db
    ensures db.Valid()
    ensures Reusable(user, retrieve).Some? ==>
      r == CustomerId(Reusable(user, retrieve).value) && created.None? && db.users == old(db.users)
    ensures Reusable(user, retrieve).None? ==> created == Some(CustomerParamsFor(user, now))
    ensures created.Some? && create(created.value).Threw? ==>
      r == Failed(CREATE_ERROR_PREFIX + create(created.value).message) && db.users == old(db.users)
    ensures created.Some? && create(created.value).Returned? ==>
      var id := create(created.value).value;
      r == CustomerId(id)
      && db.users == WithCustomerId(old(db.users), user.id, id)
  {
    created := None;
    if Truthy(user.stripeCustomerId) {
      match retrieve(user.stripeCustomerId.value)
      case Returned(Live(id)) =>
        return CustomerId(id), created;
      case _ =>
    }
    var params := CustomerParamsFor(user, now);
    created := Some(params);
    match create(params)
    case Threw(message) =>
      r := Failed(CREATE_ERROR_PREFIX + message);
    case Returned(id) =>
      db.SetCustomerId(user.id, id);
      r := CustomerId(id);
  }

  /** The response body. */
  datatype Reply = Customer(customerId: string) | Failure(error: string) | Unhandled

  const MISSING_USER_ID_ERROR := "Missing userId"
  const USER_NOT_FOUND_ERROR := "User not found"
  const POST_ERROR := "Failed to create or retrieve customer"

  /**
   * `POST`. `body` is the request's `userId`, or `None` when the body is not
   * valid JSON: that failure happens before the handler's `try` and escapes
   * it, so the framework answers 500 (`Unhandled`).
   *  - a missing or empty `userId` answers 400 and touches nothing;
   *  - an unknown user answers 404;
   *  - otherwise the outcome of `GetOrCreate` is answered as `{customerId}`,
   *    or 500 when it failed.
   */
  method Post(body: Option<Option<string>>, db: UserStore, now: string,
              retrieve: string -> Call<Retrieved>, create: CustomerParams -> Call<string>)
    returns (response: Response<Reply>)
    requires db.Valid()
    modifies db
    ensures db.Valid()
    ensures body.None? ==> response == Response(500, Unhandled) && db.users == old(db.users)
    ensures body.Some? && !Truthy(body.value) ==>
      response == Response(400, Failure(MISSING_USER_ID_ERROR)) && db.users == old(db.users)
    ensures body.Some? && Truthy(body.value) && body.value.value !in old(db.users) ==>
      response == Response(404, Failure(USER_NOT_FOUND_ERROR)) && db.users == old(db.users)
    ensures body.Some? && Truthy(body.value) && body.value.value in old(db.users) ==>
      var user := old(db.users)[body.value.value];
      match Reusable(user, retrieve)
      case Some(id) => response == Response(200, Customer(id)) && db.users == old(db.users)
      case None =>
        match create(CustomerParamsFor(user, now))
        case Threw(_) => response == Response(500, Failure(POST_ERROR)) && db.users == old(db.users)
        case Returned(id) =>
          response == Response(200, Customer(id))
          && db.users == WithCustomerId(old(db.users), user.id, id)
  {
    if body.None? {
      return Response(500, Unhandled);
    }
    var userId := body.value;
    if !Truthy(userId) {
      return Response(400, Failure(MISSING_USER_ID_ERROR));
    }
    var found := db.FindById(userId.value);
    if found.None? {
      return Response(404, Failure(USER_NOT_FOUND_ERROR));
    }
    var outcome, _ := GetOrCreate(db, found.value, now, retrieve, create);
    match outcome
    case CustomerId(id) =>
      response := Response(200, Customer(id));
    case Failed(_) =>
      response := Response(500, Failure(POST_ERROR));
  }
}
