/**
 * The application's user store, as the customer routes use it: look a user
 * up by id, and record the provider's customer id on a user. The routes
 * ship a placeholder store; here it is a map from user id to user, updated
 * in place.
 */
module UserDb {
  import opened Common

  /** A postal address as the application keeps it. */
  datatype Address = Address(street: string, city: string, zip: string, country: string)

  /** A user; `stripeCustomerId` is the provider's customer id, once there is one. */
  datatype User = User(
    id: string,
    email: string,
    name: string,
    stripeCustomerId: Option<string>,
    phone: Option<string>,
    address: Option<Address>)

  /**
   * `users` after recording `customerId` on the user filed under `id`: that
   * user gets the customer id and keeps every other field, the other users
   * and the set of ids stay as they were; an unknown id changes nothing.
   */
  function WithCustomerId(users: map<string, User>, id: string, customerId: string): (r: map<string, User>)
    ensures r.Keys == users.Keys
    ensures forall other | other in users && other != id :: r[other] == users[other]
    ensures id in users ==> r[id] == users[id].(stripeCustomerId := Some(customerId))
    ensures id in users ==> r[id].stripeCustomerId == Some(customerId) && r[id].id == users[id].id
    ensures id !in users ==> r == users
  {
    if id in users then users[id := users[id].(stripeCustomerId := Some(customerId))] else users
  }

  class UserStore {
    /** The users by id. */
    var users: map<string, User>

    /** Every user is filed under its own id. */
    ghost predicate Valid()
      reads this
    {
      forall id | id in users :: users[id].id == id
    }

    constructor (users: map<string, User>)
      requires forall id | id in users :: users[id].id == id
      ensures Valid() && this.users == users
    {
      this.users := users;
    }

    /** `db.users.findById(id)`: the user filed under `id`, if any, which carries that id. */
    function FindById(id: string): (u: Option<User>)
      requires Valid()
      reads this
      ensures u.Some? <==> id in users
      ensures u.Some? ==> u.value.id == id && u.value in users.Values
    {
      if id in users then Some(users[id]) else None
    }

    /**
     * `db.users.update(id, {stripeCustomerId})`: records the customer id on
     * the user filed under `id` and changes nothing else; an unknown id
     * changes nothing.
     */
    method SetCustomerId(id: string, customerId: string)
      requires Valid()
      modifies this
      ensures Valid()
      ensures users == WithCustomerId(old(users), id, customerId)
    {
      if id in users {
        users := users[id := users[id].(stripeCustomerId := Some(customerId))];
      }
    }
  }
}
