/**
 * The two document collections of the backend, `users` and `orders`, as
 * plain sequences in insertion order, and the two queries the routes run
 * against them: `findOne` (first matching document) and `find` filtered by
 * owner.
 */
module Ledger {
  import opened Wrappers

  /** A MongoDB ObjectId: opaque, generated by the system, never reused. */
  type ObjectId = nat

  /** A stored account; `password` holds the bcrypt digest, never the plaintext. */
  datatype User = User(id: ObjectId, username: string, email: string, password: string)

  /**
   * A stored order. Only `userId` is required by the Orders schema; the other
   * fields are absent when the request body did not carry them.
   */
  datatype Order = Order(
    id: ObjectId,
    userId: ObjectId,
    name: Option<string>,
    qty: Option<real>,
    price: Option<real>,
    mode: Option<string>)

  /**
   * `Model.findOne(filter)`: the position of the first document satisfying
   * `matches`, or None when no document does.
   */
  function FindOne<T>(docs: seq<T>, matches: T -> bool): (r: Option<nat>)
    ensures r.Some? ==> r.value < |docs| && matches(docs[r.value])
    ensures r.Some? ==> forall j :: 0 <= j < r.value ==> !matches(docs[j])
    ensures r.None? <==> forall j :: 0 <= j < |docs| ==> !matches(docs[j])
  {
    if docs == [] then None
    else if matches(docs[0]) then Some(0)
    else
      match FindOne(docs[1..], matches)
      case None => None
      case Some(k) => Some(k + 1)
  }

  /** The registration filter `{ $or: [{ email }, { username }] }`. */
  predicate Clashes(u: User, email: string, username: string) {
    u.email == email || u.username == username
  }

  /** Some stored account already uses this email or this username. */
  predicate Taken(users: seq<User>, email: string, username: string) {
    exists i :: 0 <= i < |users| && Clashes(users[i], email, username)
  }

  /** No two accounts share an email, a username or an id. */
  ghost predicate UniqueAccounts(users: seq<User>) {
    forall i, j :: 0 <= i < j < |users| ==>
      users[i].email != users[j].email &&
      users[i].username != users[j].username &&
      users[i].id != users[j].id
  }

  /**
   * Appending an account whose email and username are not taken, under an id
   * no stored account has, keeps every account unique.
   */
  lemma AppendKeepsUnique(users: seq<User>, u: User)
    requires UniqueAccounts(users)
    requires !Taken(users, u.email, u.username)
    requires forall i :: 0 <= i < |users| ==> users[i].id != u.id
    ensures UniqueAccounts(users + [u])
  {
  }

  /**
   * With unique emails, the account holding a given email is the one
   * `findOne({ email })` returns.
   */
  lemma EmailIdentifiesAccount(users: seq<User>, i: nat, j: nat)
    requires UniqueAccounts(users)
    requires i < |users| && j < |users|
    requires users[i].email == users[j].email
    ensures i == j
  {
  }

  /** `OrdersModel.find({ userId: owner })`: the owner's orders, in store order. */
  function OrdersOf(orders: seq<Order>, owner: ObjectId): (mine: seq<Order>)
    ensures |mine| <= |orders|
    ensures forall k :: 0 <= k < |mine| ==> mine[k].userId == owner
    ensures forall o :: o in mine <==> o in orders && o.userId == owner
  {
    if orders == [] then []
    else (if orders[0].userId == owner then [orders[0]] else []) + OrdersOf(orders[1..], owner)
  }

  /** Storing one more order extends exactly its owner's listing, at the end. */
  lemma {:induction false} OrdersOfAppend(orders: seq<Order>, o: Order, owner: ObjectId)
    ensures OrdersOf(orders + [o], owner)
         == OrdersOf(orders, owner) + (if o.userId == owner then [o] else [])
  {
    if orders != [] {
      assert (orders + [o])[1..] == orders[1..] + [o];
      OrdersOfAppend(orders[1..], o, owner);
    } else {
      assert [o][1..] == [];
    }
  }
}
