/**
 * The Express application: the user and order collections it stores, the
 * `authenticateToken` middleware, and the `/register`, `/login`,
 * `/newOrder` and `/allorders` handlers, one method each.
 */
module Routes {
  import opened Wrappers
  import opened Ledger
  import opened AuthHeader
  import opened AuthGate
  import Bcrypt
  import Jwt

  /** Secret used when `JWT_SECRET` is unset or empty. */
  const DefaultSecret: string := "your_default_secret"

  /** What a handler sends back. */
  datatype Body =
    | StatusText(text: string)
    | Message(text: string)
    | OrderList(orders: seq<Order>)
    | Session(token: string, userID: ObjectId)

  datatype Response = Response(status: nat, body: Body)

  /** `res.sendStatus(code)` for the two refusals of the gate. */
  function Rejected(code: nat): Response {
    Response(code, StatusText(if code == Unauthorized then "Unauthorized" else "Forbidden"))
  }

  const DuplicateAccount: Response := Response(400, Message("Username or email already exists."))
  const Registered: Response := Response(201, Message("User registered successfully!"))
  const InvalidCredentials: Response := Response(400, Message("Invalid credentials."))
  const OrderSaved: Response := Response(201, Message("Order saved!"))

  /** The JSON body of `POST /newOrder`; a client-supplied `userId` is ignored. */
  datatype OrderBody = OrderBody(
    userId: Option<ObjectId>,
    name: Option<string>,
    qty: Option<real>,
    price: Option<real>,
    mode: Option<string>)

  /** An incoming request to a protected route; the gate fills in `user`. */
  class Request {
    const authorization: Option<string>
    var user: Option<Jwt.Claims>

    constructor (authorization: Option<string>)
      ensures this.authorization == authorization && user == None
    {
      this.authorization := authorization;
      user := None;
    }
  }

  class App {
    const secret: string
    const jwt: Jwt.Codec
    const bcrypt: Bcrypt.Hasher
    var users: seq<User>
    var orders: seq<Order>
    /** The next ObjectId to hand out; every stored id lies below it. */
    var nextId: ObjectId

    /**
     * Accounts are unique by email, username and id; ids of both
     * collections were handed out in increasing order.
     */
    ghost predicate Valid()
      reads this
    {
      UniqueAccounts(users) &&
      (forall i :: 0 <= i < |users| ==> users[i].id < nextId) &&
      (forall i :: 0 <= i < |orders| ==> orders[i].id < nextId) &&
      (forall i, j :: 0 <= i < j < |orders| ==> orders[i].id < orders[j].id)
    }

    /** Process start: the secret falls back to the default when unset or empty. */
    constructor (jwtSecretEnv: Option<string>, jwt: Jwt.Codec, bcrypt: Bcrypt.Hasher)
      ensures Valid()
      ensures secret == if jwtSecretEnv.Some? && jwtSecretEnv.value != [] then jwtSecretEnv.value else DefaultSecret
      ensures this.jwt == jwt && this.bcrypt == bcrypt
      ensures users == [] && orders == [] && nextId == 0
    {
      secret := if jwtSecretEnv.Some? && jwtSecretEnv.value != [] then jwtSecretEnv.value else DefaultSecret;
      this.jwt := jwt;
      this.bcrypt := bcrypt;
      users := [];
      orders := [];
      nextId := 0;
    }

    /**
     * `authenticateToken`: decides with Gate; on success, and only then,
     * attaches the decoded identity to the request.
     */
    method AuthenticateToken(req: Request, clockMs: nat) returns (outcome: GateOutcome)
      modifies req
      ensures outcome == Gate(jwt, secret, req.authorization, clockMs)
      ensures req.user == if outcome.Next? then Some(outcome.user) else old(req.user)
    {
      var token := ExtractToken(req.authorization);
      if token.None? {
        return Reject(Unauthorized);
      }
      var verified := Jwt.Verify(jwt, token.value, secret, clockMs);
      if verified.Err? {
        return Reject(Forbidden);
      }
      req.user := Some(verified.value);
      outcome := Next(verified.value);
    }

    /**
     * `POST /register`: refuses an email or username already in use, and
     * otherwise stores one account holding the bcrypt digest of the password.
     */
    method Register(username: string, email: string, password: string, saltRandom: seq<bv8>)
      returns (resp: Response)
      requires Valid()
      modifies this`users, this`nextId
      ensures Valid()
      ensures Taken(old(users), email, username) ==>
        resp == DuplicateAccount && users == old(users) && nextId == old(nextId)
      ensures !Taken(old(users), email, username) ==>
        resp == Registered &&
        users == old(users) + [User(old(nextId), username, email,
                                    bcrypt.hash(password, Bcrypt.GenSalt(Bcrypt.SaltRounds, saltRandom)))] &&
        nextId == old(nextId) + 1
    {
      var existing := FindOne(users, (u: User) => Clashes(u, email, username));
      if existing.Some? {
        return DuplicateAccount;
      }
      var salt := Bcrypt.GenSalt(Bcrypt.SaltRounds, saltRandom);
      var hashed := bcrypt.hash(password, salt);
      var user := User(nextId, username, email, hashed);
      AppendKeepsUnique(users, user);
      users := users + [user];
      nextId := nextId + 1;
      resp := Registered;
    }

    /**
     * `POST /login`: an unknown email and a wrong password give the same
     * answer; a match issues a one-hour token for `{ id, username }` and
     * returns the account's id beside it.
     */
    method Login(email: string, password: string, clockMs: nat) returns (resp: Response)
      requires Valid()
      ensures resp.status == 200 <==>
        exists i :: 0 <= i < |users| && users[i].email == email && bcrypt.compare(password, users[i].password)
      ensures resp.status != 200 ==> resp == InvalidCredentials
      ensures resp.status == 200 ==>
        exists i :: 0 <= i < |users| && users[i].email == email &&
          resp.body == Session(jwt.sign(Jwt.Issue(users[i].id, users[i].username, clockMs), secret, Jwt.SignDefault), users[i].id)
    {
      var found := FindOne(users, (u: User) => u.email == email);
      if found.None? {
        return InvalidCredentials;
      }
      var user := users[found.value];
      forall i | 0 <= i < |users| && users[i].email == email
        ensures i == found.value
      {
        EmailIdentifiesAccount(users, i, found.value);
      }
      var isMatch := bcrypt.compare(password, user.password);
      if !isMatch {
        return InvalidCredentials;
      }
      var token := jwt.sign(Jwt.Issue(user.id, user.username, clockMs), secret, Jwt.SignDefault);
      resp := Response(200, Session(token, user.id));
    }

    /**
     * `POST /newOrder` behind the gate: stores one order owned by the
     * authenticated identity, whatever `userId` the body carries.
     */
    method NewOrder(req: Request, body: OrderBody, clockMs: nat) returns (resp: Response)
      requires Valid()
      modifies req, this`orders, this`nextId
      ensures Valid() && users == old(users)
      ensures Gate(jwt, secret, req.authorization, clockMs).Reject? ==>
        resp == Rejected(Gate(jwt, secret, req.authorization, clockMs).status) &&
        orders == old(orders) && nextId == old(nextId) && req.user == old(req.user)
      ensures Gate(jwt, secret, req.authorization, clockMs).Next? ==>
        var caller := Gate(jwt, secret, req.authorization, clockMs).user;
        var order := Order(old(nextId), caller.id, body.name, body.qty, body.price, body.mode);
        resp == OrderSaved && req.user == Some(caller) &&
        orders == old(orders) + [order] && nextId == old(nextId) + 1 &&
        OrdersOf(orders, caller.id) == OrdersOf(old(orders), caller.id) + [order]
      ensures forall owner ::
        (Gate(jwt, secret, req.authorization, clockMs).Reject? ||
         owner != Gate(jwt, secret, req.authorization, clockMs).user.id) ==>
        OrdersOf(orders, owner) == OrdersOf(old(orders), owner)
    {
      var outcome := AuthenticateToken(req, clockMs);
      if outcome.Reject? {
        return Rejected(outcome.status);
      }
      var userId := req.user.value.id;
      var order := Order(nextId, userId, body.name, body.qty, body.price, body.mode);
      forall owner {
        OrdersOfAppend(orders, order, owner);
      }
      orders := orders + [order];
      nextId := nextId + 1;
      resp := OrderSaved;
    }

    /**
     * `GET /allorders` behind the gate: exactly the caller's orders, in store
     * order; nothing is stored or changed.
     */
    method AllOrders(req: Request, clockMs: nat) returns (resp: Response)
      modifies req
      ensures Gate(jwt, secret, req.authorization, clockMs).Reject? ==>
        resp == Rejected(Gate(jwt, secret, req.authorization, clockMs).status) && req.user == old(req.user)
      ensures Gate(jwt, secret, req.authorization, clockMs).Next? ==>
        var caller := Gate(jwt, secret, req.authorization, clockMs).user;
        req.user == Some(caller) && resp == Response(200, OrderList(OrdersOf(orders, caller.id)))
    {
      var outcome := AuthenticateToken(req, clockMs);
      if outcome.Reject? {
        return Rejected(outcome.status);
      }
      resp := Response(200, OrderList(OrdersOf(orders, req.user.value.id)));
    }
  }
}
