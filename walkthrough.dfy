/**
 * A client of the routes: the sign-up, login, order and listing sequence
 * the backend exists for, proved from the handlers' contracts alone.
 */
module Walkthrough {
  import opened Wrappers
  import opened Ledger
  import opened AuthGate
  import opened Routes
  import Bcrypt
  import Jwt

  /**
   * Registering a fresh account and logging in with the same email and
   * password succeeds, and the session belongs to the new account.
   */
  method RegisterThenLogin(app: App, username: string, email: string, password: string,
                           saltRandom: seq<bv8>, clockMs: nat)
    returns (registered: Response, login: Response)
    requires app.Valid() && Bcrypt.Sound(app.bcrypt)
    requires !Taken(app.users, email, username)
    modifies app
    ensures app.Valid()
    ensures registered == Registered
    ensures login.status == 200 && login.body.Session? && login.body.userID == old(app.nextId)
  {
    registered := app.Register(username, email, password, saltRandom);
    ghost var newUser := app.users[|app.users| - 1];
    assert app.bcrypt.compare(password, newUser.password);
    login := app.Login(email, password, clockMs);
    ghost var i :| 0 <= i < |app.users| && app.users[i].email == email &&
      login.body == Session(app.jwt.sign(Jwt.Issue(app.users[i].id, app.users[i].username, clockMs), app.secret, Jwt.SignDefault), app.users[i].id);
    EmailIdentifiesAccount(app.users, i, |app.users| - 1);
  }

  /**
   * Alice registers, fails to log in with a wrong password exactly when
   * bcrypt tells the two passwords apart, logs in, submits an order naming
   * another owner in its body, and lists exactly that one order, owned by her.
   */
  method AliceTrades(jwt: Jwt.Codec, bcrypt: Bcrypt.Hasher, saltRandom: seq<bv8>, clockMs: nat)
    returns (registered: Response, wrongLogin: Response, login: Response, submitted: Response, listing: Response)
    requires Jwt.Sound(jwt) && Bcrypt.Sound(bcrypt)
    ensures registered == Registered
    ensures wrongLogin.status == 400 <==>
      !bcrypt.compare("wrong", bcrypt.hash("secret1", Bcrypt.GenSalt(Bcrypt.SaltRounds, saltRandom)))
    ensures login.status == 200 && login.body.Session?
    ensures submitted == OrderSaved
    ensures listing.status == 200 && listing.body.OrderList? && |listing.body.orders| == 1
    ensures listing.body.orders[0].userId == login.body.userID
    ensures listing.body.orders[0].name == Some("AAPL") && listing.body.orders[0].mode == Some("buy")
    ensures listing.body.orders[0].qty == Some(10.0) && listing.body.orders[0].price == Some(150.0)
  {
    var app := new App(Some("s3cret"), jwt, bcrypt);
    registered := app.Register("alice", "a@x.com", "secret1", saltRandom);
    wrongLogin := app.Login("a@x.com", "wrong", clockMs);
    assert bcrypt.compare("secret1", app.users[0].password);
    login := app.Login("a@x.com", "secret1", clockMs);
    var alice := app.users[0];
    assert login.body == Session(jwt.sign(Jwt.Issue(alice.id, alice.username, clockMs), app.secret, Jwt.SignDefault), alice.id);

    var header := Some("Bearer " + login.body.token);
    BearerIssuedToken(jwt, app.secret, alice.id, alice.username, clockMs, clockMs);
    var req := new Request(header);
    var attacker := alice.id + 1;
    submitted := app.NewOrder(req, OrderBody(Some(attacker), Some("AAPL"), Some(10.0), Some(150.0), Some("buy")), clockMs);

    var again := new Request(header);
    listing := app.AllOrders(again, clockMs);
    assert app.orders == [app.orders[0]];
    assert OrdersOf([app.orders[0]], alice.id) == [app.orders[0]];
  }
}
