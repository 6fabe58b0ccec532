# Kite backend: authentication and order ledger, modelled in Dafny

This project models the core of the Kite trading-portfolio backend
(`index.js`). It covers four things:

- the `authenticateToken` middleware, which takes the token from the
  `Authorization` header and answers 401 or 403, or passes the decoded
  identity on;
- account registration with a bcrypt-hashed password;
- login, which issues a one-hour JSON Web Token (RFC 7519) carrying
  `{ id, username }`;
- the owner-scoped order ledger behind `/newOrder` and `/allorders`.

Layout, one module per component:

- `wrappers.dfy` (`Wrappers`): `Option` and `Result`.
- `ledger.dfy` (`Ledger`): the `User` and `Order` documents; `FindOne` (Mongo's `findOne`); `OrdersOf` (`find({ userId })`); the account-uniqueness invariant.
- `auth_header.dfy` (`AuthHeader`): JavaScript's `split(' ')` and the token extraction `authHeader && authHeader.split(' ')[1]`.
- `bcrypt.dfy` (`Bcrypt`): salts with cost 10, and the hashing library as two function values with the guarantees it gives.
- `jwt.dfy` (`Jwt`): the token payload, `sign`/`verify` with the one-hour `exp` claim (section 4.1.4 of RFC 7519), and the signature scheme as two function values with the guarantees it gives.
- `auth_gate.dfy` (`AuthGate`): the middleware's 401 / 403 / pass decision as a function, with lemmas about it.
- `routes.dfy` (`Routes`): the Express app as a class `App`. It holds `users: seq<User>`, `orders: seq<Order>` and an ObjectId counter, and has one method per route plus the middleware. A `Request` class carries the header and the `user` field that the middleware sets.
- `walkthrough.dfy` (`Walkthrough`): two clients of `App` proved from the handlers' contracts alone. One registers and then logs in. The other runs the whole sign-up → login → order → listing sequence.

Foreign code is passed in as parameters:

- bcryptjs is a `Bcrypt.Hasher` of `hash` and `compare`.
- jsonwebtoken's signature is a `Jwt.Codec` of `sign` and `open`.
- The guarantees these libraries give are the ghost predicates `Bcrypt.Sound` and `Jwt.Sound`. Lemmas that need them take them as `requires`.
- The clock is a `clockMs` parameter, in milliseconds. The bytes of a random salt are a `saltRandom` parameter.

An empty token gets 403, not 401:

- An empty `Authorization` header is falsy in JavaScript, so `authHeader && …` gives the empty string, not `undefined`.
- A header such as `Bearer ` with nothing after the space, or `Bearer  x` with two spaces, has the empty string as its second piece.
- `jwt.verify` refuses the empty token, so the gate answers 403 (`AuthGate.EmptyTokenForbidden`).
- These lemmas are about the header value the middleware receives. Node's HTTP parser trims trailing whitespace from header values, so `Bearer ` sent over HTTP arrives as `Bearer` and gets 401. Over HTTP, only an empty header or an inner double space reach the empty-token 403.

## Model

| member | source | states |
|---|---|---|
| `Ledger.FindOne` | index.js:106 | the first stored document matching the filter, none before it matches; None exactly when no document matches |
| `Ledger.AppendKeepsUnique` | index.js:106-120 | storing an account whose email and username are not taken, under a new id, keeps emails, usernames and ids unique |
| `Ledger.EmailIdentifiesAccount` | index.js:132 | with unique emails, two accounts with the same email are the same account, so `findOne({ email })` finds the only candidate |
| `Ledger.OrdersOf` | index.js:76 | the listing holds only the owner's orders, and every stored order of the owner is in it |
| `Ledger.OrdersOfAppend` | index.js:76-90 | storing one order extends its owner's listing by exactly that order at the end and leaves every other owner's listing unchanged |
| `AuthHeader.Split` | index.js:62 | `split(' ')` gives at least one piece and no piece contains a space |
| `AuthHeader.JoinSplit` | index.js:62 | joining the pieces with single spaces gives back the header |
| `AuthHeader.SplitJoin` | index.js:62 | space-free pieces joined with spaces split back into the same pieces |
| `AuthHeader.NoTokenIff` | index.js:61-64 | no token exactly when the header is absent, or non-empty with no space |
| `AuthHeader.SchemeTokenRest` | index.js:62 | `<scheme> <token>` followed by nothing or by a space yields the token; the scheme word is not checked and further pieces are ignored |
| `Bcrypt.DigestIsNotPlaintext` | index.js:112-117 | a password that is not itself digest-length differs from its stored digest |
| `Jwt.Verify` | index.js:66 | a token verifies only when it is non-empty, its signature opens to the payload, an `nbf` present is not in the future and an `exp` present is; an empty token is refused |
| `Jwt.VerifyIff` | index.js:66-68 | with a sound signature scheme, a token verifies to a payload exactly when it is that payload signed under the secret, in some algorithm and serialization, and its `nbf`/`exp` checks pass now; altered tokens do not verify |
| `Jwt.NoExpiryNeverExpires` | index.js:66 | a payload signed without `exp` or `nbf` verifies at every time, so a token signed with the public fallback secret and no `exp` is never refused |
| `Jwt.IssuedTokenLifetime` | index.js:142-146 | a login token verifies to its own payload during the hour after issue and fails as expired afterwards |
| `Jwt.SignedTokenHasNoSpace` | index.js:142-148 | a token signed in any form is non-empty and space-free, so it can be sent as the second piece of a header |
| `AuthGate.UnauthorizedIff` | index.js:61-64 | 401 exactly when the header is absent or non-empty without a space; that answer does not depend on the token service |
| `AuthGate.ForbiddenIff` | index.js:62-67 | a header `<scheme> <token> …` gets 403 exactly when the token is no payload signed under the secret whose `nbf`/`exp` checks pass now: forged, altered, expired and not-yet-active tokens alike |
| `AuthGate.EmptyTokenForbidden` | index.js:62-67 | an empty header, or `<scheme> ` with nothing after the space, is answered 403 whatever the token service |
| `AuthGate.PassesIff` | index.js:62-69 | a header `<scheme> <token> …` passes with an identity exactly when the token is that identity signed under the secret, in some form, and its `nbf`/`exp` checks pass now |
| `AuthGate.BearerIssuedToken` | index.js:60-71 | `Bearer <login token>` passes the gate with the issued identity within the hour, and gets 403 afterwards |
| `Routes.App.constructor` | index.js:17 | the signing secret is `JWT_SECRET`, or the default when that is unset or empty; the model's collections start empty |
| `Routes.App.AuthenticateToken` | index.js:60-71 | the middleware answers as the gate decides; it sets `req.user` to the decoded identity on success and leaves it untouched otherwise |
| `Routes.App.Register` | index.js:102-125 | a clashing email or username gives 400 and no change; otherwise it gives 201 and appends exactly one account whose password field is the digest under a cost-10 salt; uniqueness is preserved |
| `Routes.App.Login` | index.js:128-152 | 200 exactly when some account has the email and its digest matches the password; every failure is the same 400 "Invalid credentials."; a success carries the token for that account's `{ id, username }` and its id; nothing is stored |
| `Routes.App.NewOrder` | index.js:84-97 | on 401/403 nothing changes; otherwise exactly one order is appended, owned by the authenticated id whatever the body says; it answers 201 and extends only the caller's listing |
| `Routes.App.AllOrders` | index.js:74-81 | on 401/403 no handler runs; otherwise it answers 200 with exactly the caller's orders in store order, and nothing is changed |
| `Walkthrough.RegisterThenLogin` | index.js:102-152 | after a registration with unused email and username, logging in with the same email and password succeeds for the new account |
| `Walkthrough.AliceTrades` | index.js:60-152 | register (201), wrong-password login (400 exactly when bcrypt tells the passwords apart), login, an order with `Bearer <token>` naming another owner in its body, then a listing of exactly that one order, owned by Alice, with the submitted name, quantity, price and mode |

## Left out

- Express wiring, CORS, body parsing, dotenv and `app.listen` are transport and process plumbing.
- The MongoDB connection and model registration are a foreign persistence library. The collections are plain sequences. `schemas/UserSchema.js` is not part of this model.
- `/allHoldings` and `/allPositions` are pass-through queries with no logic.
- The 500 branches of every route are not modelled. The `catch` blocks at index.js:78, :93, :122 and :149 answer store failures, which a store of values does not have. They also answer errors that depend on the data:
  - mongoose failing to cast a non-numeric `qty` or `price` when the order is saved (index.js:90);
  - an order without `userId` when the token payload has no `id` (index.js:87-90);
  - bcrypt throwing on a missing password (index.js:112).
  The inputs that cause these are outside the model, as the lines below say.
- The model starts from an empty database. The process actually connects to an existing one (index.js:29), whose collections may already hold documents. `Routes.App.Valid` holds of a real store only if every document in it was written by this sequential history of `/register` and `/newOrder`.
- bcrypt's key derivation, salt encoding and 72-byte password truncation are foreign. `Bcrypt.Sound` keeps only two facts: a password matches its own digests, and digests are 60 characters long.
- HS256 signing, base64url encoding and key rotation are foreign. `Jwt.Sound` keeps three facts: tokens are compact; a token signed in any form opens to its payload; and a token opens only if it is a signature of its payload under the secret. A form is the algorithm (HS256, HS384 or HS512, all accepted by `verify` for a string secret) plus the header and JSON serialization, so several tokens open to one payload. `sign` at login uses one fixed form, `Jwt.SignDefault`.
- Only well-typed payloads are modelled. Someone who knows the secret can sign other payloads: anyone can while `JWT_SECRET` is unset, since the fallback at index.js:17 is public. The source handles them as follows:
  - A payload without `id`: `req.user.id` is `undefined`. The model gives every payload an id.
  - An `id` that is not an ObjectId: `find` (index.js:76) and `save` (index.js:90) throw a cast error, and the route answers 500. The model's ids are always ObjectIds.
  - A non-numeric `exp` or `nbf`: `verify` refuses the token ("invalid exp value", "invalid nbf value"), and the gate answers 403. The model's `exp` and `nbf` are integers when present.
  Payloads without `exp` or with `nbf` are modelled (`Jwt.Active`, `Jwt.NoExpiryNeverExpires`).
- Request-body fields of `/register` and `/login` are strings. Missing (`undefined`) fields, and the exceptions they raise in bcrypt, are not modelled. `qty` and `price` are `real`: JavaScript's double arithmetic and mongoose's type casting are not modelled.
- ObjectIds are drawn from a counter shared by both collections.
- When several documents match, `findOne` returns the first one in store order. MongoDB promises no order. Under the uniqueness invariant only one account can match an email.
- Concurrent requests are not modelled. The duplicate check in `/register` is only sound in this sequential model.
