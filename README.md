# User management: accounts, authentication and points

A Dafny model of the account service of a civic-issue reporting system. The
service keeps a `users` table. It registers accounts with a unique email and a
hashed password, and it logs them in with a signed bearer token that expires
after 24 hours. Behind that token sit the current user's profile and a top-10
leaderboard. An internal endpoint credits points to an account when a report is
filed, confirmed or resolved.

Modules:

- `Wrappers` (`wrappers.dfy`) — `Option` and `Result`.
- `UserModel` (`user_model.dfy`) — the `users` row (`Account`), the request and
  response records, and the column limits and defaults. It also holds the table
  invariant `TableInvariant`:
  - every row sits under its own id, and ids lie below the next fresh id;
  - every row fits its columns;
  - emails are unique.
- `Auth` (`auth.dfy`) — password hashing and the token codec, as an
  uninterpreted `Crypto` record. Token creation puts an `exp` claim 24 hours
  after the issue time.
  - `HashVerifies` states what the model relies on about hashing: a password
    verifies against its own hash.
  - `TokenRoundTrips` states what it relies on about tokens: a token decodes to
    the claims it was made from up to its `exp`, and to nothing after.
- `Store` (`store.dfy`) — the queries the endpoints issue, over a table
  `map<int, Account>`:
  - a scan of the rows in ascending id order;
  - `.first()` over an email filter (`FindByEmail`);
  - `ORDER BY total_points DESC LIMIT 10` (`TopAccounts`). It is specified by
    `IsTopSelection`: at most ten distinct rows of the table, points never
    rising down the list, and no row left off with more points than a listed one.
- `Service` (`service.dfy`) — the endpoints:
  - the token guard (`CurrentUser`), `Profile`, `Login` and `Leaderboard` are
    functions of the table;
  - registration and event processing change the table, so they are methods of
    the class `AccountStore`, which owns the table and the id counter and keeps
    `TableInvariant` as its `Valid()`.

The clock is a parameter: `now`, in whole seconds. The store's rejection of a
value too wide for its column is modelled as an error result with status 500
that leaves the table as it was. The production store is PostgreSQL, where
`VARCHAR(n)` and `INTEGER` are enforced. The Python code checks none of these
limits itself.

## Model

| member | source | states |
|---|---|---|
| UserModel.StoredRole | models/user.py:29-33 | a registration without a role (omitted or null) stores "Citizen"; otherwise the requested role is stored unchanged |
| UserModel.NewAccount | models/user.py:11-21 | the inserted row carries the request's name, email and stored role, the given password hash (not the password), zero total and spendable points, and the creation time |
| UserModel.InsertKeepsInvariant | models/user.py:14-18 | inserting a row that fits its columns, under the next fresh id and with an email not yet taken, keeps ids keyed, columns within limits and emails unique; the fresh id was not in use |
| Auth.CreateAccessToken | auth_utils.py:22-26 | the token encodes the given claims with an expiry 24 hours (1440 minutes) after the issue time |
| Auth.DecodeWithinLifetime | auth_utils.py:22-33 | a token decodes back to exactly the claims and expiry it was created with, at any time up to 24 hours after issue |
| Auth.DecodeAfterLifetime | auth_utils.py:28-33 | after 24 hours a token decodes to nothing |
| Store.FindByEmail | main.py:124-125 | `.first()` on an email filter finds a row with that email if and only if some row has it, and finds nothing otherwise |
| Store.FindByEmailUnique | models/user.py:16 | with unique emails, looking up a stored row's email finds exactly that row |
| Store.SortByPoints | main.py:207 | ordering by points gives a permutation of the rows with points never rising |
| Store.TopAccounts | main.py:205-210 | the leaderboard query returns min(table size, 10) distinct rows of the table by points descending; no row left off has more points than any row returned |
| Service.PointsFor | main.py:233-240 | a new report awards 10, a confirmation 5 and a resolution 20; every award is positive and each amount identifies its event kind |
| Service.Credit | main.py:246-247 | an award raises total and spendable points by the same amount and leaves every other field of the account as it was |
| Service.TokenDataFor | main.py:142-146 | the token claims are the account's user id, email and role |
| Service.SessionFor | main.py:148-154 | the register and login response echoes the account's id, name, email and role with a token for its claims |
| Service.CurrentUser | main.py:95-115 | a token that does not decode is rejected with 401 "Invalid or expired token", and only such a token is; a decoded subject without a row is rejected with 401 "User not found", and only such a subject is; otherwise the result is the stored row whose id the token names |
| Service.IssuedTokenAuthenticates | main.py:100-115 | within 24 hours, a token issued for a stored account makes the guard return that account |
| Service.ExpiredTokenRefused | main.py:100-105 | after 24 hours, any issued token is rejected as invalid or expired |
| Service.Profile | main.py:187-196 | the profile is the current account's id, name, email, total and spendable points; the guard's errors pass through unchanged |
| Service.Login | main.py:160-182 | every failure is 401 "Invalid credentials"; an email no row has always fails; a success is the session of a stored row with that email whose hash verifies the password |
| Service.LoginOutcome | main.py:163-174 | with unique emails, logging in with a stored email succeeds with that row's session exactly when the password verifies, and fails with "Invalid credentials" otherwise |
| Service.LoginFailuresAlike | main.py:163-168 | an unknown email and a wrong password for a known email give the identical response |
| Service.StoredPasswordLogsIn | main.py:131-174 | an account stored with the hash of a password logs in with that password and receives its own session |
| Service.Leaderboard | main.py:212-215 | entry i is the i-th row of the top selection, with rank i + 1 and only that row's name and points |
| Service.LeaderboardRanked | main.py:202-216 | the board has min(table size, 10) entries, ranked 1, 2, ... in order, with points never rising; no account left off has more points than a listed entry |
| Service.LeaderboardOfTwo | tests/test_main.py:178-193 | with two accounts of different points, the board is the higher one at rank 1, then the lower one at rank 2 |
| Service.AccountStore.Register | main.py:121-154 | an email already present fails with 400 "Email already registered" and changes nothing; otherwise exactly one row is added under the fresh id, holding the new account (hashed password, default role, 0/0 points), and the response is its session; a row too wide for its columns fails with 500 and changes nothing; the table invariant is kept |
| Service.AccountStore.ProcessEvent | main.py:221-257 | an unknown user fails with 404 "User not found" and changes nothing; otherwise only the target row changes, with both counters raised by the event's award; the response reports the award and the new total (old total + award); a total beyond the 32-bit column fails with 500 and changes nothing; no account's total falls; the table invariant is kept |
| Service.PointsProgression | tests/test_main.py:200-244 | a new account that receives a new report, a confirmation and a resolution reaches totals 10, 15 and 35 |
| Service.ReplayedEventAwardsTwice | main.py:221-257 | the same event processed twice awards its points twice |
| Service.RegisterTwice | tests/test_main.py:112-124 | after a successful registration, a second one with the same email fails with "Email already registered" and the table grows by one row only |
| Service.RegisterThenSignIn | tests/test_main.py:127-169 | after a successful registration, the same email and password log in as the new account, and the returned token authenticates it for 24 hours |

## Left out

- Password hashing (bcrypt) and token signing (HS256 JWT) are not modelled. They
  are the uninterpreted `Crypto` record, and the model relies on them only
  through `HashVerifies` and `TokenRoundTrips`. The secret key, the algorithm
  name and bcrypt's own input-length limits are not modelled.
- Email syntax validation (`EmailStr`) and any normalisation of emails are not
  modelled. Emails are compared as plain strings.
- The wire names of the event kinds are not modelled. A kind outside the three
  is a request-validation error (422) and never reaches the endpoint, so the
  "unknown event type" branch at main.py:241-243 is unreachable in the model.
- HTTP success statuses (201 for register, 200 elsewhere), routing, the
  `Authorization` header and response serialisation are not modelled.
- The health probes, `/db-check`, CORS and the table creation at start-up
  (main.py:26-88, 260-273) are not modelled.
- database.py, user_management/ and models/models.py are not part of this model.
- Concurrency, transactions and races between two registrations of the same
  email are not modelled. Each request is one sequential step.
- Ids come from a counter that starts at 1 and advances only on a committed
  insert. Gaps that a database sequence can leave are not modelled.
- The row's key is `user_id`, as main.py reads it. The ORM class at
  models/user.py:14 names the column `id`.
- The column limits and the 32-bit `INTEGER` range are enforced by PostgreSQL.
  The SQLite store used by the tests does not enforce `VARCHAR` widths, so
  there an over-long row would be accepted.
- Event deduplication is not modelled, because the code has none. The points
  ledger is described as idempotency-aware, but events carry no identity.
  `ReplayedEventAwardsTwice` shows that a replayed event is awarded twice.
- Store.TopAccounts: the order among rows with equal points is left open,
  because the query gives no secondary sort key. The model sorts stably in
  ascending id order, but its contracts claim no tie order.
- Service.CurrentUser: the email and role claims in a token are not checked
  against the row. The code does not check them either; only the id is used.
