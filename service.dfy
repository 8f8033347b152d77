/**
 * The account, authentication and points endpoints of the user-management
 * service (main.py): the bearer-token guard, registration, login, the profile,
 * the leaderboard and the internal gamification events.
 *
 * The pure lookups are functions over the `users` table (a map from user id to
 * row); registration and event processing change the table and are methods of
 * `AccountStore`, which owns it.
 */
module Service {
  import opened Wrappers
  import opened UserModel
  import opened Auth
  import opened Store

  /** Points awarded per event kind. */
  const PointsNewReport := 10
  const PointsConfirmIssue := 5
  const PointsResolved := 20

  /** An `HTTPException`: status code and detail message. */
  datatype HttpError = HttpError(status: int, detail: string)

  const InvalidToken := HttpError(401, "Invalid or expired token")
  const UnknownSubject := HttpError(401, "User not found")
  const EmailAlreadyRegistered := HttpError(400, "Email already registered")
  const InvalidCredentials := HttpError(401, "Invalid credentials")
  const UnknownEventUser := HttpError(404, "User not found")
  /** The store refused the commit (a value too wide for its column); the request fails with 500. */
  const StoreRejected := HttpError(500, "Internal Server Error")

  const EventProcessed := "Event processed successfully"

  /** The closed set of gamification events; other kinds are refused before reaching the ledger. */
  datatype EventType = NewReport | ConfirmIssue | ReportResolved

  datatype EventRequest = EventRequest(userId: int, eventType: EventType)

  datatype EventResponse = EventResponse(message: string, userId: int, pointsAdded: int, newTotal: int)

  /** The fixed award of each event kind; every award is positive and tells the kind apart. */
  function PointsFor(kind: EventType): (points: int)
    ensures points > 0
    ensures kind == NewReport <==> points == PointsNewReport
    ensures kind == ConfirmIssue <==> points == PointsConfirmIssue
    ensures kind == ReportResolved <==> points == PointsResolved
  {
    match kind
    case NewReport => PointsNewReport
    case ConfirmIssue => PointsConfirmIssue
    case ReportResolved => PointsResolved
  }

  /** An account after an award: both counters rise by the same amount, nothing else moves. */
  function Credit(a: Account, points: int): (c: Account)
    ensures c.totalPoints - a.totalPoints == points && c.spendablePoints - a.spendablePoints == points
    ensures c.(totalPoints := a.totalPoints, spendablePoints := a.spendablePoints) == a
  {
    a.(totalPoints := a.totalPoints + points, spendablePoints := a.spendablePoints + points)
  }

  /** The claims a token carries for an account: its id, email and role. */
  function TokenDataFor(a: Account): (data: TokenData)
    ensures data.userId == Some(a.userId) && data.email == a.email && data.role == a.role
  {
    TokenData(Some(a.userId), a.email, a.role)
  }

  /** The register/login response for an account, with a token issued at `now`. */
  function SessionFor(crypto: Crypto, a: Account, now: int): (s: SessionResponse)
    ensures s.userId == a.userId && s.name == a.name && s.email == a.email && s.role == a.role
    ensures s.token == CreateAccessToken(crypto, TokenDataFor(a), now)
  {
    SessionResponse(a.userId, a.name, a.email, a.role, CreateAccessToken(crypto, TokenDataFor(a), now))
  }

  /**
   * `get_current_user`: a token that does not decode is refused as invalid; a token
   * whose subject is not a row is refused as an unknown user; otherwise the row of
   * the subject is the principal. Email and role in the token are not re-checked.
   */
  function CurrentUser(accounts: map<int, Account>, crypto: Crypto, token: string, now: int): (r: Result<Account, HttpError>)
    requires Keyed(accounts)
    ensures crypto.decode(token, now).None? <==> r == Err(InvalidToken)
    ensures r == Err(UnknownSubject) <==>
      crypto.decode(token, now).Some? && !SubjectKnown(accounts, crypto.decode(token, now).value)
    ensures r.Ok? ==>
      && r.value in accounts.Values
      && crypto.decode(token, now).Some?
      && crypto.decode(token, now).value.data.userId == Some(r.value.userId)
  {
    match crypto.decode(token, now)
    case None => Err(InvalidToken)
    case Some(claims) =>
      if SubjectKnown(accounts, claims) then
        var id := claims.data.userId.value;
        assert accounts[id].userId == id;
        Ok(accounts[id])
      else Err(UnknownSubject)
  }

  /** The claims name a user id that has a row. */
  predicate SubjectKnown(accounts: map<int, Account>, claims: Claims) {
    claims.data.userId.Some? && claims.data.userId.value in accounts
  }

  /** A token issued for a stored account lets that account in for 24 hours. */
  lemma IssuedTokenAuthenticates(accounts: map<int, Account>, crypto: Crypto, id: int, issuedAt: int, now: int)
    requires Keyed(accounts) && TokenRoundTrips(crypto) && id in accounts
    requires now <= issuedAt + AccessTokenLifetime
    ensures CurrentUser(accounts, crypto, CreateAccessToken(crypto, TokenDataFor(accounts[id]), issuedAt), now) == Ok(accounts[id])
  {
    DecodeWithinLifetime(crypto, TokenDataFor(accounts[id]), issuedAt, now);
  }

  /** After 24 hours the same token is refused as invalid or expired, whoever it names. */
  lemma ExpiredTokenRefused(accounts: map<int, Account>, crypto: Crypto, a: Account, issuedAt: int, now: int)
    requires Keyed(accounts) && TokenRoundTrips(crypto)
    requires now > issuedAt + AccessTokenLifetime
    ensures CurrentUser(accounts, crypto, CreateAccessToken(crypto, TokenDataFor(a), issuedAt), now) == Err(InvalidToken)
  {
    DecodeAfterLifetime(crypto, TokenDataFor(a), issuedAt, now);
  }

  /** `get_profile`: the current account's id, name, email and both point counters. */
  function Profile(accounts: map<int, Account>, crypto: Crypto, token: string, now: int): (r: Result<ProfileResponse, HttpError>)
    requires Keyed(accounts)
    ensures r.Err? <==> CurrentUser(accounts, crypto, token, now).Err?
    ensures r.Err? ==> r.error == CurrentUser(accounts, crypto, token, now).error
    ensures r.Ok? ==>
      var a := CurrentUser(accounts, crypto, token, now).value;
      r.value == ProfileResponse(a.userId, a.name, a.email, a.totalPoints, a.spendablePoints)
  {
    match CurrentUser(accounts, crypto, token, now)
    case Err(e) => Err(e)
    case Ok(a) => Ok(ProfileResponse(a.userId, a.name, a.email, a.totalPoints, a.spendablePoints))
  }

  /**
   * `login_user`: the account found by email, if its password verifies, gets a fresh
   * token; every failure is the one undistinguished "Invalid credentials".
   */
  function Login(accounts: map<int, Account>, crypto: Crypto, req: LoginRequest, now: int): (r: Result<LoginResponse, HttpError>)
    ensures r.Err? ==> r.error == InvalidCredentials
    ensures r.Ok? ==>
      exists a :: a in accounts.Values && a.email == req.email && crypto.verify(req.password, a.passwordHash) && r.value == SessionFor(crypto, a, now)
    ensures !EmailTaken(accounts, req.email) ==> r.Err?
  {
    match FindByEmail(accounts, req.email)
    case None => Err(InvalidCredentials)
    case Some(a) =>
      if crypto.verify(req.password, a.passwordHash) then Ok(SessionFor(crypto, a, now))
      else Err(InvalidCredentials)
  }

  /** With unique emails, login for a stored email succeeds exactly when the password verifies. */
  lemma LoginOutcome(accounts: map<int, Account>, crypto: Crypto, id: int, password: string, now: int)
    requires EmailsUnique(accounts) && id in accounts
    ensures Login(accounts, crypto, LoginRequest(accounts[id].email, password), now) ==
      if crypto.verify(password, accounts[id].passwordHash) then Ok(SessionFor(crypto, accounts[id], now))
      else Err(InvalidCredentials)
  {
    FindByEmailUnique(accounts, id);
  }

  /** An unknown email and a wrong password produce the very same response. */
  lemma LoginFailuresAlike(accounts: map<int, Account>, crypto: Crypto, id: int, wrongPassword: string, unknownEmail: string, anyPassword: string, now: int)
    requires EmailsUnique(accounts) && id in accounts
    requires !crypto.verify(wrongPassword, accounts[id].passwordHash)
    requires !EmailTaken(accounts, unknownEmail)
    ensures Login(accounts, crypto, LoginRequest(unknownEmail, anyPassword), now)
         == Login(accounts, crypto, LoginRequest(accounts[id].email, wrongPassword), now)
         == Err(InvalidCredentials)
  {
    LoginOutcome(accounts, crypto, id, wrongPassword, now);
  }

  /** An account stored with the hash of a password logs in with that password. */
  lemma StoredPasswordLogsIn(accounts: map<int, Account>, crypto: Crypto, id: int, password: string, now: int)
    requires EmailsUnique(accounts) && id in accounts && HashVerifies(crypto)
    requires accounts[id].passwordHash == crypto.hash(password)
    ensures Login(accounts, crypto, LoginRequest(accounts[id].email, password), now) == Ok(SessionFor(crypto, accounts[id], now))
  {
    LoginOutcome(accounts, crypto, id, password, now);
  }

  /**
   * `get_leaderboard`: the top rows by points, each as its 1-based rank, name and
   * points.
   */
  function Leaderboard(accounts: map<int, Account>): (board: seq<LeaderboardEntry>)
    requires Keyed(accounts)
    ensures |board| == |TopAccounts(accounts)|
    ensures forall i :: 0 <= i < |board| ==>
      board[i] == LeaderboardEntry(i + 1, TopAccounts(accounts)[i].name, TopAccounts(accounts)[i].totalPoints)
  {
    RankEntries(TopAccounts(accounts))
  }

  /**
   * The board lists at most ten entries, ranked 1, 2, ... with points never rising
   * down the list, and no account left off it has more points than one listed.
   */
  lemma LeaderboardRanked(accounts: map<int, Account>)
    requires Keyed(accounts)
    ensures |Leaderboard(accounts)| == if |accounts| < LeaderboardSize then |accounts| else LeaderboardSize
    ensures forall i :: 0 <= i < |Leaderboard(accounts)| ==> Leaderboard(accounts)[i].rank == i + 1
    ensures forall i, j :: 0 <= i < j < |Leaderboard(accounts)| ==>
      Leaderboard(accounts)[i].totalPoints >= Leaderboard(accounts)[j].totalPoints
    ensures forall a, i :: a in accounts.Values && a !in TopAccounts(accounts) && 0 <= i < |Leaderboard(accounts)| ==>
      a.totalPoints <= Leaderboard(accounts)[i].totalPoints
  {
    var top := TopAccounts(accounts);
    var board := Leaderboard(accounts);
    assert forall i :: 0 <= i < |board| ==> board[i].totalPoints == top[i].totalPoints;
  }

  /** Numbers the rows 1, 2, ... and keeps each row's name and points. */
  function RankEntries(top: seq<Account>): (board: seq<LeaderboardEntry>)
    ensures |board| == |top|
    ensures forall i :: 0 <= i < |board| ==> board[i] == LeaderboardEntry(i + 1, top[i].name, top[i].totalPoints)
  {
    seq(|top|, i requires 0 <= i < |top| => LeaderboardEntry(i + 1, top[i].name, top[i].totalPoints))
  }

  /** Two accounts with different points are listed highest first, ranked 1 and 2. */
  lemma LeaderboardOfTwo(low: Account, high: Account)
    requires low.userId == 1 && high.userId == 2 && low.totalPoints < high.totalPoints
    ensures Leaderboard(map[1 := low, 2 := high]) ==
      [LeaderboardEntry(1, high.name, high.totalPoints), LeaderboardEntry(2, low.name, low.totalPoints)]
  {
    var accounts := map[1 := low, 2 := high];
    assert accounts.Values == {low, high};
    var top := TopAccounts(accounts);
    assert |top| == 2;
    assert top[0] != top[1];
    assert top[0].totalPoints >= top[1].totalPoints;
    assert top[0] == high && top[1] == low;
  }

  /**
   * The `users` table with the id sequence behind it, and the two operations that
   * change it. `crypto` is the process-wide hashing and signing configuration.
   */
  class AccountStore {
    var accounts: map<int, Account>
    var nextId: int
    const crypto: Crypto

    ghost predicate Valid()
      reads this
    {
      TableInvariant(accounts, nextId)
    }

    constructor (crypto: Crypto)
      ensures Valid() && accounts == map[] && nextId == 1 && this.crypto == crypto
    {
      accounts := map[];
      nextId := 1;
      this.crypto := crypto;
    }

    /**
     * `register_user`: refuses an email already present; otherwise inserts one row
     * under a fresh id holding the request's name, email and role (default
     * "Citizen"), the hash of the password and zero points, and answers with a token
     * for that row. A row too wide for its columns is refused by the store.
     */
    method Register(req: RegisterRequest, now: int) returns (r: Result<RegisterResponse, HttpError>)
      requires Valid()
      modifies this
      ensures Valid()
      ensures EmailTaken(old(accounts), req.email) ==>
        r == Err(EmailAlreadyRegistered) && accounts == old(accounts) && nextId == old(nextId)
      ensures !EmailTaken(old(accounts), req.email) ==>
        var row := NewAccount(old(nextId), req, crypto.hash(req.password), now);
        if FitsColumns(row) then
          && old(nextId) !in old(accounts)
          && accounts == old(accounts)[old(nextId) := row]
          && nextId == old(nextId) + 1
          && r == Ok(SessionFor(crypto, row, now))
        else
          r == Err(StoreRejected) && accounts == old(accounts) && nextId == old(nextId)
    {
      var existing := FindByEmail(accounts, req.email);
      if existing.Some? {
        return Err(EmailAlreadyRegistered);
      }
      var hashed := crypto.hash(req.password);
      var row := NewAccount(nextId, req, hashed, now);
      if !FitsColumns(row) {
        return Err(StoreRejected);
      }
      InsertKeepsInvariant(accounts, nextId, row);
      accounts := accounts[nextId := row];
      nextId := nextId + 1;
      var token := CreateAccessToken(crypto, TokenDataFor(row), now);
      r := Ok(SessionResponse(row.userId, row.name, row.email, row.role, token));
    }

    /**
     * `process_gamification_event`: an unknown user id is refused and nothing
     * changes; otherwise the target's total and spendable points both rise by the
     * event's award, no other row changes, and the answer reports the award and the
     * new total. A total outside the store's integer range is refused by the store.
     */
    method ProcessEvent(event: EventRequest) returns (r: Result<EventResponse, HttpError>)
      requires Valid()
      modifies this
      ensures Valid() && nextId == old(nextId) && accounts.Keys == old(accounts).Keys
      ensures event.userId !in old(accounts) ==> r == Err(UnknownEventUser) && accounts == old(accounts)
      ensures event.userId in old(accounts) ==>
        var before := old(accounts)[event.userId];
        var points := PointsFor(event.eventType);
        if FitsColumns(Credit(before, points)) then
          && accounts == old(accounts)[event.userId := Credit(before, points)]
          && r == Ok(EventResponse(EventProcessed, event.userId, points, before.totalPoints + points))
        else
          r == Err(StoreRejected) && accounts == old(accounts)
      ensures forall id :: id in old(accounts) && id != event.userId ==> accounts[id] == old(accounts)[id]
      ensures forall id :: id in old(accounts) ==> old(accounts)[id].totalPoints <= accounts[id].totalPoints
    {
      if event.userId !in accounts {
        return Err(UnknownEventUser);
      }
      var user := accounts[event.userId];
      var awarded := 0;
      match event.eventType {
        case NewReport => awarded := PointsNewReport;
        case ConfirmIssue => awarded := PointsConfirmIssue;
        case ReportResolved => awarded := PointsResolved;
      }
      user := user.(totalPoints := user.totalPoints + awarded);
      user := user.(spendablePoints := user.spendablePoints + awarded);
      if !FitsColumns(user) {
        return Err(StoreRejected);
      }
      accounts := accounts[event.userId := user];
      r := Ok(EventResponse(EventProcessed, user.userId, awarded, user.totalPoints));
    }
  }

  /**
   * The event sequence the service's tests walk through: a fresh account earns 10
   * for a new report, 5 for a confirmation and 20 for a resolution, reaching 10, 15
   * and 35 points.
   */
  method PointsProgression(crypto: Crypto, now: int) returns (totals: seq<int>)
    requires |crypto.hash("password")| <= PasswordHashMaxLength
    ensures totals == [10, 15, 35]
  {
    var store := new AccountStore(crypto);
    var reg := store.Register(RegisterRequest("Test User", "test@example.com", "password", Some("citizen")), now);
    assert !EmailTaken(map[], "test@example.com");
    var id := reg.value.userId;
    var first := store.ProcessEvent(EventRequest(id, NewReport));
    var second := store.ProcessEvent(EventRequest(id, ConfirmIssue));
    var third := store.ProcessEvent(EventRequest(id, ReportResolved));
    totals := [first.value.newTotal, second.value.newTotal, third.value.newTotal];
  }

  /**
   * Events carry no identity, so delivering the same event twice awards its points
   * twice.
   */
  method ReplayedEventAwardsTwice(store: AccountStore, event: EventRequest)
      returns (first: Result<EventResponse, HttpError>, second: Result<EventResponse, HttpError>)
    requires store.Valid()
    modifies store
    ensures store.Valid()
    ensures first.Ok? ==> event.userId in old(store.accounts) && event.userId in store.accounts
    ensures first.Ok? && second.Ok? ==>
      && second.value.newTotal == first.value.newTotal + PointsFor(event.eventType)
      && store.accounts[event.userId].totalPoints == old(store.accounts)[event.userId].totalPoints + 2 * PointsFor(event.eventType)
  {
    first := store.ProcessEvent(event);
    second := store.ProcessEvent(event);
  }

  /** A second registration with the same email is refused and adds no account. */
  method RegisterTwice(store: AccountStore, req: RegisterRequest, other: RegisterRequest, now: int)
      returns (first: Result<RegisterResponse, HttpError>, second: Result<RegisterResponse, HttpError>)
    requires store.Valid() && other.email == req.email
    modifies store
    ensures store.Valid()
    ensures first.Ok? ==> second == Err(EmailAlreadyRegistered) && |store.accounts| == old(|store.accounts|) + 1
  {
    first := store.Register(req, now);
    var size := |store.accounts|;
    second := store.Register(other, now);
    if first.Ok? {
      assert store.accounts[first.value.userId].email == req.email;
    }
  }

  /**
   * Register, then use the returned token and credentials: the token authenticates
   * the new account for 24 hours, and logging in with the same email and password
   * succeeds for the same account.
   */
  method RegisterThenSignIn(store: AccountStore, req: RegisterRequest, now: int, later: int)
      returns (reg: Result<RegisterResponse, HttpError>, login: Result<LoginResponse, HttpError>, principal: Result<Account, HttpError>)
    requires store.Valid() && HashVerifies(store.crypto) && TokenRoundTrips(store.crypto)
    requires now <= later <= now + AccessTokenLifetime
    modifies store
    ensures reg.Ok? ==> login.Ok? && login.value.userId == reg.value.userId
    ensures reg.Ok? ==> principal.Ok? && principal.value.userId == reg.value.userId && principal.value.email == req.email
  {
    reg := store.Register(req, now);
    login := Login(store.accounts, store.crypto, LoginRequest(req.email, req.password), later);
    principal := CurrentUser(store.accounts, store.crypto, if reg.Ok? then reg.value.token else "", later);
    if reg.Ok? {
      var id := reg.value.userId;
      StoredPasswordLogsIn(store.accounts, store.crypto, id, req.password, later);
      IssuedTokenAuthenticates(store.accounts, store.crypto, id, now, later);
    }
  }
}
