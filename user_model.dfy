/**
 * The `users` table and the request/response records of the user-management
 * service (models/user.py).
 */
module UserModel {
  import opened Wrappers

  /** Column widths of the `users` table. */
  const NameMaxLength := 100
  const EmailMaxLength := 100
  const PasswordHashMaxLength := 255
  const RoleMaxLength := 50

  /** Range of the store's `Integer` column (32-bit in PostgreSQL). */
  const IntegerMin := -0x8000_0000
  const IntegerMax := 0x7fff_ffff

  /** Role given to an account whose registration names none. */
  const DefaultRole := "Citizen"

  /** One row of the `users` table; `createdAt` is in seconds since the epoch. */
  datatype Account = Account(
    userId: int,
    name: string,
    email: string,
    passwordHash: string,
    role: string,
    totalPoints: int,
    spendablePoints: int,
    createdAt: int)

  /** Body of a registration; `role` is `None` when the client omits it or sends null. */
  datatype RegisterRequest = RegisterRequest(name: string, email: string, password: string, role: Option<string>)

  datatype LoginRequest = LoginRequest(email: string, password: string)

  /** Body returned by both register and login: the account summary plus a bearer token. */
  datatype SessionResponse = SessionResponse(userId: int, name: string, email: string, role: string, token: string)

  type RegisterResponse = SessionResponse
  type LoginResponse = SessionResponse

  datatype ProfileResponse = ProfileResponse(userId: int, name: string, email: string, totalPoints: int, spendablePoints: int)

  /** A leaderboard line: rank, name and points only, never the email or the id. */
  datatype LeaderboardEntry = LeaderboardEntry(rank: int, name: string, totalPoints: int)

  /** The store accepts a row only if every column fits its declared width. */
  predicate FitsColumns(a: Account) {
    && |a.name| <= NameMaxLength
    && |a.email| <= EmailMaxLength
    && |a.passwordHash| <= PasswordHashMaxLength
    && |a.role| <= RoleMaxLength
    && IntegerMin <= a.totalPoints <= IntegerMax
    && IntegerMin <= a.spendablePoints <= IntegerMax
  }

  /** The role stored for a registration: the requested one, else the column default. */
  function StoredRole(requested: Option<string>): (role: string)
    ensures requested.None? ==> role == DefaultRole
    ensures requested.Some? ==> role == requested.value
  {
    match requested
    case None => DefaultRole
    case Some(r) => r
  }

  /**
   * The row a registration inserts: the request's name, email and role, the hash
   * of the password (never the password), and both point counters at their default 0.
   */
  function NewAccount(id: int, req: RegisterRequest, passwordHash: string, now: int): (a: Account)
    ensures a.userId == id && a.name == req.name && a.email == req.email
    ensures a.passwordHash == passwordHash && a.role == StoredRole(req.role)
    ensures a.totalPoints == 0 && a.spendablePoints == 0 && a.createdAt == now
  {
    Account(id, req.name, req.email, passwordHash, StoredRole(req.role), 0, 0, now)
  }

  /** Every row sits under its own primary key. */
  predicate Keyed(accounts: map<int, Account>) {
    forall id :: id in accounts ==> accounts[id].userId == id
  }

  /** Some row carries this email. */
  predicate EmailTaken(accounts: map<int, Account>, email: string) {
    exists id :: id in accounts && accounts[id].email == email
  }

  /** The unique constraint on `email`. */
  predicate EmailsUnique(accounts: map<int, Account>) {
    forall i, j :: i in accounts && j in accounts && i != j ==> accounts[i].email != accounts[j].email
  }

  /**
   * What holds of the table between requests: rows are keyed by their id, every id
   * is below the next id the sequence hands out, emails are unique and every row
   * fits the columns.
   */
  predicate TableInvariant(accounts: map<int, Account>, nextId: int) {
    && 1 <= nextId
    && Keyed(accounts)
    && (forall id :: id in accounts ==> 1 <= id < nextId && FitsColumns(accounts[id]))
    && EmailsUnique(accounts)
  }

  /** Inserting a fitting row with a fresh email under the next id keeps the invariant. */
  lemma InsertKeepsInvariant(accounts: map<int, Account>, nextId: int, a: Account)
    requires TableInvariant(accounts, nextId)
    requires a.userId == nextId && FitsColumns(a) && !EmailTaken(accounts, a.email)
    ensures nextId !in accounts
    ensures TableInvariant(accounts[nextId := a], nextId + 1)
  {
    var after := accounts[nextId := a];
    forall i, j | i in after && j in after && i != j
      ensures after[i].email != after[j].email
    {
      if i == nextId {
        assert j in accounts && accounts[j].email == after[j].email;
      } else if j == nextId {
        assert i in accounts && accounts[i].email == after[i].email;
      }
    }
  }
}
