/**
 * The three queries main.py issues against the `users` table, over the table as a
 * map from user id to row: a lookup by email taking the first match, and the
 * top rows ordered by `total_points` descending with a limit. Rows are scanned in
 * ascending id order.
 */
module Store {
  import opened Wrappers
  import opened UserModel

  /** Number of rows the leaderboard query returns at most. */
  const LeaderboardSize := 10

  /** A set that is not empty has an element. */
  lemma HasElement(s: set<int>)
    ensures s == {} || exists x :: x in s
  {
    if forall x :: x !in s { assert s == {}; }
  }

  predicate IsLeast(k: int, s: set<int>) {
    k in s && forall j :: j in s ==> k <= j
  }

  lemma {:induction false} LeastExists(s: set<int>)
    requires s != {}
    ensures exists k :: IsLeast(k, s)
  {
    HasElement(s);
    var x :| x in s;
    if s == {x} {
      assert IsLeast(x, s);
    } else {
      var rest := s - {x};
      LeastExists(rest);
      var m :| IsLeast(m, rest);
      var k := if x < m then x else m;
      forall j | j in s ensures k <= j {
        if j != x { assert j in rest; }
      }
      assert IsLeast(k, s);
    }
  }

  /** The smallest id in a non-empty set of ids. */
  function MinKey(s: set<int>): (k: int)
    requires s != {}
    ensures IsLeast(k, s)
  {
    LeastExists(s);
    var k :| IsLeast(k, s);
    k
  }

  predicate Ascending(ids: seq<int>) {
    forall i, j :: 0 <= i < j < |ids| ==> ids[i] < ids[j]
  }

  /** The ids of a set in ascending order, each once. */
  function SortedIds(ids: set<int>): (r: seq<int>)
    ensures |r| == |ids| && Ascending(r)
    ensures forall id :: id in r <==> id in ids
  {
    if ids == {} then []
    else
      var k := MinKey(ids);
      [k] + SortedIds(ids - {k})
  }

  /** The rows stored under the given ids, in the order of the ids. */
  function RowsAt(accounts: map<int, Account>, ids: seq<int>): (rows: seq<Account>)
    requires forall i :: 0 <= i < |ids| ==> ids[i] in accounts
    ensures |rows| == |ids| && forall i :: 0 <= i < |ids| ==> rows[i] == accounts[ids[i]]
  {
    seq(|ids|, i requires 0 <= i < |ids| => accounts[ids[i]])
  }

  /** A value of a map is stored under some key. */
  lemma ValueHasKey(accounts: map<int, Account>, a: Account)
    ensures a in accounts.Values ==> exists id :: id in accounts && accounts[id] == a
  {
    if forall id :: id in accounts ==> accounts[id] != a {
      assert a !in accounts.Values;
    }
  }

  lemma RowsAtCovers(accounts: map<int, Account>, ids: seq<int>)
    requires forall i :: 0 <= i < |ids| ==> ids[i] in accounts
    requires forall id :: id in accounts ==> id in ids
    ensures forall a :: a in RowsAt(accounts, ids) <==> a in accounts.Values
  {
    var rows := RowsAt(accounts, ids);
    forall a | a in accounts.Values ensures a in rows {
      ValueHasKey(accounts, a);
      var id :| id in accounts && accounts[id] == a;
      var i :| 0 <= i < |ids| && ids[i] == id;
      assert rows[i] == a;
    }
  }

  lemma RowsAtAscending(accounts: map<int, Account>, ids: seq<int>)
    requires Keyed(accounts) && Ascending(ids)
    requires forall i :: 0 <= i < |ids| ==> ids[i] in accounts
    ensures forall i, j :: 0 <= i < j < |ids| ==> RowsAt(accounts, ids)[i].userId < RowsAt(accounts, ids)[j].userId
  {
  }

  /** The table's rows in ascending id order: each row exactly once. */
  function Rows(accounts: map<int, Account>): (rows: seq<Account>)
    ensures |rows| == |accounts|
    ensures forall a :: a in rows <==> a in accounts.Values
    ensures Keyed(accounts) ==> forall i, j :: 0 <= i < j < |rows| ==> rows[i].userId < rows[j].userId
  {
    var ids := SortedIds(accounts.Keys);
    RowsAtCovers(accounts, ids);
    if Keyed(accounts) then
      RowsAtAscending(accounts, ids);
      RowsAt(accounts, ids)
    else
      RowsAt(accounts, ids)
  }

  /** The first row, in scan order, that carries the email. */
  function FirstWithEmail(rows: seq<Account>, email: string): (found: Option<Account>)
    ensures found.Some? ==> found.value in rows && found.value.email == email
    ensures found.None? <==> forall i :: 0 <= i < |rows| ==> rows[i].email != email
  {
    if rows == [] then None
    else if rows[0].email == email then Some(rows[0])
    else FirstWithEmail(rows[1..], email)
  }

  /** `filter(User.email == email).first()`: a row with that email, if there is one. */
  function FindByEmail(accounts: map<int, Account>, email: string): (found: Option<Account>)
    ensures found.Some? ==> found.value in accounts.Values && found.value.email == email
    ensures found.None? <==> !EmailTaken(accounts, email)
  {
    var rows := Rows(accounts);
    var found := FirstWithEmail(rows, email);
    assert EmailTaken(accounts, email) ==> found.Some? by {
      if EmailTaken(accounts, email) {
        var id :| id in accounts && accounts[id].email == email;
        assert accounts[id] in rows;
      }
    }
    found
  }

  /** With unique emails, the lookup finds exactly the row holding the email. */
  lemma FindByEmailUnique(accounts: map<int, Account>, id: int)
    requires EmailsUnique(accounts) && id in accounts
    ensures FindByEmail(accounts, accounts[id].email) == Some(accounts[id])
  {
    var found := FindByEmail(accounts, accounts[id].email);
    assert EmailTaken(accounts, accounts[id].email);
    var other :| other in accounts && accounts[other] == found.value;
  }

  /** Rows ordered by `total_points`, highest first. */
  predicate ByPointsDescending(rows: seq<Account>) {
    forall i, j :: 0 <= i < j < |rows| ==> rows[i].totalPoints >= rows[j].totalPoints
  }

  /** No row occurs twice. */
  predicate Distinct(rows: seq<Account>) {
    forall i, j :: 0 <= i < j < |rows| ==> rows[i] != rows[j]
  }

  /** Places one row into a sequence, before the first row with no more points. */
  function Insert(a: Account, rows: seq<Account>): (r: seq<Account>)
    ensures |r| == |rows| + 1
  {
    if rows == [] || a.totalPoints >= rows[0].totalPoints then [a] + rows
    else [rows[0]] + Insert(a, rows[1..])
  }

  lemma {:induction false} InsertPermutes(a: Account, rows: seq<Account>)
    ensures multiset(Insert(a, rows)) == multiset(rows) + multiset{a}
  {
    if rows != [] && a.totalPoints < rows[0].totalPoints {
      InsertPermutes(a, rows[1..]);
      assert rows == [rows[0]] + rows[1..];
    }
  }

  lemma {:induction false} InsertBounded(a: Account, rows: seq<Account>, bound: int)
    requires a.totalPoints <= bound
    requires forall k :: 0 <= k < |rows| ==> rows[k].totalPoints <= bound
    ensures forall k :: 0 <= k < |Insert(a, rows)| ==> Insert(a, rows)[k].totalPoints <= bound
  {
    if rows != [] && a.totalPoints < rows[0].totalPoints {
      InsertBounded(a, rows[1..], bound);
    }
  }

  lemma {:induction false} InsertSorted(a: Account, rows: seq<Account>)
    requires ByPointsDescending(rows)
    ensures ByPointsDescending(Insert(a, rows))
  {
    if rows != [] && a.totalPoints < rows[0].totalPoints {
      var tail := Insert(a, rows[1..]);
      InsertSorted(a, rows[1..]);
      InsertBounded(a, rows[1..], rows[0].totalPoints);
      var r := [rows[0]] + tail;
      forall i, j | 0 <= i < j < |r| ensures r[i].totalPoints >= r[j].totalPoints {
        assert r[j] == tail[j - 1];
        if 0 < i { assert r[i] == tail[i - 1]; }
      }
    }
  }

  /** `order_by(User.total_points.desc())`: a reordering of the rows, highest points first. */
  function SortByPoints(rows: seq<Account>): (r: seq<Account>)
    ensures |r| == |rows|
    ensures ByPointsDescending(r)
    ensures multiset(r) == multiset(rows)
  {
    if rows == [] then []
    else
      var tail := SortByPoints(rows[1..]);
      InsertPermutes(rows[0], tail);
      InsertSorted(rows[0], tail);
      assert rows == [rows[0]] + rows[1..];
      Insert(rows[0], tail)
  }

  /** In a sequence without repetitions every row occurs at most once. */
  lemma {:induction false} DistinctOccursOnce(rows: seq<Account>, x: Account)
    requires Distinct(rows)
    ensures multiset(rows)[x] <= 1
  {
    if rows != [] {
      assert rows == [rows[0]] + rows[1..];
      DistinctOccursOnce(rows[1..], x);
      forall i | 0 <= i < |rows[1..]| ensures rows[1..][i] != rows[0] {
        assert rows[1..][i] == rows[i + 1];
      }
      assert rows[0] !in rows[1..];
    }
  }

  /** A reordering of a sequence without repetitions has none either. */
  lemma PermutationKeepsDistinct(rows: seq<Account>, r: seq<Account>)
    requires Distinct(rows) && multiset(r) == multiset(rows)
    ensures Distinct(r)
  {
    forall i, j | 0 <= i < j < |r| ensures r[i] != r[j] {
      assert r == r[..j] + r[j..];
      assert r[i] in r[..j] && r[j] in r[j..];
      assert multiset(r)[r[i]] == multiset(r[..j])[r[i]] + multiset(r[j..])[r[i]];
      DistinctOccursOnce(rows, r[i]);
    }
  }

  /** Rows of a keyed table are all different. */
  lemma KeyedRowsDistinct(accounts: map<int, Account>)
    requires Keyed(accounts)
    ensures Distinct(Rows(accounts))
  {
    var rows := Rows(accounts);
    forall i, j | 0 <= i < j < |rows| ensures rows[i] != rows[j] {
      assert rows[i].userId < rows[j].userId;
    }
  }

  /** A row of an ordered sequence that is not among its first `n` has at most the points of the n-th. */
  lemma PrefixDominates(sorted: seq<Account>, n: nat, a: Account)
    requires ByPointsDescending(sorted) && 0 < n <= |sorted|
    requires a in sorted && a !in sorted[..n]
    ensures a.totalPoints <= sorted[n - 1].totalPoints
  {
    var k :| 0 <= k < |sorted| && sorted[k] == a;
    forall i | 0 <= i < n ensures sorted[i] != a {
      assert sorted[..n][i] == sorted[i];
    }
    assert n - 1 < k;
  }

  /** The first `n` rows of an ordering of `rows`, taken as the top `n`. */
  lemma TakeTop(rows: seq<Account>, sorted: seq<Account>, n: nat)
    requires multiset(sorted) == multiset(rows) && ByPointsDescending(sorted) && Distinct(rows)
    requires n <= |rows|
    ensures |sorted| == |rows|
    ensures ByPointsDescending(sorted[..n]) && Distinct(sorted[..n])
    ensures forall a :: a in sorted[..n] ==> a in rows
    ensures forall a, i :: a in rows && a !in sorted[..n] && 0 <= i < n ==> a.totalPoints <= sorted[i].totalPoints
  {
    assert |multiset(sorted)| == |multiset(rows)|;
    PermutationKeepsDistinct(rows, sorted);
    forall a | a in sorted[..n] ensures a in rows {
      assert a in multiset(sorted);
    }
    forall a, i | a in rows && a !in sorted[..n] && 0 <= i < n ensures a.totalPoints <= sorted[i].totalPoints {
      assert a in multiset(sorted);
      PrefixDominates(sorted, n, a);
    }
  }

  /**
   * `top` is what `order_by(total_points desc).limit(10)` may return for the table:
   * ten rows, or all of them when there are fewer; highest points first; each a row
   * of the table, none twice; and no row left out has more points than any row
   * taken. Among rows with equal points the order is left open.
   */
  predicate IsTopSelection(accounts: map<int, Account>, top: seq<Account>) {
    && |top| == (if |accounts| < LeaderboardSize then |accounts| else LeaderboardSize)
    && ByPointsDescending(top)
    && Distinct(top)
    && (forall i :: 0 <= i < |top| ==> top[i] in accounts.Values)
    && (forall a, i :: a in accounts.Values && a !in top && 0 <= i < |top| ==> a.totalPoints <= top[i].totalPoints)
  }

  lemma TopOfRows(accounts: map<int, Account>, rows: seq<Account>, sorted: seq<Account>, n: nat)
    requires Keyed(accounts) && rows == Rows(accounts) && sorted == SortByPoints(rows)
    requires n == if |rows| < LeaderboardSize then |rows| else LeaderboardSize
    ensures IsTopSelection(accounts, sorted[..n])
  {
    KeyedRowsDistinct(accounts);
    TakeTop(rows, sorted, n);
    var top := sorted[..n];
    forall i | 0 <= i < |top| ensures top[i] in accounts.Values {
      assert top[i] in top;
    }
  }

  /** `order_by(User.total_points.desc()).limit(10)` over the table. */
  function TopAccounts(accounts: map<int, Account>): (top: seq<Account>)
    requires Keyed(accounts)
    ensures IsTopSelection(accounts, top)
  {
    var rows := Rows(accounts);
    var sorted := SortByPoints(rows);
    var n := if |rows| < LeaderboardSize then |rows| else LeaderboardSize;
    TopOfRows(accounts, rows, sorted, n);
    sorted[..n]
  }
}
