/** `GET /api/leaderboard`: every user with a linked profile, annotated with the solved
    count and ranking fetched for that profile, most problems solved first. A failed
    fetch only affects its own user. */
module LeaderboardRoute {
  import opened Wrappers
  import opened UserModel
  import LeetCode

  /** The columns `findMany` selects, for a user whose `leetcodeUsername` is not null. */
  datatype Row = Row(id: UserId, name: Option<string>, email: string, leetcodeUsername: string)

  /** What the profile request for one user gave: it threw (network error, a body that
      is not JSON, no `data`), its reply carried `errors`, or it carried `data`. */
  datatype FetchOutcome = Threw | ErrorsPayload | Payload(data: LeetCode.RawData)

  datatype Entry = Entry(
    id: UserId,
    name: Option<string>,
    email: string,
    leetcodeUsername: string,
    totalSolved: int,
    ranking: Option<int>)

  function RowOf(u: User): Row
    requires u.leetcodeUsername.Some?
  {
    Row(u.id, u.name, u.email, u.leetcodeUsername.value)
  }

  /** `findMany({ where: { leetcodeUsername: { not: null } } })` over the table's rows in
      the order the datastore returns them. */
  function Selected(users: seq<User>): (rows: seq<Row>)
    ensures |rows| <= |users|
    ensures forall u :: u in users && u.leetcodeUsername.Some? ==> RowOf(u) in rows
    ensures forall row :: row in rows ==> exists u :: u in users && u.leetcodeUsername.Some? && row == RowOf(u)
  {
    if users == [] then []
    else
      var rest := Selected(users[1..]);
      if users[0].leetcodeUsername.Some? then [RowOf(users[0])] + rest else rest
  }

  /** The query keeps the datastore's order: selecting from two runs of rows selects from
      each in turn. */
  lemma {:induction false} SelectedAppend(a: seq<User>, b: seq<User>)
    ensures Selected(a + b) == Selected(a) + Selected(b)
  {
    if a == [] {
      assert a + b == b;
    } else {
      var u := a[0];
      var head := if u.leetcodeUsername.Some? then [RowOf(u)] else [];
      calc {
        Selected(a + b);
      == { assert (a + b)[0] == u && (a + b)[1..] == a[1..] + b; }
        head + Selected(a[1..] + b);
      == { SelectedAppend(a[1..], b); }
        head + (Selected(a[1..]) + Selected(b));
      ==
        Selected(a) + Selected(b);
      }
    }
  }

  /** Each user contributes exactly its own row when it has a linked profile and nothing
      otherwise, at its own place in the order. */
  lemma SelectedOneEach(a: seq<User>, u: User, b: seq<User>)
    ensures Selected(a + [u] + b) ==
      Selected(a) + (if u.leetcodeUsername.Some? then [RowOf(u)] else []) + Selected(b)
  {
    SelectedAppend(a + [u], b);
    SelectedAppend(a, [u]);
    assert [u][1..] == [];
  }

  /** The entry for one user: the identity columns kept, the solved count and ranking
      copied from the normalised profile, or 0 and no ranking when anything failed
      (the request, an `errors` reply, or normalisation itself). */
  function EntryFor(row: Row, outcome: FetchOutcome): (e: Entry)
    ensures e.id == row.id && e.name == row.name && e.email == row.email
    ensures e.leetcodeUsername == row.leetcodeUsername
    ensures outcome.Threw? || outcome.ErrorsPayload? ==> e.totalSolved == 0 && e.ranking == None
    ensures outcome.Payload? ==>
      match LeetCode.FormatLeetCodeData(outcome.data)
      case Success(stats) => e.totalSolved == stats.totalSolved && e.ranking == Some(stats.ranking)
      case Failure(_) => e.totalSolved == 0 && e.ranking == None
  {
    var fallback := Entry(row.id, row.name, row.email, row.leetcodeUsername, 0, None);
    match outcome
    case Payload(data) =>
      (match LeetCode.FormatLeetCodeData(data)
       case Success(stats) =>
         Entry(row.id, row.name, row.email, row.leetcodeUsername, stats.totalSolved, Some(stats.ranking))
       case Failure(_) => fallback)
    case _ => fallback
  }

  /** `Promise.all(users.map(...))`: one entry per selected row, in row order. */
  function Results(rows: seq<Row>, outcomes: seq<FetchOutcome>): (results: seq<Entry>)
    requires |outcomes| == |rows|
    ensures |results| == |rows|
    ensures forall i :: 0 <= i < |rows| ==> results[i].id == rows[i].id && results[i].email == rows[i].email
    ensures forall i :: 0 <= i < |rows| ==> results[i] == EntryFor(rows[i], outcomes[i])
  {
    seq(|rows|, i requires 0 <= i < |rows| => EntryFor(rows[i], outcomes[i]))
  }

  /** There is exactly one result per selected user, carrying that user's identity, and
      changing what one user's fetch gave changes no other user's entry. */
  lemma ResultsPerUser(rows: seq<Row>, outcomes: seq<FetchOutcome>, j: nat, other: FetchOutcome)
    requires |outcomes| == |rows| && j < |rows|
    ensures |Results(rows, outcomes)| == |rows|
    ensures forall i :: 0 <= i < |rows| ==>
      var e := Results(rows, outcomes)[i];
      e.id == rows[i].id && e.email == rows[i].email && e.leetcodeUsername == rows[i].leetcodeUsername
    ensures forall i :: 0 <= i < |rows| && i != j ==>
      Results(rows, outcomes[j := other])[i] == Results(rows, outcomes)[i]
  {
  }

  predicate SortedBySolved(s: seq<Entry>)
  {
    forall i, j :: 0 <= i < j < |s| ==> s[i].totalSolved >= s[j].totalSolved
  }

  /** `results.sort((a, b) => b.totalSolved - a.totalSolved)`: an in-place sort, most
      solved first. The insertion sort below is stable, as `Array.prototype.sort` is, but
      the contract does not state the order among ties. */
  method SortBySolved(a: array<Entry>)
    modifies a
    ensures SortedBySolved(a[..])
    ensures multiset(a[..]) == multiset(old(a[..]))
  {
    var i := 0;
    while i < a.Length
      invariant 0 <= i <= a.Length
      invariant SortedBySolved(a[..i])
      invariant multiset(a[..]) == multiset(old(a[..]))
    {
      Insert(a, i);
      i := i + 1;
    }
    assert a[..a.Length] == a[..];
  }

  /** One insertion step: moves `a[i]` left past the entries with fewer solved problems. */
  method Insert(a: array<Entry>, i: nat)
    requires i < a.Length && SortedBySolved(a[..i])
    modifies a
    ensures SortedBySolved(a[..i + 1])
    ensures multiset(a[..]) == multiset(old(a[..]))
  {
    var j := i;
    while j > 0 && a[j - 1].totalSolved < a[j].totalSolved
      invariant 0 <= j <= i
      invariant Inserting(a[..], i, j)
      invariant multiset(a[..]) == multiset(old(a[..]))
    {
      ghost var s := a[..];
      SwapInserting(s, i, j);
      SwapPermutes(s, j - 1, j);
      a[j - 1], a[j] := a[j], a[j - 1];
      assert a[..] == s[j - 1 := s[j]][j := s[j - 1]];
      j := j - 1;
    }
    InsertedSorted(a[..], i, j);
  }

  /** Midway through `Insert`: the first `i + 1` entries are in order apart from the moving
      entry at `j`, which has more solved problems than every entry after it up to `i`. */
  predicate Inserting(s: seq<Entry>, i: nat, j: nat)
  {
    && j <= i < |s|
    && (forall k, l :: 0 <= k < l <= i && k != j && l != j ==> s[k].totalSolved >= s[l].totalSolved)
    && (forall l :: j < l <= i ==> s[j].totalSolved > s[l].totalSolved)
  }

  /** Swapping the moving entry with a smaller left neighbour keeps `Inserting`, one place left. */
  lemma SwapInserting(s: seq<Entry>, i: nat, j: nat)
    requires 0 < j && Inserting(s, i, j) && s[j - 1].totalSolved < s[j].totalSolved
    ensures Inserting(s[j - 1 := s[j]][j := s[j - 1]], i, j - 1)
  {
  }

  /** Swapping two entries keeps the same entries. */
  lemma SwapPermutes(s: seq<Entry>, x: nat, y: nat)
    requires x < y < |s|
    ensures multiset(s[x := s[y]][y := s[x]]) == multiset(s)
  {
    var t := s[x := s[y]][y := s[x]];
    assert s == s[..x] + [s[x]] + s[x + 1..y] + [s[y]] + s[y + 1..];
    assert t == s[..x] + [s[y]] + s[x + 1..y] + [s[x]] + s[y + 1..];
  }

  /** Once the moving entry has no smaller left neighbour, the first `i + 1` entries are sorted. */
  lemma InsertedSorted(s: seq<Entry>, i: nat, j: nat)
    requires Inserting(s, i, j) && (j == 0 || s[j - 1].totalSolved >= s[j].totalSolved)
    ensures SortedBySolved(s[..i + 1])
  {
  }

  /** The handler: select, fetch and normalise per user, then sort. */
  method Get(users: seq<User>, outcomes: seq<FetchOutcome>) returns (leaderboard: seq<Entry>)
    requires |outcomes| == |Selected(users)|
    ensures multiset(leaderboard) == multiset(Results(Selected(users), outcomes))
    ensures SortedBySolved(leaderboard)
  {
    var rows := Selected(users);
    var results := Results(rows, outcomes);
    var a := new Entry[|results|](i requires 0 <= i < |results| => results[i]);
    assert a[..] == results;
    SortBySolved(a);
    leaderboard := a[..];
  }

  /** In a sorted board, every entry after one that has solved nothing has solved
      nothing either: a user whose fetch failed can only be followed by users with no
      solved problems, so when every other user has solved something it comes last. */
  lemma ZeroSolvedLast(board: seq<Entry>, k: nat)
    requires SortedBySolved(board) && k < |board|
    requires board[k].totalSolved == 0
    ensures forall i :: k < i < |board| ==> board[i].totalSolved <= 0
  {
  }
}
