/** The stored user record, the public projection returned by the API routes, and the
    field-update object passed to the datastore's single-record update. */
module UserModel {
  import opened Wrappers
  import opened Civil

  type UserId = string

  /** A stored user. Timestamps are kept as day numbers: every rule that reads them
      first truncates them to the day. */
  datatype User = User(
    id: UserId,
    email: string,
    name: Option<string>,
    password: string,
    coins: int,
    streak: int,
    lastActiveDate: Option<Day>,
    completedDates: seq<Day>,
    completedProblems: seq<string>,
    leetcodeUsername: Option<string>,
    themePurchased: bool)

  /** The user as a route returns it: every stored field except `password`. */
  datatype PublicUser = PublicUser(
    id: UserId,
    email: string,
    name: Option<string>,
    coins: int,
    streak: int,
    lastActiveDate: Option<Day>,
    completedDates: seq<Day>,
    completedProblems: seq<string>,
    leetcodeUsername: Option<string>,
    themePurchased: bool)

  function WithoutPassword(u: User): (p: PublicUser)
  {
    PublicUser(u.id, u.email, u.name, u.coins, u.streak, u.lastActiveDate,
               u.completedDates, u.completedProblems, u.leetcodeUsername, u.themePurchased)
  }

  /** Two records that differ only in their password give the same public user. */
  lemma WithoutPasswordHidesPassword(u: User, pw: string)
    ensures WithoutPassword(u.(password := pw)) == WithoutPassword(u)
  {
  }

  /** The `data` of one update: `Some` fields are set, `push*` fields are appended
      to the corresponding list; `None` leaves the stored value as it is. */
  datatype UpdateData = UpdateData(
    coins: Option<int>,
    streak: Option<int>,
    lastActiveDate: Option<Day>,
    pushCompletedDate: Option<Day>,
    pushCompletedProblem: Option<string>,
    leetcodeUsername: Option<Option<string>>,
    themePurchased: Option<bool>)

  const NoChange := UpdateData(None, None, None, None, None, None, None)

  function Push<T>(s: seq<T>, x: Option<T>): seq<T>
  {
    if x.Some? then s + [x.value] else s
  }

  /** The record after applying `data` to `u`, all fields at once. */
  function Apply(u: User, data: UpdateData): (v: User)
    ensures v.id == u.id && v.email == u.email && v.name == u.name && v.password == u.password
    ensures data.coins.Some? ==> v.coins == data.coins.value
    ensures data.coins.None? ==> v.coins == u.coins
    ensures data.streak.Some? ==> v.streak == data.streak.value
    ensures data.streak.None? ==> v.streak == u.streak
    ensures data.lastActiveDate.Some? ==> v.lastActiveDate == data.lastActiveDate
    ensures data.lastActiveDate.None? ==> v.lastActiveDate == u.lastActiveDate
    ensures data.pushCompletedDate.Some? ==> v.completedDates == u.completedDates + [data.pushCompletedDate.value]
    ensures data.pushCompletedDate.None? ==> v.completedDates == u.completedDates
    ensures data.pushCompletedProblem.Some? ==>
      v.completedProblems == u.completedProblems + [data.pushCompletedProblem.value]
    ensures data.pushCompletedProblem.None? ==> v.completedProblems == u.completedProblems
    ensures data.leetcodeUsername.Some? ==> v.leetcodeUsername == data.leetcodeUsername.value
    ensures data.leetcodeUsername.None? ==> v.leetcodeUsername == u.leetcodeUsername
    ensures data.themePurchased.Some? ==> v.themePurchased == data.themePurchased.value
    ensures data.themePurchased.None? ==> v.themePurchased == u.themePurchased
  {
    u.(coins := data.coins.GetOr(u.coins),
       streak := data.streak.GetOr(u.streak),
       lastActiveDate := if data.lastActiveDate.Some? then data.lastActiveDate else u.lastActiveDate,
       completedDates := Push(u.completedDates, data.pushCompletedDate),
       completedProblems := Push(u.completedProblems, data.pushCompletedProblem),
       leetcodeUsername := data.leetcodeUsername.GetOr(u.leetcodeUsername),
       themePurchased := data.themePurchased.GetOr(u.themePurchased))
  }

  /** An update with no fields leaves the record as it was. */
  lemma ApplyNoChange(u: User)
    ensures Apply(u, NoChange) == u
  {
  }

  /** An error reply: an HTTP status and the `error` message. */
  datatype ApiError = ApiError(status: int, message: string)

  /** JavaScript falsiness of an optional string request field: absent, null or "". */
  predicate Blank(s: Option<string>)
  {
    s.None? || s.value == ""
  }
}
