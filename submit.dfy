/** `POST /api/problems/submit`: record one solved problem for one user, awarding the
    coin bounty and updating the daily streak, in a single write. */
module SubmitRoute {
  import opened Wrappers
  import opened Civil
  import opened UserModel
  import Db
  import opened Seqs

  datatype SubmitRequest = SubmitRequest(userId: Option<string>, problemId: Option<string>)

  datatype SubmitReply = SubmitReply(
    user: PublicUser,
    message: string,
    coinsEarned: int,
    newStreak: int,
    isFirstProblemToday: bool)

  /** Coins awarded for every accepted submission. */
  const Bounty := 10

  /** `hasCompletedToday`: some recorded completion falls on `today`. */
  predicate CompletedOn(dates: seq<Day>, today: Day): (done: bool)
    ensures done <==> exists i :: 0 <= i < |dates| && dates[i] == today
  {
    today in dates
  }

  /** The streak after the first completion of a day, from the previous streak and
      the last active day: one more after yesterday, 1 after a gap or for a first
      completion ever, kept when the last active day is today or later. */
  function FirstOfDayStreak(streak: int, lastActive: Option<Day>, today: Day): (r: int)
    ensures streak >= 0 ==> r <= streak + 1
    ensures lastActive.None? || lastActive.value < today ==> r == 1 || r == streak + 1
    ensures streak >= 0 && (lastActive.None? || lastActive.value < today) ==> r >= 1
  {
    match lastActive
    case None => 1
    case Some(last) =>
      if last == today - 1 then streak + 1
      else if last < today - 1 then 1
      else streak
  }

  /** The `updateData` object the route builds for user `u`. */
  function SubmitUpdate(u: User, problemId: string, today: Day): (data: UpdateData)
    ensures data.coins == Some(u.coins + Bounty) && data.pushCompletedProblem == Some(problemId)
    ensures data.streak.Some? <==> !CompletedOn(u.completedDates, today)
    ensures data.lastActiveDate.Some? <==> data.streak.Some?
    ensures data.pushCompletedDate.Some? <==> data.streak.Some?
    ensures data.lastActiveDate.Some? ==> data.lastActiveDate == data.pushCompletedDate == Some(today)
    ensures data.leetcodeUsername.None? && data.themePurchased.None?
  {
    var first := !CompletedOn(u.completedDates, today);
    NoChange.(
      coins := Some(u.coins + Bounty),
      pushCompletedProblem := Some(problemId),
      streak := if first then Some(FirstOfDayStreak(u.streak, u.lastActiveDate, today)) else None,
      lastActiveDate := if first then Some(today) else None,
      pushCompletedDate := if first then Some(today) else None)
  }

  /** The stored record after an accepted submission of `problemId` on `today`. */
  function Submitted(u: User, problemId: string, today: Day): (v: User)
    ensures v.coins == u.coins + Bounty
    ensures v.completedProblems == u.completedProblems + [problemId]
    ensures CompletedOn(u.completedDates, today) ==>
      v.streak == u.streak && v.lastActiveDate == u.lastActiveDate && v.completedDates == u.completedDates
    ensures !CompletedOn(u.completedDates, today) ==>
      && v.streak == FirstOfDayStreak(u.streak, u.lastActiveDate, today)
      && v.lastActiveDate == Some(today)
      && v.completedDates == u.completedDates + [today]
    ensures v == u.(coins := v.coins, streak := v.streak, lastActiveDate := v.lastActiveDate,
                    completedDates := v.completedDates, completedProblems := v.completedProblems)
  {
    Apply(u, SubmitUpdate(u, problemId, today))
  }

  method Post(db: Db.Store, req: SubmitRequest, today: Day) returns (r: Result<SubmitReply, ApiError>)
    requires db.Valid()
    modifies db
    ensures db.Valid()
    ensures Blank(req.userId) || Blank(req.problemId) ==>
      r == Failure(ApiError(400, "User ID and Problem ID are required")) && db.users == old(db.users)
    ensures !Blank(req.userId) && !Blank(req.problemId) && req.userId.value !in old(db.users) ==>
      r == Failure(ApiError(404, "User not found")) && db.users == old(db.users)
    ensures !Blank(req.userId) && !Blank(req.problemId) && req.userId.value in old(db.users) ==>
      var u := old(db.users)[req.userId.value];
      if req.problemId.value in u.completedProblems then
        r == Failure(ApiError(400, "You have already completed this problem")) && db.users == old(db.users)
      else
        var v := Submitted(u, req.problemId.value, today);
        && db.users == old(db.users)[req.userId.value := v]
        && r == Success(SubmitReply(WithoutPassword(v), "Problem submitted successfully", Bounty, v.streak,
                                    !CompletedOn(u.completedDates, today)))
  {
    if Blank(req.userId) || Blank(req.problemId) {
      return Failure(ApiError(400, "User ID and Problem ID are required"));
    }
    var userId, problemId := req.userId.value, req.problemId.value;
    var found := db.FindById(userId);
    if found.None? {
      return Failure(ApiError(404, "User not found"));
    }
    var user := found.value;
    if problemId in user.completedProblems {
      return Failure(ApiError(400, "You have already completed this problem"));
    }

    var hasCompletedToday := CompletedOn(user.completedDates, today);
    var newStreak := user.streak;
    var shouldUpdateStreak := false;
    if !hasCompletedToday {
      if user.lastActiveDate.Some? {
        var lastActive := user.lastActiveDate.value;
        var yesterday := today - 1;
        if lastActive == yesterday {
          newStreak := user.streak + 1;
        } else if lastActive < yesterday {
          newStreak := 1;
        }
      } else {
        newStreak := 1;
      }
      shouldUpdateStreak := true;
    }

    var updateData := NoChange.(coins := Some(user.coins + Bounty), pushCompletedProblem := Some(problemId));
    if shouldUpdateStreak {
      updateData := updateData.(streak := Some(newStreak), lastActiveDate := Some(today),
                                pushCompletedDate := Some(today));
    }
    assert updateData == SubmitUpdate(user, problemId, today);

    var updated := db.Update(userId, updateData);
    var updatedUser := updated.value;
    r := Success(SubmitReply(WithoutPassword(updatedUser), "Problem submitted successfully", Bounty,
                             updatedUser.streak, shouldUpdateStreak));
  }

  /** What accepted submissions keep true of a record. Problem ids and completion days
      are distinct; there is at most one completion day per problem; a record with no
      last active day has no streak and no completion days; otherwise the last active
      day is the latest completion day, the streak is at least 1, and the `streak` days
      ending at the last active day are all completion days. */
  ghost predicate LedgerInvariant(u: User)
  {
    && NoDuplicates(u.completedProblems)
    && NoDuplicates(u.completedDates)
    && |u.completedDates| <= |u.completedProblems|
    && (u.lastActiveDate.None? ==> u.streak == 0 && u.completedDates == [])
    && (u.lastActiveDate.Some? ==>
          var last := u.lastActiveDate.value;
          && last in u.completedDates
          && (forall d :: d in u.completedDates ==> d <= last)
          && 1 <= u.streak
          && (forall d :: last - u.streak < d <= last ==> d in u.completedDates))
  }

  /** The caller's clock has not moved back before the record's last active day. */
  predicate ClockNotBehind(u: User, today: Day)
  {
    u.lastActiveDate.Some? ==> u.lastActiveDate.value <= today
  }

  /** A record as it is created: no coins spent on completions, no streak, no history. */
  predicate Fresh(u: User)
  {
    u.streak == 0 && u.lastActiveDate.None? && u.completedDates == [] && u.completedProblems == []
  }

  lemma FreshSatisfiesLedger(u: User)
    requires Fresh(u)
    ensures LedgerInvariant(u)
  {
  }

  /** With the invariant and a clock that has not gone back, the first completion of a
      day always finds the last active day strictly before today, so the branch that
      keeps the streak unchanged is never taken. */
  lemma KeepStreakBranchUnreachable(u: User, today: Day)
    requires LedgerInvariant(u) && ClockNotBehind(u, today)
    requires !CompletedOn(u.completedDates, today) && u.lastActiveDate.Some?
    ensures u.lastActiveDate.value < today
  {
  }

  /** An accepted submission keeps the invariant, and the record's last active day is
      then never later than `today`. */
  lemma SubmittedKeepsLedger(u: User, problemId: string, today: Day)
    requires LedgerInvariant(u) && ClockNotBehind(u, today)
    requires problemId !in u.completedProblems
    ensures LedgerInvariant(Submitted(u, problemId, today))
    ensures ClockNotBehind(Submitted(u, problemId, today), today)
  {
    var v := Submitted(u, problemId, today);
    assert NoDuplicates(v.completedProblems);
    if !CompletedOn(u.completedDates, today) {
      assert NoDuplicates(v.completedDates);
      if u.lastActiveDate.Some? {
        var last := u.lastActiveDate.value;
        assert last < today;
        if last == today - 1 {
          forall d | today - v.streak < d <= today
            ensures d in v.completedDates
          {
            if d < today {
              assert last - u.streak < d <= last;
            }
          }
        }
      }
    }
  }

  /** Under the invariant the streak never exceeds the number of active days. */
  lemma StreakAtMostActiveDays(u: User)
    requires LedgerInvariant(u)
    ensures u.streak <= |u.completedDates|
  {
    if u.lastActiveDate.Some? {
      var last := u.lastActiveDate.value;
      RangeCard(last - u.streak, last);
      SubsetCard(Range(last - u.streak, last), Elements(u.completedDates));
      ElementsCard(u.completedDates);
    }
  }

  /** The three outcomes of the streak rule on a first completion of the day. */
  lemma FirstOfDayStreakRules(streak: int, lastActive: Option<Day>, today: Day)
    ensures lastActive == None ==> FirstOfDayStreak(streak, lastActive, today) == 1
    ensures lastActive == Some(today - 1) ==> FirstOfDayStreak(streak, lastActive, today) == streak + 1
    ensures lastActive.Some? && lastActive.value < today - 1 ==> FirstOfDayStreak(streak, lastActive, today) == 1
    ensures lastActive.Some? && lastActive.value >= today ==> FirstOfDayStreak(streak, lastActive, today) == streak
  {
  }

  /** A second accepted submission on the same day leaves streak, last active day and
      completion days as the first one left them, and still pays the bounty. */
  lemma SecondSubmissionSameDay(u: User, p: string, q: string, today: Day)
    ensures var v := Submitted(u, p, today);
      var w := Submitted(v, q, today);
      && w.streak == v.streak && w.lastActiveDate == v.lastActiveDate
      && w.completedDates == v.completedDates
      && w.coins == u.coins + 2 * Bounty
      && w.completedProblems == u.completedProblems + [p, q]
  {
  }

  /** Consecutive days starting at `first`. */
  function DaysFrom(first: Day, n: nat): (r: seq<Day>)
    ensures |r| == n && forall i :: 0 <= i < n ==> r[i] == first + i
  {
    seq(n, i => first + i)
  }

  /** Accepted submissions of `problems`, one on each day from `first` on. */
  function SubmitDaily(u: User, problems: seq<string>, first: Day): User
    decreases |problems|
  {
    if problems == [] then u
    else SubmitDaily(Submitted(u, problems[0], first), problems[1..], first + 1)
  }

  /** Submitting on each of `n` consecutive days, starting the day after the last
      active day, adds `n` to the streak, `n` bounties to the coins, the `n` days to
      the completion days and the problems, in order, to the completed problems. */
  lemma {:induction false} ConsecutiveDaysExtendStreak(u: User, problems: seq<string>, first: Day)
    requires u.lastActiveDate == Some(first - 1)
    requires forall d :: d in u.completedDates ==> d < first
    ensures var v := SubmitDaily(u, problems, first);
      && v.streak == u.streak + |problems|
      && v.coins == u.coins + Bounty * |problems|
      && v.completedDates == u.completedDates + DaysFrom(first, |problems|)
      && v.completedProblems == u.completedProblems + problems
    decreases |problems|
  {
    if problems != [] {
      var u' := Submitted(u, problems[0], first);
      ConsecutiveDaysExtendStreak(u', problems[1..], first + 1);
      assert [first] + DaysFrom(first + 1, |problems| - 1) == DaysFrom(first, |problems|);
      assert [problems[0]] + problems[1..] == problems;
    }
  }

  /** A new user who submits one problem on each of `n >= 1` consecutive days ends
      with a streak of `n`. */
  lemma FreshUserDailyStreak(u: User, problems: seq<string>, first: Day)
    requires Fresh(u) && |problems| >= 1
    ensures SubmitDaily(u, problems, first).streak == |problems|
    ensures |SubmitDaily(u, problems, first).completedDates| == |problems|
  {
    var u' := Submitted(u, problems[0], first);
    ConsecutiveDaysExtendStreak(u', problems[1..], first + 1);
  }

  /** After a day with no completion, the next first completion starts again at 1. */
  lemma {:induction false} GapResetsStreak(u: User, problems: seq<string>, first: Day, later: Day, p: string)
    requires u.lastActiveDate == Some(first - 1)
    requires forall d :: d in u.completedDates ==> d < first
    requires later > first + |problems|
    ensures Submitted(SubmitDaily(u, problems, first), p, later).streak == 1
  {
    ConsecutiveDaysExtendStreak(u, problems, first);
    LastActiveAfterDaily(u, problems, first);
  }

  lemma {:induction false} LastActiveAfterDaily(u: User, problems: seq<string>, first: Day)
    requires u.lastActiveDate == Some(first - 1)
    requires forall d :: d in u.completedDates ==> d < first
    ensures SubmitDaily(u, problems, first).lastActiveDate == Some(first + |problems| - 1)
    decreases |problems|
  {
    if problems != [] {
      LastActiveAfterDaily(Submitted(u, problems[0], first), problems[1..], first + 1);
    }
  }

  /** A new user with no coins who submits "p1" earns 10 coins and a streak of 1. */
  lemma FirstSubmissionScenario(u: User, today: Day)
    requires Fresh(u) && u.coins == 0
    ensures var v := Submitted(u, "p1", today);
      v.coins == 10 && v.streak == 1 && v.completedProblems == ["p1"] && v.completedDates == [today]
      && !CompletedOn(u.completedDates, today)
  {
  }
}
