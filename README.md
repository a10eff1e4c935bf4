# AlgoLog practice tracker: verified model of its rules

AlgoLog tracks coding-practice habits. A user earns coins for each solved problem and
keeps a streak of consecutive active days. Coins buy a one-time theme. A heatmap shows
solved problems per day. A leaderboard ranks users by the solved count of their linked
LeetCode profile. This project models in Dafny the rules behind those features and
proves what they promise:

- the submission handler: validation, the first-of-day test, the streak rule, the
  10-coin bounty and the single write (`submit.dfy`, over the user record in
  `user_model.dfy` and the in-memory user table in `db.dfy`);
- the theme purchase (`theme.dfy`) and the partial user update (`user_route.dfy`);
- the normalisation of a fetched profile, including the expansion of the submission
  calendar into one date per solved problem (`leetcode.dfy`);
- the heatmap: per-day counts, the 53 × 7 grid of consecutive days, the statistics,
  the intensity levels and the month labels (`heatmap.dfy`). Proleptic Gregorian
  dates are converted to and from day numbers in `civil.dfy`;
- the leaderboard, where per-user failures are tolerated and results are sorted in
  place (`leaderboard.dfy`);
- the random choice of an uncompleted problem (`random_route.dfy`);
- the client-side user store and its reducers (`user_slice.dfy`);
- the dashboard's achievement tier and greeting name (`dashboard.dfy`);
- the navigation bar's active-item rule and solved counter (`navbar.dfy`).

Dates are integer day numbers: day 0 is 1 January 1970, UTC. "Today" is a parameter.
The random draw is a real `r` with `0 <= r < 1`. The profile fetch is an outcome given
per user. The datastore is a map from user id to record. Each `prisma.user.update` is
one atomic assignment of that map.

In these places the model follows the code, not what the interface or the API messages suggest:

- `formatLeetCodeData` parses the calendar a second time, outside any `try`
  (src/lib/leetcode.ts:54). So a calendar that is not JSON makes normalisation fail,
  even though `convertCalendarToDates` on its own falls back to an empty list.
  `LeetCode.FormatLeetCodeData` returns `Failure(CalendarNotJson)` in that case.
- `PATCH /api/user` with an unknown email answers 500, not 404. The update throws and
  the catch block answers (src/app/api/user/route.ts:17-27).
- On a first completion of the day where the last active day is today or later, the
  streak is kept. The last active day is still set and a date is still appended
  (src/app/api/problems/submit/route.ts:64,69,81-87). `SubmitRoute.KeepStreakBranchUnreachable`
  proves that this branch cannot be reached while the ledger invariant holds and the
  clock does not go back.
- The heatmap grid does not always reach 31 December. `Heatmap.GridCoversYear` states
  exactly when it does. `Heatmap.Grid2028MissesNewYearsEve` gives the 2028 case.

## Model

| member | source | states |
|---|---|---|
| SubmitRoute.Post | src/app/api/problems/submit/route.ts:4-112 | A missing `userId` or `problemId` gives 400, an unknown user 404 and an already-completed problem 400; none of these writes anything. Otherwise exactly one record changes, to `Submitted`. The reply carries the record without its password, `coinsEarned = 10`, `newStreak` equal to the stored streak, and `isFirstProblemToday` true iff no completion fell on today. |
| SubmitRoute.Submitted | src/app/api/problems/submit/route.ts:34-92 | Coins rise by exactly 10 and the problem id is appended once. If a completion already fell on today, streak, last active day and completion days are unchanged. Otherwise the streak follows the first-of-day rule, the last active day becomes today and today is appended. No other field changes. |
| SubmitRoute.CompletedOn | src/app/api/problems/submit/route.ts:38-42 | Today counts as completed iff some recorded completion day equals today. |
| SubmitRoute.FirstOfDayStreak | src/app/api/problems/submit/route.ts:45-68 | The first completion of a day raises the streak by at most one. After a past last active day, or with none, the streak becomes either 1 or the old streak + 1, and so it is at least 1. |
| SubmitRoute.SubmitUpdate | src/app/api/problems/submit/route.ts:73-87 | The update always adds the 10-coin bounty and pushes the problem. Streak, last active day and completion day are written together, and exactly when today has no completion yet; the day written is today. The update never touches the LeetCode username or the theme flag. |
| SubmitRoute.FirstOfDayStreakRules | src/app/api/problems/submit/route.ts:50-68 | First completion of the day: last active yesterday gives old streak + 1; earlier than yesterday gives 1; no last active day gives 1; today or later keeps the streak. |
| SubmitRoute.SecondSubmissionSameDay | src/app/api/problems/submit/route.ts:38-48 | A second accepted submission on the same day leaves streak, last active day and completion days as the first left them. It still pays the bounty and appends its problem. |
| SubmitRoute.SubmittedKeepsLedger | src/app/api/problems/submit/route.ts:27-87 | Accepted submissions preserve the ledger invariant: distinct problem ids, distinct completion days, last active day equal to the latest completion day, and the `streak` days ending there all active. |
| SubmitRoute.FreshSatisfiesLedger | src/app/api/problems/submit/route.ts:65-68 | A record with no history satisfies the ledger invariant. |
| SubmitRoute.KeepStreakBranchUnreachable | src/app/api/problems/submit/route.ts:64 | Under the invariant, with a clock that does not go back, a first completion of the day always finds the last active day before today. |
| SubmitRoute.StreakAtMostActiveDays | src/app/api/problems/submit/route.ts:45-69 | Under the invariant the streak never exceeds the number of completion days. |
| SubmitRoute.ConsecutiveDaysExtendStreak | src/app/api/problems/submit/route.ts:57-59 | One submission on each of n consecutive days after the last active day adds n to the streak, 10n to the coins, the n days to the completion days and the problems in order. |
| SubmitRoute.LastActiveAfterDaily | src/app/api/problems/submit/route.ts:81-84 | After daily submissions the last active day is the last of those days. |
| SubmitRoute.FreshUserDailyStreak | src/app/api/problems/submit/route.ts:65-67 | A new user who submits on n ≥ 1 consecutive days has a streak of n and n completion days. |
| SubmitRoute.GapResetsStreak | src/app/api/problems/submit/route.ts:60-63 | After a day without a completion, the next first completion sets the streak to 1. |
| SubmitRoute.FirstSubmissionScenario | src/app/api/problems/submit/route.ts:73-102 | A new user with 0 coins who submits "p1" ends with 10 coins, streak 1, problems ["p1"] and one completion day. |
| Db.Store.FindById | src/app/api/problems/submit/route.ts:15-17 | The lookup finds a record iff the id is stored, and returns that record. |
| Db.Store.FindByEmail | src/app/api/store/theme/route.ts:9 | The lookup finds a record iff some stored record has the email, and returns that record, stored under its own id. |
| Db.Store.Update | src/app/api/problems/submit/route.ts:89-92 | A stored record is replaced by the update applied to it and nothing else changes. An unknown id changes nothing. |
| UserModel.Apply | src/app/api/problems/submit/route.ts:73-87 | Each of `coins`, `streak`, `lastActiveDate`, `leetcodeUsername` and `themePurchased` takes the update's value when present and keeps its own otherwise. A present `push` appends exactly that one element to its list; an absent one leaves the list unchanged. Id, email, name and password never change. |
| UserModel.ApplyNoChange | src/app/api/user/route.ts:12-20 | An update with no fields leaves the record unchanged. |
| UserModel.WithoutPasswordHidesPassword | src/app/api/problems/submit/route.ts:95 | The returned user does not depend on the stored password. |
| ThemeRoute.Purchase | src/app/api/store/theme/route.ts:12-20 | The purchase succeeds iff the theme is not yet purchased and the user has at least 20 coins. Already purchased is checked first; too few coins is checked next. Success debits exactly 20, sets the flag and leaves coins ≥ 0. |
| ThemeRoute.PurchaseAtMostOnce | src/app/api/store/theme/route.ts:12-19 | After a successful purchase every further purchase fails with "already purchased", so the debit happens at most once. |
| ThemeRoute.Post | src/app/api/store/theme/route.ts:4-27 | A missing email gives 400 and an unknown email 404; each refusal of `Purchase` is returned; none of these writes. On success exactly the buyer's record becomes the purchased one. |
| UserRoute.PatchData | src/app/api/user/route.ts:12-15 | The update object carries `leetcodeUsername`, `coins` and `themePurchased` exactly as the request has them, and no other field. |
| UserRoute.Patched | src/app/api/user/route.ts:12-20 | `leetcodeUsername`, `coins` and `themePurchased` each take the requested value iff present and keep theirs otherwise. No other field changes. |
| UserRoute.EmptyPatchIsIdentity | src/app/api/user/route.ts:12-20 | A request with none of the optional fields leaves the record unchanged. |
| UserRoute.PatchIdempotent | src/app/api/user/route.ts:12-20 | Applying the same patch twice equals applying it once. |
| UserRoute.Patch | src/app/api/user/route.ts:4-28 | A missing email gives 400 and an unknown email 500, neither writing. Otherwise only that record changes, to `Patched`, and it is returned without its password. |
| LeetCode.Repeat | src/lib/leetcode.ts:26-28 | A count n > 0 gives n copies of the date and a count ≤ 0 gives none. |
| LeetCode.DayOfTimestamp | src/lib/leetcode.ts:24-25 | The day of a timestamp is the UTC day containing it: the timestamp lies in that day's 86400 seconds, for negative timestamps too. |
| LeetCode.CalendarDates | src/lib/leetcode.ts:19-34 | A calendar that is not JSON gives no dates, and so does one holding any timestamp a `Date` cannot format. A parsed calendar whose timestamps are all valid gives the expansion of its entries. |
| LeetCode.PushCopies | src/lib/leetcode.ts:26-28 | The inner loop appends exactly `count` copies of the date, and none for a count of 0 or less. |
| LeetCode.CountAt | src/lib/leetcode.ts:42-50 | Entry i of a list when it exists, and 0 when the list is shorter. |
| LeetCode.ConvertCalendarToDates | src/lib/leetcode.ts:19-34 | A malformed calendar, or any timestamp a `Date` cannot format, gives the empty list. Otherwise the result is the expansion: entry by entry, each date repeated count times. |
| LeetCode.ExpansionAppend | src/lib/leetcode.ts:23-29 | Expanding a concatenation concatenates the expansions, so each entry's copies are contiguous and in entry order. |
| LeetCode.ExpansionLength | src/lib/leetcode.ts:23-29 | The output length is the sum of the positive counts. |
| LeetCode.ExpansionOccurrences | src/lib/leetcode.ts:26-28 | Each date occurs exactly as often as the positive counts of the entries on that date add up to. |
| LeetCode.ExpansionMembers | src/lib/leetcode.ts:24-28 | A date appears iff some entry with a positive count has a timestamp on that UTC day. |
| LeetCode.ExampleCalendar | src/lib/leetcode.ts:24-25 | `{"1700000000": 2}` expands to two copies of 2023-11-14. |
| LeetCode.FormatLeetCodeData | src/lib/leetcode.ts:36-61 | Normalisation succeeds iff there is a matched user whose calendar is absent or valid JSON. With no matched user, or a calendar that is not JSON, it fails with that reason. On success solved and total counts are entries 0..3 of their lists, 0 when missing. Ranking, reputation and contribution points are copied. The dates are the expansion of the calendar, with an absent calendar read as "{}". |
| LeetCode.FormatDefaults | src/lib/leetcode.ts:42-57 | With four difficulty records the counts are copied in order. With none, every count is 0. An absent calendar gives no dates. |
| Civil.RoundTrip | src/components/Heatmap.tsx:37 | Converting a day number to a civil date and back gives the same day. |
| Civil.YearOfIff | src/components/Heatmap.tsx:40 | A day lies in year y iff it is between 1 January of y and 1 January of y + 1. |
| Civil.YearLength | src/components/Heatmap.tsx:52 | A year has 366 days if it is a leap year and 365 otherwise. |
| Civil.Weekday | src/components/Heatmap.tsx:17 | The day of the week lies in 0..6, with Sunday as 0. |
| Civil.Epoch | src/lib/leetcode.ts:24-25 | Day 0 is Thursday 1 January 1970. |
| Heatmap.GridStart | src/components/Heatmap.tsx:14-19 | The first grid day is a Sunday, on or at most six days before 1 January. |
| Heatmap.Tally | src/components/Heatmap.tsx:22-27 | The count map has exactly the days that occur as keys, each mapped to its number of occurrences, which is at least 1. |
| Heatmap.CountByDay | src/components/Heatmap.tsx:22-27 | The `forEach` loop builds exactly the tally of the input. |
| Heatmap.TallyStep | src/components/Heatmap.tsx:22-27 | Counting one more date adds one to that date's count and leaves every other day's count as it was. |
| Heatmap.TallyCount | src/components/Heatmap.tsx:38 | The count looked up for a day, with 0 when it is missing, is its number of occurrences. |
| Heatmap.BuildGrid | src/components/Heatmap.tsx:30-56 | The nested loops produce exactly `Grid` of the start day: 53 weeks of exactly 7 cells, the cell in week w and row d being the cell for the start day + 7w + d (`GridAt`). |
| Heatmap.GridAt | src/components/Heatmap.tsx:30-52 | `Grid` has 53 weeks of 7 cells, and its cell in week w and row d is the cell built for the start day + 7w + d. |
| Heatmap.MaxInDay | src/components/Heatmap.tsx:65 | `maxInDay` is at least every per-day count, equals the count of some input day, and is 0 iff the input is empty. |
| Heatmap.Build | src/components/Heatmap.tsx:9-75 | The grid is `Grid` of the Sunday on or before 1 January of today's year: 53 × 7 consecutive days, with each cell from `CellFor`. `totalProblems` is the input length, `activeDays` the number of distinct days, and `maxInDay` the largest per-day count. |
| Heatmap.CellMeaning | src/components/Heatmap.tsx:37-49 | For the cell `CellFor` builds: a cell's count is the number of occurrences of its day. It is today's cell iff its day is today. `isCurrentYear` holds iff its day lies in the current year. Month and weekday are in range. |
| Heatmap.GridConsecutive | src/components/Heatmap.tsx:49-52 | The cell in week w and row d falls on weekday d, counting from a Sunday start. |
| Heatmap.GridTotalAtMostTotal | src/components/Heatmap.tsx:22-38 | For a grid built from any start day, the cells are distinct days, so their counts add up to at most `totalProblems`. |
| Heatmap.GridCellAt | src/components/Heatmap.tsx:30-52 | The k-th cell in row-major order is for the k-th day from the grid's start and shows that day's number of entries. |
| Heatmap.GridCellInYear | src/components/Heatmap.tsx:38-40 | The k-th cell is marked current-year iff its day lies between 1 January of the grid's year and 1 January of the next year. |
| Heatmap.YearCountByDay | src/components/Heatmap.tsx:22-27 | Counting a year's entries one by one gives the same number as adding the per-day counts from 1 January to 31 December. |
| Heatmap.CurrentYearCells | src/components/Heatmap.tsx:38-40 | For cells of consecutive days that are current-year cells exactly on a range of days, the current-year total is the number of entries on the days both in the grid and in that range. |
| Heatmap.GridDaySum | src/components/Heatmap.tsx:30-56 | For a grid starting on or before 1 January, the current-year total is the number of entries from 1 January up to the grid's last day or 31 December, whichever comes first. |
| Heatmap.GridEnd | src/components/Heatmap.tsx:14-56 | The grid's last day is on or after 31 December, except in a leap year starting on a Saturday, where it is exactly 30 December. |
| Heatmap.GridYearTotal | src/components/Heatmap.tsx:30-56 | The counts of the current-year cells add up to the number of entries in the current year. In a leap year starting on a Saturday they fall short by exactly the entries on 31 December. |
| Heatmap.YearTotalOfGrid | src/components/Heatmap.tsx:30-56 | The day-by-day total of the grid equals the year's entry count, or falls short by the entries on 31 December in a leap year starting on a Saturday. |
| Heatmap.ActiveDaysAtMostTotal | src/components/Heatmap.tsx:59-64 | `activeDays` ≤ `totalProblems`, and it is at least 1 for a non-empty input. |
| Heatmap.GridCoversYear | src/components/Heatmap.tsx:14-56 | The grid reaches 31 December iff the year is not a leap year starting on a Saturday. In every other year it covers all days of the year. |
| Heatmap.Grid2028MissesNewYearsEve | src/components/Heatmap.tsx:33-56 | 31 December 2028 belongs to 2028 but has no cell in the 2028 grid. |
| Heatmap.IntensityLevel | src/components/Heatmap.tsx:77-82 | The level lies in 0..3. It is 0 iff the count is 0, equals the count for counts 0 to 2, and is 3 for every count of 3 or more. |
| Heatmap.IntensityMonotone | src/components/Heatmap.tsx:77-82 | A larger count never gives a lower level. |
| Heatmap.MonthPositions | src/components/Heatmap.tsx:126-141 | A month gets a position iff some current-year cell falls in it. The position is the first week holding such a cell. |
| Heatmap.MonthLabels | src/components/Heatmap.tsx:126-145 | Each current-year month gets exactly one label, at its first week, with its name. The labels are in strictly increasing month order. |
| LeaderboardRoute.Selected | src/app/api/leaderboard/route.ts:9-12 | Exactly the users with a non-null `leetcodeUsername` are selected, with their identity columns. There are never more rows than users. |
| LeaderboardRoute.SelectedAppend | src/app/api/leaderboard/route.ts:9-12 | Selecting from two runs of users gives the rows of the first run, then those of the second: the datastore's order is kept. |
| LeaderboardRoute.SelectedOneEach | src/app/api/leaderboard/route.ts:9-12 | Each user contributes exactly one row, its own and at its place in the order, when it has a linked profile, and none otherwise. |
| LeaderboardRoute.Results | src/app/api/leaderboard/route.ts:14-28 | There is one entry per selected row, in row order, carrying that row's id and email. Entry i is what `EntryFor` gives for row i and its fetch outcome: the fetched stats, or 0 solved and no ranking when the fetch or the normalisation failed. |
| LeaderboardRoute.EntryFor | src/app/api/leaderboard/route.ts:14-28 | The identity columns are kept. A successful fetch and normalisation copies `totalSolved` and `ranking`. A thrown request, an `errors` reply or a failed normalisation gives 0 solved and no ranking. |
| LeaderboardRoute.ResultsPerUser | src/app/api/leaderboard/route.ts:14-28 | There is one entry per selected user, with that user's identity. Changing one user's fetch outcome changes no other user's entry. |
| LeaderboardRoute.SortBySolved | src/app/api/leaderboard/route.ts:30 | The in-place sort leaves the array sorted non-increasing by `totalSolved` and is a permutation of its input. |
| LeaderboardRoute.Insert | src/app/api/leaderboard/route.ts:30 | One insertion step extends the sorted prefix by one element and only permutes the array. |
| LeaderboardRoute.Get | src/app/api/leaderboard/route.ts:7-31 | The leaderboard is a permutation of the per-user entries, sorted non-increasing by solved count. |
| LeaderboardRoute.ZeroSolvedLast | src/app/api/leaderboard/route.ts:26-30 | In the sorted board, only entries with no solved problems follow an entry with 0. So a failed user comes last when everyone else has solved something. |
| RandomRoute.Available | src/app/api/problems/random/route.ts:15-17 | A problem is available iff it is in the catalog and its id is not completed. |
| RandomRoute.AvailableAppend | src/app/api/problems/random/route.ts:15-17 | Filtering commutes with concatenation, so available problems keep catalog order. |
| RandomRoute.NothingCompleted | src/app/api/problems/random/route.ts:7-17 | With an empty completed list the whole catalog is available. |
| RandomRoute.RandomIndex | src/app/api/problems/random/route.ts:21-29 | For a draw in [0, 1) the index lies in [0, n) when n > 0. |
| RandomRoute.RandomIndexReaches | src/app/api/problems/random/route.ts:29 | Every index k < n is produced by the draw k / n. |
| RandomRoute.SelectRandom | src/app/api/problems/random/route.ts:7-35 | An absent completed list counts as empty. If some problem is available, one of them is returned with the success message, and its id is not completed. Otherwise the "All problems completed" message is given, with a problem from the whole catalog iff the catalog is non-empty. |
| RandomRoute.EveryAvailableReachable | src/app/api/problems/random/route.ts:29-30 | Every available problem is chosen by some draw. |
| UserSlice.LoadUser | src/store/userSlice.ts:4-13 | The initial state is the cached user iff one is cached and parses, and null otherwise. |
| UserSlice.Reduce | src/store/userSlice.ts:17-33 | `setUser` replaces the state and `logout` gives null. Each update sets its one field of a present user, leaves all other fields alone, and leaves a null state null. |
| UserSlice.LoggedOutStaysOut | src/store/userSlice.ts:22-31 | From null, no sequence of actions without `setUser` leads to a user. |
| UserSlice.UpdatesCommute | src/store/userSlice.ts:22-30 | Updates of different fields commute, and for the same field the last update wins. |
| UserSlice.Store.constructor | src/store/userSlice.ts:15 | The store starts in the state `loadUser` gives. |
| UserSlice.Store.SetUser | src/store/userSlice.ts:21 | The state becomes the reducer's result for `setUser`. |
| UserSlice.Store.UpdateCoins | src/store/userSlice.ts:22-24 | The draft assignment gives the reducer's result for `updateCoins`. |
| UserSlice.Store.UpdateSolved | src/store/userSlice.ts:25-27 | The draft assignment gives the reducer's result for `updateSolved`. |
| UserSlice.Store.UpdateThemePurchased | src/store/userSlice.ts:28-30 | The draft assignment gives the reducer's result for `updateThemePurchased`. |
| UserSlice.Store.Logout | src/store/userSlice.ts:31 | The state becomes null. |
| Dashboard.Achievement | src/components/Dashboard.tsx:154-156 | Streak ≥ 7 gives Week Warrior and streak 3–6 gives Streak Master, whatever the problem count. A streak below 3 gives Problem Solver with at least 5 problems and Getting Started otherwise. |
| Dashboard.AchievementText | src/components/Dashboard.tsx:154-156 | The badge reads "Week Warrior" for streak ≥ 7, "Streak Master" for streak 3–6, "Problem Solver" for a lower streak with at least 5 problems, and "Getting Started" otherwise. |
| Dashboard.AchievementMonotone | src/components/Dashboard.tsx:154-156 | A longer streak or more problems never gives a lower tier. |
| Dashboard.LocalPart | src/components/Dashboard.tsx:68 | The result is a prefix of the email without '@', and it ends just before the first '@' if there is one. |
| Dashboard.LocalPartUnique | src/components/Dashboard.tsx:68 | Those three properties determine the part before the first '@' uniquely. |
| Dashboard.DisplayName | src/components/Dashboard.tsx:68 | A non-empty name is shown. Otherwise the email's part before the first '@' is shown. |
| Navbar.IsActive | src/components/Navbar.tsx:41-46 | "/" is active iff the path is exactly "/". Any other item is active iff the path starts with its href. |
| Navbar.PrefixActivates | src/components/Navbar.tsx:45 | Every path that extends an item's href activates that item. |
| Navbar.StorefrontActivatesStore | src/components/Navbar.tsx:38-45 | "/storefront" and "/store/x" both activate "/store". |
| Navbar.AtMostOneActive | src/components/Navbar.tsx:35-46 | On any path at most one of "/", "/leaderboard" and "/store" is active. |
| Navbar.SolvedShown | src/components/Navbar.tsx:163 | The counter shows the completed list's length if the list is present, else `solved` if present, else 0. |
| Navbar.UpdateSolvedHiddenByList | src/components/Navbar.tsx:263 | When the completed list is present, `updateSolved` does not change the number shown. |

## Left out

- Request JSON parsing, and the catch blocks that answer 500 when the datastore or the file system throws. A persistence failure is not modelled. The one throw that follows from the data, `PATCH /api/user` on an unknown email, is modelled.
- Time of day and time zones. The submission handler truncates to local midnight and the heatmap parses date strings. Both are modelled as UTC day numbers. The tooltip and `toDateString`/`toLocaleDateString` formatting are not modelled.
- The LeetCode GraphQL request and the `LEETCODE_QUERY` text. Each fetch is a given outcome. The fields that normalisation passes through unchanged (`totalSubmissions`, `recentSubmissions`, `matchedUserStats`) are not modelled.
- ConvertCalendarToDates: counts are integers. A fractional count in the JSON is not modelled. `Object.entries` order is taken as the given entry order.
- The order in which `findMany` returns users is an input sequence. `Promise.all` is a sequential map, and the 1-hour `revalidate` cache is framework behaviour.
- LeaderboardRoute.SortBySolved: does not state that tied entries keep their order. `Array.prototype.sort` is stable, and so is the insertion sort of the model, but the contract states only sortedness and permutation.
- The problem catalog file read is not modelled; the catalog is a parameter. A `completedProblems` of `null` makes the filter throw (answer 500); this is not modelled.
- The client store's `localStorage` reads and writes are not modelled as I/O. `loadUser` receives what start-up found as a `Cache` value: `NoWindow` for the `typeof window` check, `NotCached`, `Unparseable`, `CachedNull` for the text `"null"` that the store writes after a logout (src/store/index.ts:11-12), or `Cached`. Every case but `Cached` gives `null`.
- Rendering, CSS classes, hooks and navigation are not modelled. Neither are the floating-point progress-bar widths in the dashboard.
- Two concurrent submissions of the same problem by the same user are not modelled; each call runs alone.
