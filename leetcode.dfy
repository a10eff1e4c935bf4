/** Normalisation of a fetched competitive-programming profile: the per-day submission
    calendar expanded to one date per solved problem, and the solved/total counts picked
    by difficulty index. */
module LeetCode {
  import opened Wrappers
  import opened Civil

  const SecondsPerDay := 86400

  /** A JavaScript `Date` holds at most this many milliseconds either side of the epoch;
      formatting any later (or earlier) time value throws. */
  const MaxTimeMs := 8640000000000000

  /** One calendar entry: a UNIX timestamp in seconds and a solve count. */
  datatype CalendarEntry = CalendarEntry(secs: int, count: int)

  /** The calendar after JSON parsing: its entries in enumeration order, or a parse failure. */
  datatype Calendar = Malformed | Entries(entries: seq<CalendarEntry>)

  predicate ValidTimestamp(secs: int)
  {
    -MaxTimeMs <= secs * 1000 <= MaxTimeMs
  }

  /** The UTC calendar day of a timestamp in seconds (the date part of `toISOString`). */
  function DayOfTimestamp(secs: int): (d: Day)
    ensures SecondsPerDay * d <= secs < SecondsPerDay * (d + 1)
  {
    secs / SecondsPerDay
  }

  /** `n` copies of day `d`; none when `n <= 0`. */
  function Repeat(d: Day, n: int): (r: seq<Day>)
    ensures |r| == if n <= 0 then 0 else n
    ensures forall i :: 0 <= i < |r| ==> r[i] == d
  {
    if n <= 0 then [] else seq(n, _ => d)
  }

  /** The dates an entry list expands to: each entry's day, `count` times, entry by entry. */
  function Expansion(entries: seq<CalendarEntry>): seq<Day>
  {
    if entries == [] then []
    else Repeat(DayOfTimestamp(entries[0].secs), entries[0].count) + Expansion(entries[1..])
  }

  /** `convertCalendarToDates` as a value: the empty list for a parse failure or for any
      timestamp a `Date` cannot format, and the expansion otherwise. */
  function CalendarDates(cal: Calendar): (dates: seq<Day>)
    ensures cal.Malformed? ==> dates == []
    ensures dates != [] ==> cal.Entries? && dates == Expansion(cal.entries)
    ensures cal.Entries? && (forall i :: 0 <= i < |cal.entries| ==> ValidTimestamp(cal.entries[i].secs)) ==>
      dates == Expansion(cal.entries)
    ensures cal.Entries? && (exists i :: 0 <= i < |cal.entries| && !ValidTimestamp(cal.entries[i].secs)) ==>
      dates == []
  {
    if cal.Malformed? || exists i :: 0 <= i < |cal.entries| && !ValidTimestamp(cal.entries[i].secs) then []
    else Expansion(cal.entries)
  }

  method ConvertCalendarToDates(cal: Calendar) returns (dates: seq<Day>)
    ensures dates == CalendarDates(cal)
  {
    if cal.Malformed? {
      return [];
    }
    var entries := cal.entries;
    dates := [];
    for k := 0 to |entries|
      invariant forall i :: 0 <= i < k ==> ValidTimestamp(entries[i].secs)
      invariant dates == Expansion(entries[..k])
    {
      var secs, count := entries[k].secs, entries[k].count;
      if !ValidTimestamp(secs) {
        // `toISOString` throws a RangeError; the catch block discards the partial list.
        assert 0 <= k < |cal.entries| && !ValidTimestamp(cal.entries[k].secs);
        return [];
      }
      var dateStr := DayOfTimestamp(secs);
      dates := PushCopies(dates, dateStr, count);
      ExpansionAppend(entries[..k], [entries[k]]);
      assert entries[..k + 1] == entries[..k] + [entries[k]];
    }
    assert entries[..|entries|] == entries;
  }

  /** The inner `for` of `convertCalendarToDates`: `count` pushes of one date. */
  method PushCopies(dates: seq<Day>, day: Day, count: int) returns (r: seq<Day>)
    ensures r == dates + Repeat(day, count)
  {
    r := dates;
    var i := 0;
    while i < count
      invariant 0 <= i <= if count <= 0 then 0 else count
      invariant r == dates + Repeat(day, i)
    {
      r := r + [day];
      i := i + 1;
    }
  }

  /** Expanding a concatenation concatenates the expansions, so each entry's copies
      form one contiguous block, in entry order. */
  lemma {:induction false} ExpansionAppend(a: seq<CalendarEntry>, b: seq<CalendarEntry>)
    ensures Expansion(a + b) == Expansion(a) + Expansion(b)
  {
    if a != [] {
      ExpansionAppend(a[1..], b);
      assert (a + b)[0] == a[0] && (a + b)[1..] == a[1..] + b;
    } else {
      assert a + b == b;
    }
  }

  /** The sum of the positive counts. */
  function PositiveTotal(entries: seq<CalendarEntry>): nat
  {
    if entries == [] then 0
    else (if entries[0].count > 0 then entries[0].count else 0) + PositiveTotal(entries[1..])
  }

  /** The expansion has exactly as many dates as the positive counts add up to. */
  lemma {:induction false} ExpansionLength(entries: seq<CalendarEntry>)
    ensures |Expansion(entries)| == PositiveTotal(entries)
  {
    if entries != [] {
      ExpansionLength(entries[1..]);
    }
  }

  /** The copies of day `d`: the positive counts of the entries whose day is `d`. */
  function CountOn(entries: seq<CalendarEntry>, d: Day): nat
  {
    if entries == [] then 0
    else (if DayOfTimestamp(entries[0].secs) == d && entries[0].count > 0 then entries[0].count else 0)
         + CountOn(entries[1..], d)
  }

  /** Each entry with count `n > 0` contributes exactly `n` copies of its day, and
      entries with count `<= 0` contribute nothing. */
  lemma {:induction false} ExpansionOccurrences(entries: seq<CalendarEntry>, d: Day)
    ensures multiset(Expansion(entries))[d] == CountOn(entries, d)
  {
    if entries != [] {
      ExpansionOccurrences(entries[1..], d);
      var e := entries[0];
      var block := Repeat(DayOfTimestamp(e.secs), e.count);
      assert multiset(block)[d] == if DayOfTimestamp(e.secs) == d && e.count > 0 then e.count else 0 by {
        RepeatOccurrences(DayOfTimestamp(e.secs), e.count, d);
      }
      assert multiset(Expansion(entries)) == multiset(block) + multiset(Expansion(entries[1..]));
    }
  }

  lemma {:induction false} RepeatOccurrences(x: Day, n: int, d: Day)
    ensures multiset(Repeat(x, n))[d] == if x == d && n > 0 then n else 0
    decreases if n <= 0 then 0 else n
  {
    if n > 0 {
      RepeatOccurrences(x, n - 1, d);
      assert Repeat(x, n) == Repeat(x, n - 1) + [x];
    }
  }

  /** Every expanded date is the day of some entry with a positive count, and every such
      entry's day occurs. */
  lemma ExpansionMembers(entries: seq<CalendarEntry>, d: Day)
    ensures d in Expansion(entries) <==>
      exists i :: 0 <= i < |entries| && entries[i].count > 0 && DayOfTimestamp(entries[i].secs) == d
  {
    ExpansionOccurrences(entries, d);
    CountOnPositive(entries, d);
  }

  lemma {:induction false} CountOnPositive(entries: seq<CalendarEntry>, d: Day)
    ensures CountOn(entries, d) > 0 <==>
      exists i :: 0 <= i < |entries| && entries[i].count > 0 && DayOfTimestamp(entries[i].secs) == d
  {
    if entries != [] {
      CountOnPositive(entries[1..], d);
      if CountOn(entries[1..], d) > 0 {
        var i :| 0 <= i < |entries[1..]| && entries[1..][i].count > 0 && DayOfTimestamp(entries[1..][i].secs) == d;
        assert entries[i + 1] == entries[1..][i];
      }
      forall i | 1 <= i < |entries| && entries[i].count > 0 && DayOfTimestamp(entries[i].secs) == d
        ensures CountOn(entries[1..], d) > 0
      {
        assert entries[1..][i - 1] == entries[i];
      }
    }
  }

  /** `{"1700000000": 2}` gives two copies of 14 November 2023. */
  lemma ExampleCalendar()
    ensures CalendarDates(Entries([CalendarEntry(1700000000, 2)])) == [19675, 19675]
    ensures CivilFromDays(19675) == Date(2023, 11, 14)
  {
    assert ValidTimestamp(1700000000);
    assert Expansion([CalendarEntry(1700000000, 2)]) == Repeat(19675, 2) + Expansion([]);
    assert (19675 + 719468) / 146097 == 5 && (19675 + 719468) % 146097 == 8658;
    var p := SplitEra(8658);
    assert p == EraPos(23, 258);
  }

  /** The profile part of a fetched payload that normalisation reads. Each list holds
      the `count` of its `{ difficulty, count }` records, in the order received (all,
      easy, medium, hard). An absent `submissionCalendar` is `None`. */
  datatype MatchedUser = MatchedUser(
    ranking: int,
    reputation: int,
    contributionPoints: int,
    submissionCalendar: Option<Calendar>,
    acSubmissionNum: seq<int>)

  /** The `data` of a fetched payload; `matchedUser` is `null` for an unknown profile. */
  datatype RawData = RawData(allQuestionsCount: seq<int>, matchedUser: Option<MatchedUser>)

  datatype Stats = Stats(
    totalSolved: int,
    totalQuestions: int,
    easySolved: int,
    totalEasy: int,
    mediumSolved: int,
    totalMedium: int,
    hardSolved: int,
    totalHard: int,
    ranking: int,
    contributionPoint: int,
    reputation: int,
    submissionCalendar: seq<CalendarEntry>,
    completedDates: seq<Day>)

  /** `xs[i]?.count ?? 0` */
  function CountAt(xs: seq<int>, i: nat): (n: int)
    ensures i < |xs| ==> n == xs[i]
    ensures i >= |xs| ==> n == 0
  {
    if i < |xs| then xs[i] else 0
  }

  /** Why normalisation threw: no profile (`matchedUser` is null), or a calendar string
      that is not JSON (it is parsed once more, outside any `try`). */
  datatype FormatError = NoMatchedUser | CalendarNotJson

  /** `formatLeetCodeData`. An absent calendar is read as `"{}"`. */
  function FormatLeetCodeData(data: RawData): (r: Result<Stats, FormatError>)
    ensures r.Success? <==>
      data.matchedUser.Some? && data.matchedUser.value.submissionCalendar != Some(Malformed)
    ensures data.matchedUser.None? ==> r == Failure(NoMatchedUser)
    ensures data.matchedUser.Some? && data.matchedUser.value.submissionCalendar == Some(Malformed) ==>
      r == Failure(CalendarNotJson)
    ensures r.Success? ==>
      var ac, q, m := data.matchedUser.value.acSubmissionNum, data.allQuestionsCount, data.matchedUser.value;
      && [r.value.totalSolved, r.value.easySolved, r.value.mediumSolved, r.value.hardSolved]
         == [CountAt(ac, 0), CountAt(ac, 1), CountAt(ac, 2), CountAt(ac, 3)]
      && [r.value.totalQuestions, r.value.totalEasy, r.value.totalMedium, r.value.totalHard]
         == [CountAt(q, 0), CountAt(q, 1), CountAt(q, 2), CountAt(q, 3)]
      && r.value.ranking == m.ranking && r.value.reputation == m.reputation
      && r.value.contributionPoint == m.contributionPoints
      && r.value.completedDates == CalendarDates(m.submissionCalendar.GetOr(Entries([])))
  {
    match data.matchedUser
    case None => Failure(NoMatchedUser)
    case Some(m) =>
      var cal := m.submissionCalendar.GetOr(Entries([]));
      if cal.Malformed? then Failure(CalendarNotJson)
      else
        var ac, q := m.acSubmissionNum, data.allQuestionsCount;
        Success(Stats(
          totalSolved := CountAt(ac, 0),
          totalQuestions := CountAt(q, 0),
          easySolved := CountAt(ac, 1),
          totalEasy := CountAt(q, 1),
          mediumSolved := CountAt(ac, 2),
          totalMedium := CountAt(q, 2),
          hardSolved := CountAt(ac, 3),
          totalHard := CountAt(q, 3),
          ranking := m.ranking,
          contributionPoint := m.contributionPoints,
          reputation := m.reputation,
          submissionCalendar := cal.entries,
          completedDates := CalendarDates(cal)))
  }

  /** With all four difficulty records present the counts are copied in order; with
      none present every count is 0; a profile with no calendar has no dates. */
  lemma FormatDefaults(data: RawData)
    requires FormatLeetCodeData(data).Success?
    ensures var s, m := FormatLeetCodeData(data).value, data.matchedUser.value;
      && (|m.acSubmissionNum| >= 4 ==>
            [s.totalSolved, s.easySolved, s.mediumSolved, s.hardSolved] == m.acSubmissionNum[..4])
      && (m.acSubmissionNum == [] ==> s.totalSolved == s.easySolved == s.mediumSolved == s.hardSolved == 0)
      && (data.allQuestionsCount == [] ==> s.totalQuestions == s.totalEasy == s.totalMedium == s.totalHard == 0)
      && (m.submissionCalendar.None? ==> s.completedDates == [])
  {
  }
}
