/** The activity heatmap: completions counted per day, a grid of 53 weeks of 7
    consecutive days starting on the Sunday on or before 1 January of the current year,
    the summary statistics, the four intensity levels and the month labels. */
module Heatmap {
  import opened Civil
  import opened Seqs

  const Weeks := 53
  const DaysPerWeek := 7

  /** One square of the grid. `month` is 0-based (January is 0), `dayOfWeek` 0 is Sunday. */
  datatype Cell = Cell(date: Day, count: nat, isToday: bool, isCurrentYear: bool, month: int, dayOfWeek: int)

  datatype Stats = Stats(totalProblems: nat, activeDays: nat, maxInDay: nat)

  /** The Sunday on or before 1 January of year `y`: the first day of the grid. */
  function GridStart(y: int): (s: Day)
    ensures Weekday(s) == 0
    ensures s <= NewYear(y) < s + DaysPerWeek
  {
    var newYear := NewYear(y);
    WeekdayShift(newYear, -Weekday(newYear));
    newYear - Weekday(newYear)
  }

  /** `problemCounts`: each day that occurs in `dates`, mapped to its number of occurrences. */
  function Tally(dates: seq<Day>): (m: map<Day, nat>)
    ensures m.Keys == Elements(dates)
    ensures forall d :: d in m ==> m[d] == multiset(dates)[d] && m[d] > 0
  {
    map d | d in Elements(dates) :: multiset(dates)[d]
  }

  /** `problemCounts.get(key) || 0` */
  function CountIn(counts: map<Day, nat>, d: Day): nat
  {
    if d in counts then counts[d] else 0
  }

  /** The cell the grid shows for day `date`. */
  function CellFor(date: Day, counts: map<Day, nat>, today: Day, currentYear: int): Cell
  {
    Cell(date, CountIn(counts, date), date == today, YearOf(date) == currentYear,
         CivilFromDays(date).month - 1, Weekday(date))
  }

  /** The grid `Heatmap` shows: 53 weeks of 7 cells, the cell for the day `7 * w + d` days
      after `start` at week `w`, weekday `d`. */
  function Grid(start: Day, counts: map<Day, nat>, today: Day, currentYear: int): seq<seq<Cell>>
  {
    seq(Weeks, w requires 0 <= w < Weeks =>
      seq(DaysPerWeek, d requires 0 <= d < DaysPerWeek =>
        CellFor(start + DaysPerWeek * w + d, counts, today, currentYear)))
  }

  /** Week `w`, weekday `d` of the grid is the cell for the day `7 * w + d` days after `start`. */
  lemma GridAt(start: Day, counts: map<Day, nat>, today: Day, currentYear: int, w: int, d: int)
    requires 0 <= w < Weeks && 0 <= d < DaysPerWeek
    ensures |Grid(start, counts, today, currentYear)| == Weeks
    ensures |Grid(start, counts, today, currentYear)[w]| == DaysPerWeek
    ensures Grid(start, counts, today, currentYear)[w][d] ==
      CellFor(start + DaysPerWeek * w + d, counts, today, currentYear)
  {
  }

  /** The per-day count of a day is its number of occurrences in the input, and 0 for a
      day that does not occur. */
  lemma TallyCount(dates: seq<Day>, d: Day)
    ensures CountIn(Tally(dates), d) == multiset(dates)[d]
  {
  }

  /** The `forEach` that fills `problemCounts`. */
  method CountByDay(dates: seq<Day>) returns (counts: map<Day, nat>)
    ensures counts == Tally(dates)
  {
    counts := map[];
    for i := 0 to |dates|
      invariant counts == Tally(dates[..i])
    {
      var key := dates[i];
      var prev := CountIn(counts, key);
      assert dates[..i + 1] == dates[..i] + [key];
      TallyStep(dates[..i], key);
      counts := counts[key := prev + 1];
    }
    assert dates[..|dates|] == dates;
  }

  /** Tallying one more date adds one to that date's count and changes no other. */
  lemma TallyStep(dates: seq<Day>, x: Day)
    ensures Tally(dates + [x]) == Tally(dates)[x := CountIn(Tally(dates), x) + 1]
  {
    var before, after := Tally(dates), Tally(dates + [x]);
    assert multiset(dates + [x]) == multiset(dates) + multiset{x};
    assert Elements(dates + [x]) == Elements(dates) + {x};
    assert after.Keys == before[x := CountIn(before, x) + 1].Keys;
  }

  /** The two nested loops: 53 weeks of 7 cells, stepping one day per cell from `start`. */
  method BuildGrid(start: Day, counts: map<Day, nat>, today: Day, currentYear: int)
    returns (weeks: seq<seq<Cell>>)
    ensures weeks == Grid(start, counts, today, currentYear)
  {
    weeks := [];
    var currentDate := start;
    ghost var grid := Grid(start, counts, today, currentYear);
    for week := 0 to Weeks
      invariant currentDate == start + DaysPerWeek * week
      invariant |weeks| == week
      invariant forall w :: 0 <= w < week ==> weeks[w] == grid[w]
    {
      var weekData := [];
      for day := 0 to DaysPerWeek
        invariant currentDate == start + DaysPerWeek * week + day
        invariant |weekData| == day
        invariant forall d :: 0 <= d < day ==> weekData[d] == grid[week][d]
      {
        var count := CountIn(counts, currentDate);
        var cell := Cell(currentDate, count, currentDate == today, YearOf(currentDate) == currentYear,
                         CivilFromDays(currentDate).month - 1, Weekday(currentDate));
        GridAt(start, counts, today, currentYear, week, day);
        assert cell == grid[week][day];
        weekData := weekData + [cell];
        currentDate := currentDate + 1;
      }
      weeks := weeks + [weekData];
    }
  }

  /** The largest number of completions on any day listed in `keys`, or 0 when there is none. */
  function MaxOver(dates: seq<Day>, keys: seq<Day>): (r: nat)
    ensures forall i :: 0 <= i < |keys| ==> multiset(dates)[keys[i]] <= r
    ensures r == 0 || exists i :: 0 <= i < |keys| && multiset(dates)[keys[i]] == r
  {
    if keys == [] then 0
    else
      var rest := MaxOver(dates, keys[1..]);
      var here := multiset(dates)[keys[0]];
      if here >= rest then here else rest
  }

  /** `Math.max(...problemCounts.values(), 0)`: the most completions on a single day. */
  function MaxInDay(dates: seq<Day>): (r: nat)
    ensures forall d :: multiset(dates)[d] <= r
    ensures dates == [] <==> r == 0
    ensures dates != [] ==> exists d :: d in dates && multiset(dates)[d] == r
  {
    MaxOverAll(dates);
    MaxOver(dates, dates)
  }

  lemma MaxOverAll(dates: seq<Day>)
    ensures forall d :: multiset(dates)[d] <= MaxOver(dates, dates)
    ensures dates != [] ==> exists d :: d in dates && multiset(dates)[d] == MaxOver(dates, dates)
  {
    var most := MaxOver(dates, dates);
    forall d | d in dates ensures multiset(dates)[d] <= most {
      var i :| 0 <= i < |dates| && dates[i] == d;
    }
    if dates != [] {
      assert multiset(dates)[dates[0]] >= 1;
      assert multiset(dates)[dates[0]] <= most;
      var i :| 0 <= i < |dates| && multiset(dates)[dates[i]] == most;
      var d := dates[i];
      assert d in dates && multiset(dates)[d] == most;
    }
  }

  /** The `useMemo` block: the grid for the current year of `today`, and the statistics. */
  method Build(completedDates: seq<Day>, today: Day) returns (weeks: seq<seq<Cell>>, stats: Stats)
    ensures weeks == Grid(GridStart(YearOf(today)), Tally(completedDates), today, YearOf(today))
    ensures stats.totalProblems == |completedDates|
    ensures stats.activeDays == |Elements(completedDates)|
    ensures stats.maxInDay == MaxInDay(completedDates)
  {
    var currentYear := YearOf(today);
    var startDate := NewYear(currentYear);
    var startDay := Weekday(startDate);
    var actualStartDate := startDate - startDay;
    assert actualStartDate == GridStart(currentYear);
    var problemCounts := CountByDay(completedDates);
    weeks := BuildGrid(actualStartDate, problemCounts, today, currentYear);
    var totalProblems := |completedDates|;
    var activeDays := |Elements(completedDates)|;
    var maxInDay := MaxInDay(completedDates);
    stats := Stats(totalProblems, activeDays, maxInDay);
  }

  /** A grid cell's count is the number of times its day occurs in the input; it is
      today's cell exactly when its day is today; it belongs to the current year exactly
      when its day lies between that year's 1 January and the next one's. */
  lemma CellMeaning(date: Day, dates: seq<Day>, today: Day)
    ensures var c := CellFor(date, Tally(dates), today, YearOf(today));
      && c.count == multiset(dates)[date]
      && (c.isToday <==> date == today)
      && (c.isCurrentYear <==> NewYear(YearOf(today)) <= date < NewYear(YearOf(today) + 1))
      && 0 <= c.month < 12 && 0 <= c.dayOfWeek < 7
  {
    TallyCount(dates, date);
    YearOfIff(date, YearOf(today));
    CivilRanges(date);
  }

  /** The grid's first cell is a Sunday at most six days before 1 January, and every cell
      is the day after the one before it (the last cell of a week precedes the first
      cell of the next). */
  lemma GridConsecutive(y: int, w: int, d: int)
    requires 0 <= w < Weeks && 0 <= d < DaysPerWeek
    ensures var s := GridStart(y);
      && Weekday(s) == 0 && NewYear(y) - 6 <= s <= NewYear(y)
      && Weekday(s + DaysPerWeek * w + d) == d
  {
    var s := GridStart(y);
    WeekdayShift(s, DaysPerWeek * w + d);
  }

  /** The cells in row-major order. */
  function Flatten(weeks: seq<seq<Cell>>): seq<Cell>
  {
    if weeks == [] then [] else weeks[0] + Flatten(weeks[1..])
  }

  function CellsTotal(cells: seq<Cell>): int
  {
    if cells == [] then 0 else cells[0].count + CellsTotal(cells[1..])
  }

  lemma {:induction false} FlattenAt(weeks: seq<seq<Cell>>, w: int, d: int)
    requires forall v :: 0 <= v < |weeks| ==> |weeks[v]| == DaysPerWeek
    requires 0 <= w < |weeks| && 0 <= d < DaysPerWeek
    ensures |Flatten(weeks)| == DaysPerWeek * |weeks|
    ensures Flatten(weeks)[DaysPerWeek * w + d] == weeks[w][d]
  {
    if w == 0 {
      FlattenLength(weeks);
    } else {
      FlattenAt(weeks[1..], w - 1, d);
    }
  }

  lemma {:induction false} FlattenLength(weeks: seq<seq<Cell>>)
    requires forall v :: 0 <= v < |weeks| ==> |weeks[v]| == DaysPerWeek
    ensures |Flatten(weeks)| == DaysPerWeek * |weeks|
  {
    if weeks != [] {
      FlattenLength(weeks[1..]);
    }
  }

  /** Cells for distinct days whose counts are multiplicities in `m` add up to at most
      the size of `m`. */
  lemma {:induction false} DistinctCellsTotal(cells: seq<Cell>, m: multiset<Day>)
    requires forall i, j :: 0 <= i < j < |cells| ==> cells[i].date != cells[j].date
    requires forall i :: 0 <= i < |cells| ==> cells[i].count == m[cells[i].date]
    ensures CellsTotal(cells) <= |m|
  {
    if cells != [] {
      var c := cells[0];
      var rest := m[c.date := 0];
      forall i | 0 <= i < |cells[1..]|
        ensures cells[1..][i].count == rest[cells[1..][i].date]
      {
        assert cells[1..][i] == cells[i + 1];
      }
      DistinctCellsTotal(cells[1..], rest);
      assert |rest| + m[c.date] == |m|;
    }
  }

  /** The grid holds 371 distinct consecutive days, so its counts add up to at most
      `totalProblems`. */
  lemma GridTotalAtMostTotal(weeks: seq<seq<Cell>>, start: Day, dates: seq<Day>, today: Day, year: int)
    requires GridOf(weeks, start, Tally(dates), today, year)
    ensures CellsTotal(Flatten(weeks)) <= |dates|
  {
    var cells := Flatten(weeks);
    FlattenLength(weeks);
    forall k | 0 <= k < |cells|
      ensures cells[k].date == start + k && cells[k].count == multiset(dates)[cells[k].date]
    {
      GridCellAt(weeks, start, dates, today, year, k);
    }
    DistinctCellsTotal(cells, multiset(dates));
  }

  /** `weeks` holds 53 weeks of 7 cells, the cell in week `w` and row `d` being the one
      for day `start + 7w + d`, as `BuildGrid` makes them. */
  predicate GridOf(weeks: seq<seq<Cell>>, start: Day, counts: map<Day, nat>, today: Day, year: int)
  {
    && |weeks| == Weeks
    && (forall w :: 0 <= w < |weeks| ==> |weeks[w]| == DaysPerWeek)
    && (forall w, d :: 0 <= w < Weeks && 0 <= d < DaysPerWeek ==>
          weeks[w][d] == CellFor(start + DaysPerWeek * w + d, counts, today, year))
  }

  /** The grid `Build` returns satisfies `GridOf`. */
  lemma GridIsGridOf(start: Day, counts: map<Day, nat>, today: Day, year: int)
    ensures GridOf(Grid(start, counts, today, year), start, counts, today, year)
  {
    forall w, d | 0 <= w < Weeks && 0 <= d < DaysPerWeek {
      GridAt(start, counts, today, year, w, d);
    }
  }

  /** Position `k` of the flattened grid is week `w`, day `d`, where `k == 7 * w + d`. */
  lemma FlattenAtIndex(weeks: seq<seq<Cell>>, k: int) returns (w: int, d: int)
    requires forall v :: 0 <= v < |weeks| ==> |weeks[v]| == DaysPerWeek
    requires 0 <= k < DaysPerWeek * |weeks|
    ensures 0 <= w < |weeks| && 0 <= d < DaysPerWeek && k == DaysPerWeek * w + d
    ensures |Flatten(weeks)| == DaysPerWeek * |weeks|
    ensures Flatten(weeks)[k] == weeks[w][d]
  {
    w, d := k / DaysPerWeek, k % DaysPerWeek;
    FlattenAt(weeks, w, d);
  }

  /** The `k`-th cell of the grid, in row-major order, is the cell built for the `k`-th
      day from the grid's start: its date, count and current-year flag. */
  lemma GridCellIs(weeks: seq<seq<Cell>>, start: Day, counts: map<Day, nat>, today: Day, year: int, k: int)
    requires GridOf(weeks, start, counts, today, year) && 0 <= k < Weeks * DaysPerWeek
    ensures |Flatten(weeks)| == Weeks * DaysPerWeek
    ensures Flatten(weeks)[k].date == start + k
    ensures Flatten(weeks)[k].count == CountIn(counts, start + k)
    ensures Flatten(weeks)[k].isCurrentYear <==> YearOf(start + k) == year
  {
    var w, d := FlattenAtIndex(weeks, k);
    assert start + DaysPerWeek * w + d == start + k;
    assert Flatten(weeks)[k] == CellFor(start + k, counts, today, year);
  }

  /** The `k`-th cell of the grid is dated `k` days after the grid's start, counts that
      day's occurrences in the input and is marked current-year iff that day is in `year`. */
  lemma GridCellAt(weeks: seq<seq<Cell>>, start: Day, dates: seq<Day>, today: Day, year: int, k: int)
    requires GridOf(weeks, start, Tally(dates), today, year) && 0 <= k < Weeks * DaysPerWeek
    ensures |Flatten(weeks)| == Weeks * DaysPerWeek
    ensures Flatten(weeks)[k].date == start + k
    ensures Flatten(weeks)[k].count == multiset(dates)[start + k]
    ensures Flatten(weeks)[k].isCurrentYear <==> YearOf(start + k) == year
  {
    GridCellIs(weeks, start, Tally(dates), today, year, k);
    TallyCount(dates, start + k);
  }

  /** The `k`-th cell of the grid is marked current-year iff its day lies between 1 January
      of `year` and 1 January of the next year. */
  lemma GridCellInYear(weeks: seq<seq<Cell>>, start: Day, counts: map<Day, nat>, today: Day, year: int, k: int)
    requires GridOf(weeks, start, counts, today, year) && 0 <= k < Weeks * DaysPerWeek
    ensures |Flatten(weeks)| == Weeks * DaysPerWeek
    ensures Flatten(weeks)[k].isCurrentYear <==> NewYear(year) <= start + k < NewYear(year + 1)
  {
    GridCellIs(weeks, start, counts, today, year, k);
    YearOfIff(start + k, year);
  }

  /** The sum of the counts of the cells that belong to the current year. */
  function CurrentYearTotal(cells: seq<Cell>): int
  {
    if cells == [] then 0
    else (if cells[0].isCurrentYear then cells[0].count else 0) + CurrentYearTotal(cells[1..])
  }

  /** `m[lo] + m[lo + 1] + ... + m[hi - 1]`: how many entries fall on the days `lo` to `hi - 1`. */
  function DaySum(m: multiset<Day>, lo: int, hi: int): nat
    decreases hi - lo
  {
    if lo >= hi then 0 else m[lo] + DaySum(m, lo + 1, hi)
  }

  lemma {:induction false} DaySumLast(m: multiset<Day>, lo: int, hi: int)
    requires lo < hi
    ensures DaySum(m, lo, hi) == DaySum(m, lo, hi - 1) + m[hi - 1]
    decreases hi - lo
  {
    if lo + 1 < hi {
      DaySumLast(m, lo + 1, hi);
    }
  }

  lemma {:induction false} DaySumAdd(m: multiset<Day>, x: Day, lo: int, hi: int)
    ensures DaySum(m + multiset{x}, lo, hi) == DaySum(m, lo, hi) + (if lo <= x < hi then 1 else 0)
    decreases hi - lo
  {
    if lo < hi {
      DaySumAdd(m, x, lo + 1, hi);
    }
  }

  lemma {:induction false} DaySumEmpty(lo: int, hi: int)
    ensures DaySum(multiset{}, lo, hi) == 0
    decreases hi - lo
  {
    if lo < hi {
      DaySumEmpty(lo + 1, hi);
    }
  }

  /** The number of entries of `dates` that fall in year `y`. */
  function YearCount(dates: seq<Day>, y: int): (n: nat)
    ensures n <= |dates|
  {
    if dates == [] then 0
    else (if YearOf(dates[0]) == y then 1 else 0) + YearCount(dates[1..], y)
  }

  /** Counting a year's entries one by one, or day by day from 1 January to 31 December,
      gives the same number. */
  lemma {:induction false} YearCountByDay(dates: seq<Day>, y: int)
    ensures YearCount(dates, y) == DaySum(multiset(dates), NewYear(y), NewYear(y + 1))
  {
    if dates == [] {
      DaySumEmpty(NewYear(y), NewYear(y + 1));
    } else {
      YearCountByDay(dates[1..], y);
      assert dates == [dates[0]] + dates[1..];
      assert multiset(dates) == multiset(dates[1..]) + multiset{dates[0]};
      DaySumAdd(multiset(dates[1..]), dates[0], NewYear(y), NewYear(y + 1));
      YearOfIff(dates[0], y);
    }
  }

  /** Cells for the consecutive days from `s` on, counted from `m`, that are current-year
      cells exactly on the days `lo` to `hi - 1`: their current-year total is the number
      of entries on the days both in the grid and in that range. */
  lemma {:induction false} CurrentYearCells(cells: seq<Cell>, s: int, m: multiset<Day>, lo: int, hi: int)
    requires forall k :: 0 <= k < |cells| ==>
      cells[k].date == s + k && cells[k].count == m[s + k] && (cells[k].isCurrentYear <==> lo <= s + k < hi)
    ensures CurrentYearTotal(cells) ==
      DaySum(m, if lo < s then s else lo, if hi < s + |cells| then hi else s + |cells|)
  {
    if cells != [] {
      var rest := cells[1..];
      forall k | 0 <= k < |rest|
        ensures rest[k].date == s + 1 + k && rest[k].count == m[s + 1 + k]
        ensures rest[k].isCurrentYear <==> lo <= s + 1 + k < hi
      {
        assert rest[k] == cells[k + 1];
      }
      CurrentYearCells(rest, s + 1, m, lo, hi);
    }
  }

  /** For the grid of year `y` (`Build` makes the one for the year of `today`), the counts
      of the current-year cells add up to the number of entries in that year, except in a
      leap year that starts on a Saturday: there the grid ends on 30 December and the
      total falls short by exactly the entries on 31 December. */
  lemma GridYearTotal(weeks: seq<seq<Cell>>, dates: seq<Day>, today: Day, y: int)
    requires GridOf(weeks, GridStart(y), Tally(dates), today, y)
    ensures !(IsLeapYear(y) && Weekday(NewYear(y)) == 6) ==>
      CurrentYearTotal(Flatten(weeks)) == YearCount(dates, y)
    ensures IsLeapYear(y) && Weekday(NewYear(y)) == 6 ==>
      CurrentYearTotal(Flatten(weeks)) + multiset(dates)[NewYear(y + 1) - 1] == YearCount(dates, y)
  {
    GridDaySum(weeks, GridStart(y), dates, today, y);
    YearTotalOfGrid(CurrentYearTotal(Flatten(weeks)), dates, y);
  }

  /** The day-by-day count of `GridDaySum`, compared with the entries of the year. */
  lemma YearTotalOfGrid(total: int, dates: seq<Day>, y: int)
    requires var ny1, end := NewYear(y + 1), GridStart(y) + Weeks * DaysPerWeek;
      total == DaySum(multiset(dates), NewYear(y), if ny1 < end then ny1 else end)
    ensures !(IsLeapYear(y) && Weekday(NewYear(y)) == 6) ==> total == YearCount(dates, y)
    ensures IsLeapYear(y) && Weekday(NewYear(y)) == 6 ==>
      total + multiset(dates)[NewYear(y + 1) - 1] == YearCount(dates, y)
  {
    var ny, ny1, end := NewYear(y), NewYear(y + 1), GridStart(y) + Weeks * DaysPerWeek;
    var m := multiset(dates);
    YearCountByDay(dates, y);
    GridEnd(y);
    if IsLeapYear(y) && Weekday(ny) == 6 {
      assert end == ny1 - 1;
      assert total == DaySum(m, ny, ny1 - 1);
      DaySumLast(m, ny, ny1);
    } else {
      assert ny1 <= end;
      assert total == DaySum(m, ny, ny1);
    }
  }

  /** The grid's last day is on or after 31 December, except in a leap year starting on
      a Saturday, where it is 30 December. */
  lemma GridEnd(y: int)
    ensures !(IsLeapYear(y) && Weekday(NewYear(y)) == 6) ==> NewYear(y + 1) <= GridStart(y) + Weeks * DaysPerWeek
    ensures IsLeapYear(y) && Weekday(NewYear(y)) == 6 ==> GridStart(y) + Weeks * DaysPerWeek == NewYear(y + 1) - 1
  {
    YearLength(y);
    GridCoversYear(y);
    assert GridStart(y) == NewYear(y) - Weekday(NewYear(y));
  }

  /** A grid starting on or before 1 January: its current-year total counts the entries
      from 1 January up to the grid's last day or 31 December, whichever comes first. */
  lemma GridDaySum(weeks: seq<seq<Cell>>, start: Day, dates: seq<Day>, today: Day, year: int)
    requires GridOf(weeks, start, Tally(dates), today, year) && start <= NewYear(year)
    ensures var end := start + Weeks * DaysPerWeek;
      CurrentYearTotal(Flatten(weeks)) ==
        DaySum(multiset(dates), NewYear(year), if NewYear(year + 1) < end then NewYear(year + 1) else end)
  {
    GridCells(weeks, start, dates, today, year);
    CurrentYearCells(Flatten(weeks), start, multiset(dates), NewYear(year), NewYear(year + 1));
  }

  /** Every cell of the flattened grid, with its date, count and current-year flag. */
  lemma GridCells(weeks: seq<seq<Cell>>, start: Day, dates: seq<Day>, today: Day, year: int)
    requires GridOf(weeks, start, Tally(dates), today, year)
    ensures |Flatten(weeks)| == Weeks * DaysPerWeek
    ensures forall k :: 0 <= k < |Flatten(weeks)| ==>
      Flatten(weeks)[k].date == start + k && Flatten(weeks)[k].count == multiset(dates)[start + k] &&
      (Flatten(weeks)[k].isCurrentYear <==> NewYear(year) <= start + k < NewYear(year + 1))
  {
    var cells := Flatten(weeks);
    FlattenLength(weeks);
    forall k | 0 <= k < |cells|
      ensures cells[k].date == start + k && cells[k].count == multiset(dates)[start + k]
      ensures cells[k].isCurrentYear <==> NewYear(year) <= start + k < NewYear(year + 1)
    {
      GridCellAt(weeks, start, dates, today, year, k);
      GridCellInYear(weeks, start, Tally(dates), today, year, k);
    }
  }

  /** The number of distinct active days never exceeds the number of completions. */
  lemma ActiveDaysAtMostTotal(dates: seq<Day>)
    ensures |Elements(dates)| <= |dates|
    ensures dates != [] ==> |Elements(dates)| >= 1
  {
    ElementsCard(dates);
    if dates != [] {
      assert dates[0] in Elements(dates);
    }
  }

  /** Day `z` has a cell in the grid of year `y`. */
  predicate InGrid(y: int, z: Day)
  {
    GridStart(y) <= z < GridStart(y) + Weeks * DaysPerWeek
  }

  /** The grid of year `y` covers every day of `y` exactly when `y` is not a leap year
      that starts on a Saturday: 371 cells starting up to six days early fall one day
      short of a 366-day year whose 1 January is a Saturday. */
  lemma GridCoversYear(y: int)
    ensures InGrid(y, NewYear(y + 1) - 1) <==> !(IsLeapYear(y) && Weekday(NewYear(y)) == 6)
    ensures !(IsLeapYear(y) && Weekday(NewYear(y)) == 6) ==>
      forall z :: NewYear(y) <= z < NewYear(y + 1) ==> InGrid(y, z)
  {
    YearLength(y);
    var ny := NewYear(y);
    assert GridStart(y) == ny - Weekday(ny);
  }

  /** 31 December 2028 belongs to 2028 but has no cell in the 2028 grid. */
  lemma Grid2028MissesNewYearsEve()
    ensures YearOf(NewYear(2029) - 1) == 2028
    ensures !InGrid(2028, NewYear(2029) - 1)
  {
    Leap2028();
    YearLength(2028);
    YearOfIff(NewYear(2029) - 1, 2028);
    GridCoversYear(2028);
  }

  /** `getIntensityLevel` */
  function IntensityLevel(count: int): (level: int)
    ensures 0 <= level <= 3
    ensures count == 0 <==> level == 0
    ensures 0 <= count <= 2 ==> level == count
    ensures count >= 3 ==> level == 3
  {
    if count == 0 then 0
    else if count == 1 then 1
    else if count == 2 then 2
    else 3
  }

  /** More completions never give a lighter square. */
  lemma IntensityMonotone(a: nat, b: nat)
    requires a <= b
    ensures IntensityLevel(a) <= IntensityLevel(b)
  {
  }

  const MonthNames: seq<string> :=
    ["Jan", "Feb", "Mar", "Apr", "May", "Jun", "Jul", "Aug", "Sep", "Oct", "Nov", "Dec"]

  datatype MonthLabel = MonthLabel(weekIndex: nat, month: int, monthName: string)

  /** Some current-year cell of `week` falls in month `m`. */
  predicate WeekHasMonth(week: seq<Cell>, m: int)
  {
    exists d :: 0 <= d < |week| && week[d].isCurrentYear && week[d].month == m
  }

  /** Where each month's label goes: its first week holding a current-year cell. */
  ghost predicate FirstWeekOf(weeks: seq<seq<Cell>>, m: int, w: int)
  {
    && 0 <= w < |weeks|
    && WeekHasMonth(weeks[w], m)
    && (forall v :: 0 <= v < w ==> !WeekHasMonth(weeks[v], m))
  }

  /** The loops of `getMonthLabels` that fill `monthPositions`. */
  method MonthPositions(weeks: seq<seq<Cell>>) returns (monthPositions: map<int, nat>)
    requires forall w, d :: 0 <= w < |weeks| && 0 <= d < |weeks[w]| ==> 0 <= weeks[w][d].month < 12
    ensures forall m :: m in monthPositions ==> 0 <= m < 12 && FirstWeekOf(weeks, m, monthPositions[m])
    ensures forall w, m :: 0 <= w < |weeks| && WeekHasMonth(weeks[w], m) ==> m in monthPositions
  {
    monthPositions := map[];
    for weekIndex := 0 to |weeks|
      invariant forall m :: m in monthPositions ==>
        0 <= m < 12 && monthPositions[m] < weekIndex && FirstWeekOf(weeks, m, monthPositions[m])
      invariant forall v, m :: 0 <= v < weekIndex && WeekHasMonth(weeks[v], m) ==> m in monthPositions
    {
      var week := weeks[weekIndex];
      for dayIndex := 0 to |week|
        invariant forall m :: m in monthPositions ==>
          0 <= m < 12 && monthPositions[m] <= weekIndex && FirstWeekOf(weeks, m, monthPositions[m])
        invariant forall v, m :: 0 <= v < weekIndex && WeekHasMonth(weeks[v], m) ==> m in monthPositions
        invariant forall e :: 0 <= e < dayIndex && week[e].isCurrentYear ==> week[e].month in monthPositions
      {
        var day := week[dayIndex];
        if day.isCurrentYear && day.month !in monthPositions {
          assert WeekHasMonth(weeks[weekIndex], day.month);
          monthPositions := monthPositions[day.month := weekIndex];
        }
      }
    }
  }

  /** `getMonthLabels`: one label per month that has a current-year cell, at the first
      week holding such a cell, in month order. */
  method MonthLabels(weeks: seq<seq<Cell>>) returns (labels: seq<MonthLabel>)
    requires forall w, d :: 0 <= w < |weeks| && 0 <= d < |weeks[w]| ==> 0 <= weeks[w][d].month < 12
    ensures forall i :: 0 <= i < |labels| ==>
      && 0 <= labels[i].month < 12
      && labels[i].monthName == MonthNames[labels[i].month]
      && FirstWeekOf(weeks, labels[i].month, labels[i].weekIndex)
    ensures forall i, j :: 0 <= i < j < |labels| ==> labels[i].month < labels[j].month
    ensures forall w, m :: 0 <= w < |weeks| && WeekHasMonth(weeks[w], m) ==>
      exists ml :: ml in labels && ml.month == m
  {
    var monthPositions := MonthPositions(weeks);
    assert forall m :: m in monthPositions ==> 0 <= m < 12 && FirstWeekOf(weeks, m, monthPositions[m]);
    // The labels sorted by month: the keys are distinct months, so the sort lists them
    // in month order.
    labels := [];
    for m := 0 to 12
      invariant forall i :: 0 <= i < |labels| ==>
        && 0 <= labels[i].month < m
        && FirstWeekOf(weeks, labels[i].month, labels[i].weekIndex)
        && labels[i].monthName == MonthNames[labels[i].month]
      invariant forall i, j :: 0 <= i < j < |labels| ==> labels[i].month < labels[j].month
      invariant forall k :: 0 <= k < m && k in monthPositions ==>
        exists ml :: ml in labels && ml.month == k
    {
      if m in monthPositions {
        labels := labels + [MonthLabel(monthPositions[m], m, MonthNames[m])];
        assert labels[|labels| - 1].month == m;
      }
    }
    forall w, m | 0 <= w < |weeks| && WeekHasMonth(weeks[w], m)
      ensures exists ml :: ml in labels && ml.month == m
    {
      assert m in monthPositions;
    }
  }
}
