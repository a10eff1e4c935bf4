module Civil {
  type Day = int

  datatype Date = Date(year: int, month: int, day: int)

  /** Days before the start of year `yoe` of a 400-year era (eras start on 1 March). */
  function YearStart(yoe: int): int
  {
    365 * yoe + yoe / 4 - yoe / 100
  }

  function DaysFromCivil(y: int, m: int, d: int): int
  {
    var y' := if m <= 2 then y - 1 else y;
    var era := y' / 400;
    var yoe := y' % 400;
    var mp := if m > 2 then m - 3 else m + 9;
    var doy := (153 * mp + 2) / 5 + d - 1;
    era * 146097 + YearStart(yoe) + doy - 719468
  }

  datatype EraPos = EraPos(yoe: int, doy: int)

  function SplitEra(doe: int): (p: EraPos)
    requires 0 <= doe < 146097
    ensures 0 <= p.yoe < 400
    ensures 0 <= p.doy < 366
    ensures doe == YearStart(p.yoe) + p.doy
    ensures p.doy == 365 ==> p.yoe % 4 == 3 && (p.yoe % 100 != 99 || p.yoe == 399)
  {
    var c := if doe / 36524 < 3 then doe / 36524 else 3;
    var doc := doe - 36524 * c;
    var f := doc / 1461;
    var dof := doc - 1461 * f;
    var yf := if dof / 365 < 3 then dof / 365 else 3;
    var doy := dof - 365 * yf;
    var yoe := 100 * c + 4 * f + yf;
    assert yoe / 4 == 25 * c + f;
    assert yoe / 100 == c;
    EraPos(yoe, doy)
  }

  function CivilFromDays(z: Day): Date
  {
    var z' := z + 719468;
    var era := z' / 146097;
    var p := SplitEra(z' % 146097);
    var y := p.yoe + era * 400;
    var mp := (5 * p.doy + 2) / 153;
    var d := p.doy - (153 * mp + 2) / 5 + 1;
    var m := if mp < 10 then mp + 3 else mp - 9;
    Date(if m <= 2 then y + 1 else y, m, d)
  }

  lemma MonthSplit(doy: int)
    requires 0 <= doy < 366
    ensures var mp := (5 * doy + 2) / 153;
      0 <= mp < 12 && 0 <= doy - (153 * mp + 2) / 5 < 31
  {
  }

  lemma RoundTrip(z: Day)
    ensures var dt := CivilFromDays(z); DaysFromCivil(dt.year, dt.month, dt.day) == z
  {
    var z' := z + 719468;
    var era := z' / 146097;
    var p := SplitEra(z' % 146097);
    var y := p.yoe + era * 400;
    MonthSplit(p.doy);
    var mp := (5 * p.doy + 2) / 153;
    var d := p.doy - (153 * mp + 2) / 5 + 1;
    var m := if mp < 10 then mp + 3 else mp - 9;
    var dt := CivilFromDays(z);
    assert dt == Date(if m <= 2 then y + 1 else y, m, d);
    DaysFromCivilParts(dt.year, dt.month, dt.day, era, p.yoe, mp, p.doy);
  }

  /** `DaysFromCivil` from the era, year of era and day of year it computes on the way. */
  lemma DaysFromCivilParts(year: int, m: int, d: int, era: int, yoe: int, mp: int, doy: int)
    requires 0 <= yoe < 400 && (if m <= 2 then year - 1 else year) == yoe + era * 400
    requires (if m > 2 then m - 3 else m + 9) == mp && (153 * mp + 2) / 5 + d - 1 == doy
    ensures DaysFromCivil(year, m, d) == era * 146097 + YearStart(yoe) + doy - 719468
  {
    YearOfEraSplit(era, yoe);
  }

  lemma YearOfEraSplit(era: int, yoe: int)
    requires 0 <= yoe < 400
    ensures (yoe + era * 400) / 400 == era && (yoe + era * 400) % 400 == yoe
  {
  }

  predicate IsLeapYear(y: int)
  {
    y % 4 == 0 && (y % 100 != 0 || y % 400 == 0)
  }

  function YearOf(z: Day): int
  {
    CivilFromDays(z).year
  }

  /** The day number of 1 January of year `y`. */
  function NewYear(y: int): Day
  {
    DaysFromCivil(y, 1, 1)
  }

  lemma QuotientStep4(k: int)
    requires 0 <= k
    ensures (k + 1) / 4 - k / 4 == if (k + 1) % 4 == 0 then 1 else 0
  {
    var q, r := k / 4, k % 4;
    assert k == 4 * q + r && 0 <= r < 4;
    if r == 3 {
      assert k + 1 == 4 * (q + 1);
    } else {
      assert k + 1 == 4 * q + (r + 1);
    }
  }

  lemma QuotientStep100(k: int)
    requires 0 <= k
    ensures (k + 1) / 100 - k / 100 == if (k + 1) % 100 == 0 then 1 else 0
  {
    var q, r := k / 100, k % 100;
    assert k == 100 * q + r && 0 <= r < 100;
    if r == 99 {
      assert k + 1 == 100 * (q + 1);
    } else {
      assert k + 1 == 100 * q + (r + 1);
    }
  }

  lemma YearStartStep(k: int)
    requires 0 <= k < 399
    ensures YearStart(k + 1) - YearStart(k) == if (k + 1) % 4 == 0 && (k + 1) % 100 != 0 then 366 else 365
  {
    QuotientStep4(k);
    QuotientStep100(k);
    if (k + 1) % 100 == 0 {
      assert (k + 1) == 100 * ((k + 1) / 100);
      assert (k + 1) == 4 * (25 * ((k + 1) / 100));
    }
  }

  lemma ResidueFacts(era: int, yoe: int)
    requires 0 <= yoe < 400
    ensures (era * 400 + yoe) % 4 == yoe % 4 && (era * 400 + yoe) % 100 == yoe % 100
  {
    assert era * 400 + yoe == (era * 100) * 4 + yoe;
    assert era * 400 + yoe == (era * 4) * 100 + yoe;
  }

  lemma NewYearInEra(y: int, era: int, yoe: int)
    requires 0 <= yoe < 400 && y - 1 == era * 400 + yoe
    ensures NewYear(y) == era * 146097 + YearStart(yoe) + 306 - 719468
  {
    YearOfEraSplit(era, yoe);
  }

  lemma YearLength(y: int)
    ensures NewYear(y + 1) - NewYear(y) == if IsLeapYear(y) then 366 else 365
  {
    var era := y / 400;
    var yoe := y % 400;
    ResidueFacts(era, yoe);
    NewYearInEra(y + 1, era, yoe);
    if yoe == 0 {
      NewYearInEra(y, era - 1, 399);
    } else {
      NewYearInEra(y, era, yoe - 1);
      YearStartStep(yoe - 1);
    }
  }

  /** Where day `z` falls in its 400-year era. */
  lemma EraOf(z: Day) returns (era: int, p: EraPos)
    ensures p == SplitEra((z + 719468) % 146097) && era == (z + 719468) / 146097
    ensures z + 719468 == era * 146097 + YearStart(p.yoe) + p.doy
    ensures YearOf(z) == if p.doy < 306 then p.yoe + era * 400 else p.yoe + era * 400 + 1
  {
    era := (z + 719468) / 146097;
    p := SplitEra((z + 719468) % 146097);
  }

  lemma NewYearBracket(z: Day)
    ensures NewYear(YearOf(z)) <= z < NewYear(YearOf(z) + 1)
  {
    var era, p := EraOf(z);
    YearBracket(z, YearOf(z), era, p.yoe, p.doy);
  }

  /** The year that day `z` at day `doy` of year `yoe` of its era falls in (1 March starts
      the era's years, so the last 60 or 61 days belong to the next calendar year) begins
      on or before `z` and ends after it. */
  lemma YearBracket(z: Day, y: int, era: int, yoe: int, doy: int)
    requires 0 <= yoe < 400 && 0 <= doy < 366
    requires z + 719468 == era * 146097 + YearStart(yoe) + doy
    requires y == if doy < 306 then yoe + era * 400 else yoe + era * 400 + 1
    ensures NewYear(y) <= z < NewYear(y + 1)
  {
    if doy < 306 {
      if yoe == 0 {
        NewYearInEra(y, era - 1, 399);
      } else {
        NewYearInEra(y, era, yoe - 1);
        YearStartStep(yoe - 1);
      }
      NewYearInEra(y + 1, era, yoe);
    } else {
      NewYearInEra(y, era, yoe);
      if yoe == 399 {
        NewYearInEra(y + 1, era + 1, 0);
      } else {
        NewYearInEra(y + 1, era, yoe + 1);
        YearStartStep(yoe);
      }
    }
  }

  lemma {:induction false} NewYearMonotone(a: int, b: int)
    requires a < b
    ensures NewYear(a + 1) <= NewYear(b)
    decreases b - a
  {
    if a + 1 < b {
      NewYearMonotone(a + 1, b);
      YearLength(a + 1);
    }
  }

  lemma YearOfIff(z: Day, y: int)
    ensures YearOf(z) == y <==> NewYear(y) <= z < NewYear(y + 1)
  {
    var y0 := YearOf(z);
    NewYearBracket(z);
    YearLength(y);
    YearLength(y0);
    if y0 < y {
      NewYearMonotone(y0, y);
    } else if y < y0 {
      NewYearMonotone(y, y0);
    }
  }

  /** Day of the week, 0 = Sunday; day 0 (1970-01-01) was a Thursday. */
  function Weekday(z: Day): (w: int)
    ensures 0 <= w < 7
  {
    (z + 4) % 7
  }

  lemma WeekdayShift(z: Day, k: int)
    ensures Weekday(z + k) == (Weekday(z) + k) % 7
  {
  }

  lemma CivilRanges(z: Day)
    ensures 1 <= CivilFromDays(z).month <= 12
    ensures 1 <= CivilFromDays(z).day <= 31
  {
    var z' := z + 719468;
    var p := SplitEra(z' % 146097);
    MonthSplit(p.doy);
  }

  lemma Epoch()
    ensures CivilFromDays(0) == Date(1970, 1, 1) && NewYear(1970) == 0 && Weekday(0) == 4
  {
    assert 719468 % 146097 == 135080 && 719468 / 146097 == 4;
    var p := SplitEra(135080);
    assert p == EraPos(369, 306);
  }

  lemma Leap2028()
    ensures IsLeapYear(2028) && Weekday(NewYear(2028)) == 6
  {
  }
}
