/** The access log's date arithmetic: division alone gives the date reached by counting days one at a time. */
module CivilDate {
  datatype Date = Date(year: int, month: int, day: int)

  // ----- counting days -----

  predicate IsLeap(year: int) { year % 4 == 0 && (year % 100 != 0 || year % 400 == 0) }

  function DaysIn(year: int, month: int): int {
    if month == 2 then if IsLeap(year) then 29 else 28
    else if month in {4, 6, 9, 11} then 30 else 31
  }

  /** The next day of the Gregorian calendar. */
  function Tomorrow(d: Date): Date {
    if d.day < DaysIn(d.year, d.month) then d.(day := d.day + 1)
    else if d.month < 12 then Date(d.year, d.month + 1, 1)
    else Date(d.year + 1, 1, 1)
  }

  /** The date `days` days after the first of January 1970, counted one by one. */
  function Counted(days: nat): Date {
    if days == 0 then Date(1970, 1, 1) else Tomorrow(Counted(days - 1))
  }

  // ----- the code's formula -----

  /** Years of 400 and days within them, years starting in March. */
  datatype March = March(era: int, yoe: int, doy: int)

  function YearStart(yoe: int): int { 365 * yoe + yoe / 4 - yoe / 100 }

  function YearOfEra(doe: int): int { (doe - doe / 1460 + doe / 36_524 - doe / 146_096) / 365 }

  function MarchOf(days: nat): March {
    var z := days + 719_468;
    var doe := z % 146_097;
    March(z / 146_097, YearOfEra(doe), doe - YearStart(YearOfEra(doe)))
  }

  function DateOf(m: March): Date {
    var mp := (5 * m.doy + 2) / 153;
    var day := m.doy - (153 * mp + 2) / 5 + 1;
    var month := if mp < 10 then mp + 3 else mp - 9;
    Date(m.yoe + m.era * 400 + (if month <= 2 then 1 else 0), month, day)
  }

  function CivilFromDays(days: nat): Date { DateOf(MarchOf(days)) }

  // ----- years of an era -----

  /** Days of the `yoe`-th year, which ends with February of the next one. */
  function YearLength(yoe: int): int {
    365 + (if (yoe + 1) % 4 == 0 && ((yoe + 1) % 100 != 0 || yoe == 399) then 1 else 0)
  }

  lemma YearStarts(yoe: int)
    requires 0 <= yoe < 400
    ensures yoe < 399 ==> YearStart(yoe + 1) == YearStart(yoe) + YearLength(yoe)
    ensures yoe == 399 ==> YearStart(yoe) + YearLength(yoe) == 146_097
    ensures 0 <= YearStart(yoe) < 146_097 && YearStart(0) == 0
  {
    var p, c := yoe / 4, yoe / 100;
    assert (yoe + 1) / 4 == p + (if (yoe + 1) % 4 == 0 then 1 else 0);
    assert (yoe + 1) / 100 == c + (if (yoe + 1) % 100 == 0 then 1 else 0);
    assert (yoe + 1) % 100 == 0 ==> (yoe + 1) % 4 == 0;
  }

  /** The formula finds the year whose days hold `doe`. */
  lemma YearFound(yoe: int, doy: int)
    requires 0 <= yoe < 400 && 0 <= doy < YearLength(yoe)
    ensures YearOfEra(YearStart(yoe) + doy) == yoe
  {
    var doe := YearStart(yoe) + doy;
    var p, c, s := yoe / 4, yoe / 100, yoe % 4;
    assert yoe == 4 * p + s && 25 * c <= p <= 25 * c + 24;
    Centuries(yoe, doy);
    var a := doe / 1460;
    assert doe == 1461 * p + 365 * s - c + doy;
    var extra := p + 365 * s - c + doy;
    assert doe == 1460 * p + extra && 0 <= extra < 2920;
    assert a == p + (if extra >= 1460 then 1 else 0);
    assert doy == 365 ==> s == 3;
    assert 365 * yoe <= doe - a + c < 365 * yoe + 365;
  }

  lemma Centuries(yoe: int, doy: int)
    requires 0 <= yoe < 400 && 0 <= doy < YearLength(yoe)
    ensures var doe := YearStart(yoe) + doy; doe / 36_524 - doe / 146_096 == yoe / 100
  {
    var doe := YearStart(yoe) + doy;
    var c, r := yoe / 100, yoe % 100;
    assert yoe == 100 * c + r;
    assert yoe / 4 == 25 * c + r / 4;
    assert doe == 36_524 * c + (365 * r + r / 4 + doy);
    var rest := 365 * r + r / 4 + doy;
    assert r == 99 ==> (yoe + 1) % 100 == 0;
    assert r == 99 && yoe != 399 ==> doy < 365;
    assert r < 99 ==> rest < 365 * 98 + 24 + 366;
    if rest < 36_524 {
      assert doe / 36_524 == c && doe < 146_096;
    } else {
      assert yoe == 399 && rest == 36_524 && doe == 146_096;
    }
  }

  /** Every day of an era lies in one of its years. */
  lemma {:induction false} YearExists(doe: int, yoe: int) returns (y: int)
    requires 0 <= yoe < 400 && YearStart(yoe) <= doe < 146_097
    ensures yoe <= y < 400 && YearStart(y) <= doe < YearStart(y) + YearLength(y)
    decreases 400 - yoe
  {
    YearStarts(yoe);
    if doe < YearStart(yoe) + YearLength(yoe) {
      y := yoe;
    } else {
      y := YearExists(doe, yoe + 1);
    }
  }

  lemma YearIs(doe: int)
    requires 0 <= doe < 146_097
    ensures var y := YearOfEra(doe); 0 <= y < 400 && YearStart(y) <= doe < YearStart(y) + YearLength(y)
  {
    var y := YearExists(doe, 0);
    YearFound(y, doe - YearStart(y));
  }

  predicate MarchOk(m: March) { 0 <= m.yoe < 400 && 0 <= m.doy < YearLength(m.yoe) }

  /** The day after: within the year, into the next one, or into the next era. */
  function NextMarch(m: March): March {
    if m.doy + 1 < YearLength(m.yoe) then m.(doy := m.doy + 1)
    else if m.yoe < 399 then March(m.era, m.yoe + 1, 0)
    else March(m.era + 1, 0, 0)
  }

  /** The March year and day of a day of an era. */
  lemma DayOfEraSteps(doe: int)
    requires 0 <= doe < 146_096
    ensures var y := YearOfEra(doe);
            var doy := doe - YearStart(y);
            && 0 <= y < 400 && 0 <= doy < YearLength(y)
            && (doy + 1 < YearLength(y) ==> YearOfEra(doe + 1) == y)
            && (doy + 1 >= YearLength(y) ==> y < 399 && YearOfEra(doe + 1) == y + 1 && doe + 1 == YearStart(y + 1))
  {
    hide YearOfEra, YearLength;
    YearIs(doe);
    var y := YearOfEra(doe);
    YearStarts(y);
    hide YearStart;
    if doe + 1 < YearStart(y) + YearLength(y) {
      YearFound(y, doe + 1 - YearStart(y));
    } else {
      SomeDays(y + 1);
      YearFound(y + 1, 0);
    }
  }

  lemma SomeDays(yoe: int)
    ensures YearLength(yoe) > 0
  {}

  lemma EraSteps(z: nat)
    ensures z % 146_097 == 146_096 ==> (z + 1) / 146_097 == z / 146_097 + 1 && (z + 1) % 146_097 == 0
    ensures z % 146_097 < 146_096 ==> (z + 1) / 146_097 == z / 146_097 && (z + 1) % 146_097 == z % 146_097 + 1
    ensures 0 <= z % 146_097 < 146_097
  {}

  lemma MarchSteps(days: nat)
    ensures MarchOk(MarchOf(days)) && MarchOf(days + 1) == NextMarch(MarchOf(days))
  {
    hide YearOfEra, YearLength;
    var z := days + 719_468;
    var doe := z % 146_097;
    EraSteps(z);
    YearIs(doe);
    if doe < 146_096 {
      DayOfEraSteps(doe);
    } else {
      OnlyLastYearEnds(YearOfEra(doe), doe);
      SomeDays(0);
      YearFound(0, 0);
      YearStarts(0);
    }
  }

  lemma OnlyLastYearEnds(y: int, doe: int)
    requires 0 <= y < 400 && YearStart(y) <= doe < YearStart(y) + YearLength(y) && doe == 146_096
    ensures y == 399 && doe + 1 == YearStart(y) + YearLength(y)
  {
    YearStarts(y);
    if y < 399 { YearStarts(y + 1); }
  }

  // ----- months -----

  function MonthStart(mp: int): int { (153 * mp + 2) / 5 }

  lemma MonthFound(doy: int)
    requires 0 <= doy < 366
    ensures var mp := (5 * doy + 2) / 153; 0 <= mp <= 11 && MonthStart(mp) <= doy < MonthStart(mp + 1)
  {}

  lemma MonthIs(doy: int, mp: int)
    requires 0 <= mp <= 11 && MonthStart(mp) <= doy < MonthStart(mp + 1)
    ensures (5 * doy + 2) / 153 == mp
  {}

  lemma MonthLengths(mp: int)
    requires 0 <= mp <= 10
    ensures MonthStart(mp + 1) - MonthStart(mp) == if mp in {1, 3, 6, 8} then 30 else 31
    ensures MonthStart(0) == 0 && MonthStart(11) == 337
  {
    assert mp == 0 || mp == 1 || mp == 2 || mp == 3 || mp == 4 || mp == 5 || mp == 6 || mp == 7 || mp == 8 || mp == 9 || mp == 10;
  }

  lemma LeapOfEra(era: int, yoe: int)
    requires 0 <= yoe < 400
    ensures IsLeap(yoe + era * 400 + 1) <==> YearLength(yoe) == 366
  {
    var y, n := yoe + era * 400 + 1, yoe + 1;
    assert y == n + 400 * era;
    assert y % 4 == n % 4 && y % 100 == n % 100 && y % 400 == n % 400;
  }

  /** The formula turns the next day of the March year into the next day of the calendar. */
  lemma DateSteps(m: March)
    requires MarchOk(m)
    ensures DateOf(NextMarch(m)) == Tomorrow(DateOf(m))
  {
    var mp := (5 * m.doy + 2) / 153;
    MonthFound(m.doy);
    LeapOfEra(m.era, m.yoe);
    hide IsLeap, YearLength;
    LengthIs(m.yoe);
    if m.doy + 1 < YearLength(m.yoe) {
      WithinYear(m);
    } else {
      LastOfYear(m);
    }
  }

  lemma LengthIs(yoe: int)
    ensures YearLength(yoe) == 365 || YearLength(yoe) == 366
  {}

  lemma WithinYear(m: March)
    requires MarchOk(m) && m.doy + 1 < YearLength(m.yoe)
    ensures DateOf(m.(doy := m.doy + 1)) == Tomorrow(DateOf(m))
  {
    var mp := (5 * m.doy + 2) / 153;
    LengthIs(m.yoe);
    LeapOfEra(m.era, m.yoe);
    hide YearLength;
    MonthFound(m.doy);
    if m.doy + 1 < MonthStart(mp + 1) {
      MonthIs(m.doy + 1, mp);
      WithinMonth(m, mp);
    } else {
      LastMonth(m.doy, mp);
      NextMonth(m, mp);
    }
  }

  lemma LastMonth(doy: int, mp: int)
    requires 0 <= mp <= 11 && 0 <= doy + 1 < 366 && doy + 1 >= MonthStart(mp + 1)
    ensures mp < 11
  {}

  /** The length of the month that starts at `mp` in a March year. */
  lemma DaysOfMonth(m: March, mp: int)
    requires MarchOk(m) && 0 <= mp <= 11 && (IsLeap(m.yoe + m.era * 400 + 1) <==> YearLength(m.yoe) == 366)
    ensures var month := if mp < 10 then mp + 3 else mp - 9;
            var year := m.yoe + m.era * 400 + (if month <= 2 then 1 else 0);
            && (mp <= 10 ==> DaysIn(year, month) == MonthStart(mp + 1) - MonthStart(mp))
            && (mp == 11 ==> DaysIn(year, month) == YearLength(m.yoe) - MonthStart(11))
  {
    LengthIs(m.yoe);
    hide IsLeap, YearLength;
    if mp <= 10 { MonthLengths(mp); }
    MonthLengths(0);
    hide MonthStart;
  }

  lemma WithinMonth(m: March, mp: int)
    requires MarchOk(m) && m.doy + 1 < YearLength(m.yoe) && mp == (5 * m.doy + 2) / 153 && 0 <= mp <= 11
    requires (5 * (m.doy + 1) + 2) / 153 == mp && MonthStart(mp) <= m.doy && m.doy + 1 < MonthStart(mp + 1)
    requires IsLeap(m.yoe + m.era * 400 + 1) <==> YearLength(m.yoe) == 366
    ensures DateOf(m.(doy := m.doy + 1)) == Tomorrow(DateOf(m))
  {
    DaysOfMonth(m, mp);
    hide DaysIn, YearLength;
    var was, now := DateOf(m), DateOf(m.(doy := m.doy + 1));
    assert was.day == m.doy - MonthStart(mp) + 1;
    assert now == was.(day := was.day + 1);
  }

  lemma NextMonth(m: March, mp: int)
    requires MarchOk(m) && m.doy + 1 < YearLength(m.yoe) && mp == (5 * m.doy + 2) / 153 && 0 <= mp < 11
    requires MonthStart(mp) <= m.doy < MonthStart(mp + 1) <= m.doy + 1
    requires IsLeap(m.yoe + m.era * 400 + 1) <==> YearLength(m.yoe) == 366
    ensures DateOf(m.(doy := m.doy + 1)) == Tomorrow(DateOf(m))
  {
    DaysOfMonth(m, mp);
    MonthIs(m.doy + 1, mp + 1);
    hide DaysIn, YearLength;
    var was, now := DateOf(m), DateOf(m.(doy := m.doy + 1));
    assert was.day == m.doy - MonthStart(mp) + 1;
    assert now.day == 1;
  }

  lemma LastOfYear(m: March)
    requires MarchOk(m) && m.doy + 1 == YearLength(m.yoe)
    ensures DateOf(NextMarch(m)) == Tomorrow(DateOf(m))
  {
    MonthLengths(0);
    LengthIs(m.yoe);
    LeapOfEra(m.era, m.yoe);
    hide IsLeap, YearLength;
    MonthIs(m.doy, 11);
    MonthIs(0, 0);
  }

  lemma StartsIn1970()
    ensures CivilFromDays(0) == Date(1970, 1, 1)
  {
    assert 719_468 / 146_097 == 4 && 719_468 % 146_097 == 135_080;
    assert 135_080 / 1460 == 92 && 135_080 / 36_524 == 3 && 135_080 / 146_096 == 0;
    assert YearOfEra(135_080) == 369;
    assert YearStart(369) == 134_774;
    assert MarchOf(0) == March(4, 369, 306);
    hide MarchOf, YearOfEra, YearStart;
    assert (5 * 306 + 2) / 153 == 10 && (153 * 10 + 2) / 5 == 306;
    assert DateOf(March(4, 369, 306)) == Date(1970, 1, 1);
  }

  /** For every day since the epoch the formula gives the date counted day by day. */
  lemma {:induction false} CivilIsCounted(days: nat)
    ensures CivilFromDays(days) == Counted(days)
  {
    hide MarchOf, DateOf, Tomorrow;
    if days == 0 {
      StartsIn1970();
    } else {
      CivilIsCounted(days - 1);
      MarchSteps(days - 1);
      DateSteps(MarchOf(days - 1));
    }
  }

  // ----- the time of day -----

  datatype Timestamp = Timestamp(date: Date, hour: int, minute: int, second: int)

  function TimestampOf(seconds: nat): Timestamp {
    var rest := seconds % 86_400;
    Timestamp(CivilFromDays(seconds / 86_400), rest / 3600, rest / 60 % 60, rest % 60)
  }

  /** A time stamp names its second: its date is the counted one and its clock adds up to the rest of the day. */
  lemma TimestampIsExact(seconds: nat)
    ensures var t := TimestampOf(seconds);
            && t.date == Counted(seconds / 86_400)
            && 0 <= t.hour < 24 && 0 <= t.minute < 60 && 0 <= t.second < 60
            && seconds / 86_400 * 86_400 + t.hour * 3600 + t.minute * 60 + t.second == seconds
  {
    hide CivilFromDays;
    CivilIsCounted(seconds / 86_400);
    var rest := seconds % 86_400;
    assert rest / 60 / 60 == rest / 3600;
    assert rest == rest / 60 * 60 + rest % 60;
    assert rest / 60 == rest / 60 / 60 * 60 + rest / 60 % 60;
  }
}
