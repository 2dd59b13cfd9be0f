/** Broken-down UTC and seconds since the epoch (dev/rtc.c).

    `ToEpoch` and `FromEpoch` are the kernel's straight-line formulas under C's
    truncating division.  The independent reference is a calendar that only knows
    how long each month is and how to step from one day to the next. */
module Calendar {

  // ---- C integer division ---------------------------------------------------

  /** C's `/` for a positive divisor: rounds toward zero. */
  function CDiv(a: int, b: int): int
    requires 0 < b
  {
    if 0 <= a then a / b else -((-a) / b)
  }

  /** C's `%` for a positive divisor: takes the sign of the dividend. */
  function CMod(a: int, b: int): int
    requires 0 < b
  {
    a - b * CDiv(a, b)
  }

  // ---- the reference calendar -----------------------------------------------

  datatype Date = Date(year: int, month: int, day: int)

  predicate IsLeap(y: int) {
    y % 4 == 0 && (y % 100 != 0 || y % 400 == 0)
  }

  function DaysInMonth(y: int, m: int): int {
    if m == 2 then (if IsLeap(y) then 29 else 28)
    else if m == 4 || m == 6 || m == 9 || m == 11 then 30
    else 31
  }

  predicate ValidDate(d: Date) {
    1 <= d.month <= 12 && 1 <= d.day <= DaysInMonth(d.year, d.month)
  }

  /** The Gregorian successor of a day. */
  function NextDay(d: Date): Date {
    if d.day < DaysInMonth(d.year, d.month) then d.(day := d.day + 1)
    else if d.month < 12 then Date(d.year, d.month + 1, 1)
    else Date(d.year + 1, 1, 1)
  }

  /** `n` successors of `d`, counted one at a time. */
  function After(d: Date, n: nat): Date {
    if n == 0 then d else NextDay(After(d, n - 1))
  }

  const EPOCH_DAY := Date(1970, 1, 1)

  // ---- dev/rtc.c ------------------------------------------------------------

  datatype Time = Time(year: int, month: int, day: int, hour: int, min: int, sec: int)

  function DateOf(t: Time): Date {
    Date(t.year, t.month, t.day)
  }

  /** What `rtc_read` can hand on: fields that fit the struct and the decoder's
      range checks.  February 31st and the leap second 60 are still in here. */
  predicate Plausible(t: Time) {
    && 0 <= t.year < 0x1_0000
    && 1 <= t.month <= 12 && 1 <= t.day <= 31
    && 0 <= t.hour <= 23 && 0 <= t.min <= 59 && 0 <= t.sec <= 60
  }

  /** A plausible time that names a day of the calendar and no leap second. */
  predicate Proper(t: Time) {
    Plausible(t) && ValidDate(DateOf(t)) && t.sec <= 59
  }

  /** days_from_civil: the day number of a civil date, 1970-01-01 being 0. */
  function DayNumber(d: Date): int {
    var y := if d.month <= 2 then d.year - 1 else d.year;
    var m := d.month;
    var era := CDiv(if 0 <= y then y else y - 399, 400);
    var yoe := y - era * 400;
    var doy := CDiv(153 * (m + (if m > 2 then -3 else 9)) + 2, 5) + d.day - 1;
    var doe := yoe * 365 + CDiv(yoe, 4) - CDiv(yoe, 100) + doy;
    era * 146097 + doe - 719468
  }

  function ToEpoch(t: Time): int {
    DayNumber(DateOf(t)) * 86400 + t.hour * 3600 + t.min * 60 + t.sec
  }

  /** civil_from_days, before the year is narrowed to the struct's field. */
  function CivilOf(dayNumber: int): Date {
    var days := dayNumber + 719468;
    var era := CDiv(if 0 <= days then days else days - 146096, 146097);
    CivilInEra(era, days - era * 146097)
  }

  /** ...from the day of the era on. */
  function CivilInEra(era: int, doe: int): Date {
    var yoe := CDiv(doe - CDiv(doe, 1460) + CDiv(doe, 36524) - CDiv(doe, 146096), 365);
    CivilInYear(era, yoe, doe - (365 * yoe + CDiv(yoe, 4) - CDiv(yoe, 100)))
  }

  /** ...from the day of the March-based year on. */
  function CivilInYear(era: int, yoe: int, doy: int): Date {
    var mp := CDiv(5 * doy + 2, 153);
    var d := doy - CDiv(153 * mp + 2, 5) + 1;
    var m := mp + (if mp < 10 then 3 else -9);
    Date(yoe + era * 400 + (if m <= 2 then 1 else 0), m, d)
  }

  function FromEpoch(secs: int): Time {
    var q := CDiv(secs, 86400);
    var r := CMod(secs, 86400);
    var rem := if r < 0 then r + 86400 else r;
    var days := if r < 0 then q - 1 else q;
    var c := CivilOf(days);
    Time(c.year % 0x1_0000, c.month % 0x100, c.day % 0x100,
         CDiv(rem, 3600) % 0x100, CMod(CDiv(rem, 60), 60) % 0x100, CMod(rem, 60) % 0x100)
  }

  // ---- the shifted year -----------------------------------------------------

  /** Euclidean view of the era split the code performs with C division. */
  lemma EraIsFloor(y: int)
    ensures CDiv(if 0 <= y then y else y - 399, 400) == y / 400
    ensures CDiv(if 0 <= y then y else y - 146096, 146097) == y / 146097
  {
  }

  /** A date written as (era, year of era, day of year counted from March 1). */
  datatype Shifted = Shifted(era: int, yoe: int, doy: int)

  /** The last day of a March-based year is day 365 exactly when the February it
      ends in is a leap February. */
  predicate ShiftedOk(s: Shifted) {
    && 0 <= s.yoe <= 399
    && 0 <= s.doy <= 365
    && (s.doy == 365 ==> IsLeap(s.yoe + 1))
  }

  function MonthStart(mp: int): int {
    (153 * mp + 2) / 5
  }

  function Shift(d: Date): Shifted {
    var y := if d.month <= 2 then d.year - 1 else d.year;
    var mp := if d.month > 2 then d.month - 3 else d.month + 9;
    Shifted(y / 400, y % 400, MonthStart(mp) + d.day - 1)
  }

  function DayOf(s: Shifted): int {
    s.era * 146097 + s.yoe * 365 + s.yoe / 4 - s.yoe / 100 + s.doy - 719468
  }

  lemma Mod4(k: int, x: int)
    ensures (4 * k + x) % 4 == x % 4
  {
  }

  lemma Mod100(k: int, x: int)
    ensures (100 * k + x) % 100 == x % 100
  {
  }

  lemma Mod400(k: int, x: int)
    ensures (400 * k + x) % 400 == x % 400
  {
  }

  lemma LeapOfEra(y: int)
    ensures IsLeap(y + 1) == IsLeap(y % 400 + 1)
  {
    var e, x := y / 400, y % 400 + 1;
    assert y + 1 == 400 * e + x;
    Mod4(100 * e, x);
    Mod100(4 * e, x);
    Mod400(e, x);
  }

  lemma ShiftOfValid(d: Date)
    requires ValidDate(d)
    ensures ShiftedOk(Shift(d))
    ensures DayNumber(d) == DayOf(Shift(d))
  {
    var y := if d.month <= 2 then d.year - 1 else d.year;
    EraIsFloor(y);
    LeapOfEra(y);
  }

  lemma EraOffset(s: Shifted)
    requires ShiftedOk(s)
    ensures 0 <= s.yoe * 365 + s.yoe / 4 - s.yoe / 100 + s.doy <= 146096
  {
  }

  /** 1460 days is one short of four years, so within a century the quotient
      overshoots the count of whole four-year groups by at most one, and does so
      on every leap day. */
  lemma FourYearGroups(c: int, q: int, k: int, doy: int)
    requires 0 <= c <= 3 && 0 <= q <= 24 && 0 <= k <= 3 && 0 <= doy <= 365
    requires doy == 365 ==> k == 3
    ensures var over := (36524 * c + 1461 * q + 365 * k + doy) / 1460 - (25 * c + q);
            0 <= over <= 1 && 0 <= doy - over <= 364
  {
    var z := 24 * c + q + 365 * k + doy;
    assert 36524 * c + 1461 * q + 365 * k + doy == 1460 * (25 * c + q) + z;
  }

  /** A century is 36524 days and the era's last day belongs to its fourth one. */
  lemma Centuries(c: int, e: int)
    requires 0 <= c <= 3 && 0 <= e <= 36524 && (e == 36524 ==> c == 3)
    ensures (36524 * c + e) / 36524 - (36524 * c + e) / 146096 == c
  {
  }

  lemma YearDigits(yoe: int, c: int, q: int, k: int)
    requires 0 <= yoe <= 399 && c == yoe / 100 && q == yoe % 100 / 4 && k == yoe % 100 % 4
    ensures yoe == 100 * c + 4 * q + k && 0 <= c <= 3 && 0 <= q <= 24 && 0 <= k <= 3
    ensures yoe / 4 == 25 * c + q
    ensures yoe % 4 == k
  {
  }

  lemma LeapDigits(yoe: int, c: int, q: int, k: int)
    requires yoe == 100 * c + 4 * q + k && 0 <= c <= 3 && 0 <= q <= 24 && 0 <= k <= 3
    requires IsLeap(yoe + 1)
    ensures k == 3 && (q == 24 ==> c == 3)
  {
    assert yoe + 1 == 4 * (25 * c + q) + (k + 1);
    Mod4(25 * c + q, k + 1);
  }

  lemma Div365(y: int, d: int)
    requires 0 <= d <= 364
    ensures (365 * y + d) / 365 == y
  {
  }

  /** The year-of-era formula undoes the day-of-era formula. */
  lemma YearOfEra(s: Shifted)
    requires ShiftedOk(s)
    ensures var doe := s.yoe * 365 + s.yoe / 4 - s.yoe / 100 + s.doy;
            (doe - doe / 1460 + doe / 36524 - doe / 146096) / 365 == s.yoe
  {
    var c, q, k := s.yoe / 100, s.yoe % 100 / 4, s.yoe % 100 % 4;
    YearDigits(s.yoe, c, q, k);
    if s.doy == 365 {
      LeapDigits(s.yoe, c, q, k);
    }
    var e := 1461 * q + 365 * k + s.doy;
    var doe := 36524 * c + e;
    assert s.yoe * 365 + s.yoe / 4 - s.yoe / 100 + s.doy == doe;
    FourYearGroups(c, q, k, s.doy);
    Centuries(c, e);
    var over := doe / 1460 - (25 * c + q);
    Div365(s.yoe, s.doy - over);
  }

  /** The month formula undoes the month-start formula. */
  lemma MonthOfYear(mp: int, dayOfMonth: int)
    requires 0 <= mp <= 11
    requires 1 <= dayOfMonth <= (if mp == 11 then 29 else MonthStart(mp + 1) - MonthStart(mp))
    ensures (5 * (MonthStart(mp) + dayOfMonth - 1) + 2) / 153 == mp
  {
  }

  lemma EraOfDay(era: int, doe: int)
    requires 0 <= doe <= 146096
    ensures (era * 146097 + doe) / 146097 == era
  {
  }

  function DayOfEra(s: Shifted): int {
    s.yoe * 365 + s.yoe / 4 - s.yoe / 100 + s.doy
  }

  lemma CivilOfShifted(s: Shifted)
    requires ShiftedOk(s)
    ensures CivilOf(DayOf(s)) == CivilInYear(s.era, s.yoe, s.doy)
  {
    hide CivilInEra, CivilInYear;
    EraOffset(s);
    EraIsFloor(s.era * 146097 + DayOfEra(s));
    EraOfDay(s.era, DayOfEra(s));
    CivilOfDayOfEra(s);
  }

  lemma CivilOfDayOfEra(s: Shifted)
    requires ShiftedOk(s)
    ensures CivilInEra(s.era, DayOfEra(s)) == CivilInYear(s.era, s.yoe, s.doy)
  {
    var doe := DayOfEra(s);
    EraOffset(s);
    assert CDiv(doe - CDiv(doe, 1460) + CDiv(doe, 36524) - CDiv(doe, 146096), 365) == s.yoe by {
      YearOfEra(s);
      NonNegative(doe);
    }
  }

  lemma NonNegative(doe: int)
    requires 0 <= doe
    ensures 0 <= doe - doe / 1460 + doe / 36524 - doe / 146096
  {
  }

  lemma UnshiftInvertsShift(d: Date)
    requires ValidDate(d)
    ensures var s := Shift(d); CivilInYear(s.era, s.yoe, s.doy) == d
  {
    var mp := if d.month > 2 then d.month - 3 else d.month + 9;
    MonthOfYear(mp, d.day);
  }

  /** Every valid date is recovered from its day number. */
  lemma CivilInvertsDayNumber(d: Date)
    requires ValidDate(d)
    ensures CivilOf(DayNumber(d)) == d
  {
    ShiftOfValid(d);
    CivilOfShifted(Shift(d));
    UnshiftInvertsShift(d);
  }

  // ---- agreement with the reference calendar --------------------------------

  /** The successor in shifted form: the next day of the March year, or the first
      day of the next one. */
  lemma SuccessorShifted(d: Date)
    requires ValidDate(d)
    ensures var s, t := Shift(d), Shift(NextDay(d));
            || t == s.(doy := s.doy + 1)
            || (t.doy == 0 && s.doy == (if IsLeap(s.yoe + 1) then 365 else 364)
                && ((s.yoe < 399 && t == Shifted(s.era, s.yoe + 1, 0)) || (s.yoe == 399 && t == Shifted(s.era + 1, 0, 0))))
  {
    var y := if d.month <= 2 then d.year - 1 else d.year;
    LeapOfEra(y);
  }

  lemma YearLength(s: Shifted, t: Shifted)
    requires 0 <= s.yoe <= 399 && s.doy == (if IsLeap(s.yoe + 1) then 365 else 364)
    requires (s.yoe < 399 && t == Shifted(s.era, s.yoe + 1, 0)) || (s.yoe == 399 && t == Shifted(s.era + 1, 0, 0))
    ensures DayOf(t) == DayOf(s) + 1
  {
    var y := s.yoe + 1;
    assert y / 4 - s.yoe / 4 == (if y % 4 == 0 then 1 else 0);
    assert y / 100 - s.yoe / 100 == (if y % 100 == 0 then 1 else 0);
  }

  /** One step of the calendar is one day of the formula. */
  lemma SuccessorIsNextNumber(d: Date)
    requires ValidDate(d)
    ensures ValidDate(NextDay(d))
    ensures DayNumber(NextDay(d)) == DayNumber(d) + 1
  {
    ShiftOfValid(d);
    ShiftOfValid(NextDay(d));
    SuccessorShifted(d);
    var s, t := Shift(d), Shift(NextDay(d));
    if t.doy == 0 {
      YearLength(s, t);
    }
  }

  lemma {:induction false} CountingDays(d: Date, n: nat)
    requires ValidDate(d)
    ensures ValidDate(After(d, n))
    ensures DayNumber(After(d, n)) == DayNumber(d) + n
  {
    if n > 0 {
      CountingDays(d, n - 1);
      SuccessorIsNextNumber(After(d, n - 1));
    }
  }

  /** The formula is the calendar: a date's day number is how many successors it
      is from 1970-01-01, or how many it takes to get there. */
  lemma DayNumberCountsSuccessors(d: Date)
    requires ValidDate(d)
    ensures 0 <= DayNumber(d) ==> After(EPOCH_DAY, DayNumber(d)) == d
    ensures DayNumber(d) <= 0 ==> After(d, -DayNumber(d)) == EPOCH_DAY
  {
    var n := DayNumber(d);
    WholeEras(0);
    if 0 <= n {
      CountingDays(EPOCH_DAY, n);
      SameNumberSameDate(After(EPOCH_DAY, n), d);
    }
    if n <= 0 {
      CountingDays(d, -n);
      SameNumberSameDate(After(d, -n), EPOCH_DAY);
    }
  }

  lemma SameNumberSameDate(a: Date, b: Date)
    requires ValidDate(a) && ValidDate(b) && DayNumber(a) == DayNumber(b)
    ensures a == b
  {
    CivilInvertsDayNumber(a);
    CivilInvertsDayNumber(b);
  }

  lemma WholeEras(k: int)
    ensures ValidDate(Date(1970 + 400 * k, 1, 1))
    ensures DayNumber(Date(1970 + 400 * k, 1, 1)) == 146097 * k
  {
    var d := Date(1970 + 400 * k, 1, 1);
    ShiftOfValid(d);
    assert 1969 + 400 * k == 400 * (4 + k) + 369;
    assert Shift(d) == Shifted(4 + k, 369, 306);
  }

  /** civil_from_days lands on a real date whose number is the one asked for. */
  lemma DayNumberInvertsCivil(n: int)
    ensures ValidDate(CivilOf(n))
    ensures DayNumber(CivilOf(n)) == n
  {
    var k := n / 146097;
    WholeEras(k);
    var d := Date(1970 + 400 * k, 1, 1);
    CountingDays(d, n - 146097 * k);
    CivilInvertsDayNumber(After(d, n - 146097 * k));
  }

  // ---- the clock ------------------------------------------------------------

  const FIRST: int := ToEpoch(Time(0, 1, 1, 0, 0, 0))
  const LAST: int := ToEpoch(Time(65535, 12, 31, 23, 59, 59))

  /** The formula grows with the year, whatever the (plausible) month and day. */
  lemma YearBounds(d: Date)
    requires 1 <= d.month <= 12 && 1 <= d.day <= 31
    ensures d.year <= -1 ==> DayNumber(d) < -719528
    ensures 0 <= d.year ==> -719528 <= DayNumber(d)
    ensures d.year <= 65535 ==> DayNumber(d) <= 23217003
    ensures 65536 <= d.year ==> 23217003 < DayNumber(d)
  {
  }

  /** The truncating split, with its correction, is the floor split. */
  lemma FloorSplit(days: int, inDay: int)
    requires 0 <= inDay < 86400
    ensures var q, r := CDiv(days * 86400 + inDay, 86400), CMod(days * 86400 + inDay, 86400);
            (if r < 0 then q - 1 else q) == days && (if r < 0 then r + 86400 else r) == inDay
  {
    var secs := days * 86400 + inDay;
    if 0 <= days {
      assert secs / 86400 == days;
    } else if inDay == 0 {
      assert (-secs) / 86400 == -days;
    } else {
      assert (-secs) / 86400 == -days - 1;
    }
  }

  lemma SplitOfSeconds(days: int, inDay: int)
    requires 0 <= inDay < 86400
    ensures FromEpoch(days * 86400 + inDay)
         == var c := CivilOf(days);
            Time(c.year % 0x1_0000, c.month % 0x100, c.day % 0x100,
                 inDay / 3600, inDay / 60 % 60, inDay % 60)
  {
    hide CivilOf;
    FloorSplit(days, inDay);
    ClockFields(inDay);
  }

  lemma ClockFields(inDay: int)
    requires 0 <= inDay < 86400
    ensures CDiv(inDay, 3600) % 0x100 == inDay / 3600
    ensures CMod(CDiv(inDay, 60), 60) % 0x100 == inDay / 60 % 60
    ensures CMod(inDay, 60) % 0x100 == inDay % 60
  {
  }

  /** What one day of civil_from_days becomes once narrowed into the struct. */
  lemma NarrowedCivil(days: int)
    ensures var c := CivilOf(days);
            c.month % 0x100 == c.month && c.day % 0x100 == c.day
            && 1 <= c.month <= 12 && 1 <= c.day <= 31
  {
    hide CivilOf, DayNumber;
    DayNumberInvertsCivil(days);
  }

  /** For every time the decoder lets through, converting to epoch seconds and
      back gives the same fields exactly when the day exists in its month and the
      second is not the leap second. */
  lemma RoundTrip(t: Time)
    requires Plausible(t)
    ensures FromEpoch(ToEpoch(t)) == t <==> Proper(t)
  {
    hide CivilOf, DayNumber, FromEpoch;
    if Proper(t) {
      ProperRoundTrip(t);
    } else if t.sec == 60 {
      assert FromEpoch(ToEpoch(t)).sec != 60 by { FieldsInRange(ToEpoch(t)); }
    } else {
      var inDay := t.hour * 3600 + t.min * 60 + t.sec;
      var n := DayNumber(DateOf(t));
      SplitOfSeconds(n, inDay);
      NarrowedCivil(n);
      DayNumberInvertsCivil(n);
      var c := CivilOf(n);
      YearBounds(c);
      YearBounds(DateOf(t));
      assert !ValidDate(DateOf(t));
      assert DateOf(t) != c;
    }
  }

  lemma ClockDigits(h: int, m: int, s: int)
    requires 0 <= h <= 23 && 0 <= m <= 59 && 0 <= s <= 59
    ensures var inDay := h * 3600 + m * 60 + s;
            inDay / 3600 == h && inDay / 60 % 60 == m && inDay % 60 == s
  {
    assert (h * 3600 + m * 60 + s) / 60 == h * 60 + m;
  }

  lemma ProperRoundTrip(t: Time)
    requires Proper(t)
    ensures FromEpoch(ToEpoch(t)) == t
  {
    hide CivilOf, DayNumber, FromEpoch;
    var inDay := t.hour * 3600 + t.min * 60 + t.sec;
    SplitOfSeconds(DayNumber(DateOf(t)), inDay);
    CivilInvertsDayNumber(DateOf(t));
    ClockDigits(t.hour, t.min, t.sec);
  }

  lemma FieldsInRange(secs: int)
    ensures var t := FromEpoch(secs); Plausible(t) && t.sec <= 59
  {
    var days, inDay := secs / 86400, secs % 86400;
    SplitOfSeconds(days, inDay);
    NarrowedCivil(days);
  }

  /** The other way round: an epoch second survives exactly when its year fits
      the 16-bit field. */
  lemma EpochRoundTrip(secs: int)
    ensures ToEpoch(FromEpoch(secs)) == secs <==> FIRST <= secs <= LAST
    ensures FIRST <= secs <= LAST ==> Proper(FromEpoch(secs))
  {
    hide CivilOf, DayNumber, FromEpoch;
    var days, inDay := secs / 86400, secs % 86400;
    var t := FromEpoch(secs);
    SplitOfSeconds(days, inDay);
    NarrowedCivil(days);
    DayNumberInvertsCivil(days);
    var c := CivilOf(days);
    YearBounds(c);
    YearBounds(DateOf(t));
    FirstAndLast();
    if FIRST <= secs <= LAST {
      assert 0 <= c.year <= 65535;
      assert DateOf(t) == c;
    }
  }

  lemma FirstAndLast()
    ensures FIRST == -719528 * 86400
    ensures LAST == 23217003 * 86400 + 86399
  {
  }

  /** Two times the decoder lets through and the trip does not: 31 February 2023 comes
      back as 3 March, and the leap second of 2016 as the new year. */
  lemma LostTimes()
    ensures var t := Time(2023, 2, 31, 12, 0, 0);
            Plausible(t) && FromEpoch(ToEpoch(t)) == Time(2023, 3, 3, 12, 0, 0)
    ensures var t := Time(2016, 12, 31, 23, 59, 60);
            Plausible(t) && FromEpoch(ToEpoch(t)) == Time(2017, 1, 1, 0, 0, 0)
  {
    hide FromEpoch;
    ProperRoundTrip(Time(2023, 3, 3, 12, 0, 0));
    ProperRoundTrip(Time(2017, 1, 1, 0, 0, 0));
    assert ToEpoch(Time(2023, 2, 31, 12, 0, 0)) == ToEpoch(Time(2023, 3, 3, 12, 0, 0));
    assert ToEpoch(Time(2016, 12, 31, 23, 59, 60)) == ToEpoch(Time(2017, 1, 1, 0, 0, 0));
  }
}
