/** Civil dates and day numbers: the two conversions, and the proleptic Gregorian calendar they must agree with. */
module Calendar {

  datatype Date = Date(year: int, month: int, day: int)

  /** Division as the source's language does it: towards zero. */
  function TruncDiv(a: int, b: int): int
    requires b > 0
  {
    if a >= 0 then a / b else -((-a) / b)
  }

  // ---- the source's conversions ----

  function DayOfYear(month: int, day: int): int {
    (153 * (if month > 2 then month - 3 else month + 9) + 2) / 5 + day - 1
  }

  function DayOfEra(yearOfEra: int, dayOfYear: int): int {
    yearOfEra * 365 + yearOfEra / 4 - yearOfEra / 100 + dayOfYear
  }

  /** Days since 1970-01-01. */
  function DaysFromCivil(d: Date): int {
    var year := if d.month <= 2 then d.year - 1 else d.year;
    var era := TruncDiv(if year >= 0 then year else year - 399, 400);
    var yearOfEra := year - era * 400;
    era * 146097 + DayOfEra(yearOfEra, DayOfYear(d.month, d.day)) - 719468
  }

  function YearOfEra(dayOfEra: int): int {
    (dayOfEra - dayOfEra / 1460 + dayOfEra / 36524 - dayOfEra / 146096) / 365
  }

  function EraOfDay(z: int): int {
    TruncDiv(if z >= 0 then z else z - 146096, 146097)
  }

  /** The day of the era on which its `y`-th year begins, years being counted from March. */
  function YearStart(y: int): int {
    365 * y + y / 4 - y / 100
  }

  function MonthOf(dayOfYear: int): int {
    var mp := (5 * dayOfYear + 2) / 153;
    if mp < 10 then mp + 3 else mp - 9
  }

  function DayOf(dayOfYear: int): int {
    dayOfYear - (153 * ((5 * dayOfYear + 2) / 153) + 2) / 5 + 1
  }

  /** The date with a given March year and day within it. */
  function DateIn(march: int, dayOfYear: int): Date {
    Date(if MonthOf(dayOfYear) <= 2 then march + 1 else march, MonthOf(dayOfYear), DayOf(dayOfYear))
  }

  function CivilOfEra(era: int, dayOfEra: int): Date {
    var yearOfEra := YearOfEra(dayOfEra);
    DateIn(yearOfEra + era * 400, dayOfEra - YearStart(yearOfEra))
  }

  /** The inverse of `DaysFromCivil`. */
  function CivilFromDays(days: int): Date {
    var z := days + 719468;
    CivilOfEra(EraOfDay(z), z - EraOfDay(z) * 146097)
  }

  // ---- the calendar ----

  predicate IsLeap(year: int) {
    year % 4 == 0 && (year % 100 != 0 || year % 400 == 0)
  }

  function DaysInMonth(year: int, month: int): int {
    if month == 2 then (if IsLeap(year) then 29 else 28)
    else if month == 4 || month == 6 || month == 9 || month == 11 then 30
    else 31
  }

  predicate ValidDate(d: Date) {
    1 <= d.month <= 12 && 1 <= d.day <= DaysInMonth(d.year, d.month)
  }

  predicate Earlier(a: Date, b: Date) {
    if a.year != b.year then a.year < b.year
    else if a.month != b.month then a.month < b.month
    else a.day < b.day
  }

  /** The day after. */
  function Tomorrow(d: Date): Date {
    if d.day < DaysInMonth(d.year, d.month) then d.(day := d.day + 1)
    else if d.month < 12 then Date(d.year, d.month + 1, 1)
    else Date(d.year + 1, 1, 1)
  }

  // ---- eras ----

  lemma EraOfYearIsFloor(y: int)
    ensures TruncDiv(if y >= 0 then y else y - 399, 400) == y / 400
  {
  }

  lemma EraOfDayIsFloor(z: int)
    ensures EraOfDay(z) == z / 146097
  {
  }

  // ---- years within an era, counted from March ----

  /** The `y`-th year from March contains the leap day of the civil year after it. */
  function YearLength(y: int): int {
    if IsLeap(y + 1) then 366 else 365
  }

  /** A day of an era as century, four-year cycle, year and day. */
  predicate Parts(doe: int, c: int, q: int, k: int, doy: int) {
    && 0 <= c <= 3 && 0 <= q <= 24 && 0 <= k <= 3 && 0 <= doy
    && doe == 36524 * c + 1461 * q + 365 * k + doy
    && doy < YearLength(100 * c + 4 * q + k)
  }

  lemma PartsExist(doe: int) returns (c: int, q: int, k: int, doy: int)
    requires 0 <= doe <= 146096
    ensures Parts(doe, c, q, k, doy)
  {
    c := if doe / 36524 == 4 then 3 else doe / 36524;
    var r := doe - 36524 * c;
    q := r / 1461;
    var s := r - 1461 * q;
    k := if s / 365 == 4 then 3 else s / 365;
    doy := s - 365 * k;
  }

  lemma PartsYear(doe: int, c: int, q: int, k: int, doy: int)
    requires Parts(doe, c, q, k, doy)
    ensures YearOfEra(doe) == 100 * c + 4 * q + k
  {
    var e := 24 * c + q + 365 * k + doy;
    var late := if e >= 1460 then 1 else 0;
    LeapDayIsLate(c, q, k, doy);
    Quotient(doe, 1460, 25 * c + q + late, e - 1460 * late);
    CenturyOf(doe, c, q, k, doy);
    Quotient(doe - doe / 1460 + c, 365, 100 * c + 4 * q + k, doy - late);
  }

  lemma Quotient(a: int, n: int, q: int, r: int)
    requires n == 365 || n == 1460
    requires a == n * q + r && 0 <= r < n
    ensures a / n == q
  {
  }

  /** The leap day falls in the last days of a four-year cycle, where one day has already been set aside. */
  lemma LeapDayIsLate(c: int, q: int, k: int, doy: int)
    requires 0 <= c <= 3 && 0 <= q <= 24 && 0 <= k <= 3 && 0 <= doy < YearLength(100 * c + 4 * q + k)
    ensures doy == 365 ==> k == 3
    ensures 24 * c + q + 365 * k + doy >= 1460 ==> doy >= 1
  {
  }

  lemma CenturyOf(doe: int, c: int, q: int, k: int, doy: int)
    requires Parts(doe, c, q, k, doy)
    ensures doe / 36524 - doe / 146096 == c
  {
    LeapDayIsLate(c, q, k, doy);
    assert doe - 36524 * c <= 36524;
    assert doe - 36524 * c == 36524 ==> c == 3 by {
      if doe - 36524 * c == 36524 {
        assert q == 24 && k == 3 && doy == 365;
      }
    }
  }

  lemma PartsStart(doe: int, c: int, q: int, k: int, doy: int)
    requires Parts(doe, c, q, k, doy)
    ensures YearStart(100 * c + 4 * q + k) == doe - doy
  {
  }

  // ---- months within a year counted from March ----

  function MarchMonth(month: int): int {
    if month > 2 then month - 3 else month + 9
  }

  /** Month lengths, February given its leap day. */
  function LongMonth(month: int): int {
    DaysInMonth(4, month)
  }

  lemma MonthSplit(doy: int)
    requires 0 <= doy <= 365
    ensures var m, d := MonthOf(doy), DayOf(doy);
            1 <= m <= 12 && 1 <= d <= LongMonth(m) && DayOfYear(m, d) == doy && (m == 2 && d == 29 <==> doy == 365)
  {
  }

  lemma MonthJoin(month: int, day: int)
    requires 1 <= month <= 12 && 1 <= day <= LongMonth(month)
    ensures var doy := DayOfYear(month, day);
            0 <= doy <= 365 && MonthOf(doy) == month && DayOf(doy) == day
            && (doy == 365 <==> month == 2 && day == 29)
  {
  }

  // ---- the year a date is filed under: March to February ----

  function MarchYear(d: Date): int {
    if d.month <= 2 then d.year - 1 else d.year
  }

  /** Days before the first of March of a year, from the first of March of year zero. */
  function YearOffset(y: int): int {
    365 * y + y / 4 - y / 100 + y / 400
  }

  lemma LeapPeriod(y: int, era: int)
    ensures IsLeap(y + 400 * era) == IsLeap(y)
  {
    assert y + 400 * era == 4 * (y / 4 + 100 * era) + y % 4;
    assert y + 400 * era == 100 * (y / 100 + 4 * era) + y % 100;
    assert y + 400 * era == 400 * (y / 400 + era) + y % 400;
    Remainder4(y + 400 * era, y / 4 + 100 * era, y % 4);
    Remainder100(y + 400 * era, y / 100 + 4 * era, y % 100);
    Remainder400(y + 400 * era, y / 400 + era, y % 400);
  }

  lemma Remainder4(a: int, q: int, r: int)
    requires a == 4 * q + r && 0 <= r < 4
    ensures a % 4 == r && a / 4 == q
  {
  }

  lemma Remainder100(a: int, q: int, r: int)
    requires a == 100 * q + r && 0 <= r < 100
    ensures a % 100 == r && a / 100 == q
  {
  }

  lemma Remainder400(a: int, q: int, r: int)
    requires a == 400 * q + r && 0 <= r < 400
    ensures a % 400 == r && a / 400 == q
  {
  }

  /** The day number of a date is the start of its March year and the day within it. */
  lemma DaysByOffset(d: Date)
    ensures DaysFromCivil(d) == YearOffset(MarchYear(d)) + DayOfYear(d.month, d.day) - 719468
  {
    var y := MarchYear(d);
    EraOfYearIsFloor(y);
    OffsetByEra(y / 400, y % 400);
  }

  lemma OffsetByEra(era: int, y: int)
    requires 0 <= y < 400
    ensures YearOffset(400 * era + y) == 146097 * era + YearStart(y)
  {
    assert (400 * era + y) / 4 == 100 * era + y / 4;
    assert (400 * era + y) / 100 == 4 * era + y / 100;
    assert (400 * era + y) / 400 == era;
  }

  lemma ValidIsInYear(d: Date)
    requires ValidDate(d)
    ensures 0 <= DayOfYear(d.month, d.day) < YearLength(MarchYear(d))
    ensures MonthOf(DayOfYear(d.month, d.day)) == d.month && DayOf(DayOfYear(d.month, d.day)) == d.day
  {
    MonthJoin(d.month, d.day);
  }

  // ---- the bijection ----

  /** A day of an era as a March year and a day within it. */
  lemma EraDay(doe: int)
    requires 0 <= doe <= 146096
    ensures var y := YearOfEra(doe);
            0 <= y <= 399 && 0 <= doe - YearStart(y) < YearLength(y)
  {
    var c, q, k, doy := PartsExist(doe);
    PartsYear(doe, c, q, k, doy);
    PartsStart(doe, c, q, k, doy);
  }

  lemma EraDayUnique(y: int, doy: int)
    requires 0 <= y <= 399 && 0 <= doy < YearLength(y)
    ensures 0 <= YearStart(y) + doy <= 146096 && YearOfEra(YearStart(y) + doy) == y
  {
    var c, q, k := y / 100, y % 100 / 4, y % 4;
    assert y == 100 * c + 4 * q + k;
    assert YearStart(y) == 36524 * c + 1461 * q + 365 * k;
    PartsYear(YearStart(y) + doy, c, q, k, doy);
  }

  lemma CivilByParts(days: int, era: int, y: int, doy: int)
    requires 0 <= y <= 399 && 0 <= doy < YearLength(y)
    requires days == 146097 * era + YearStart(y) + doy - 719468
    ensures CivilFromDays(days) == DateIn(y + 400 * era, doy)
  {
    var doe := YearStart(y) + doy;
    EraDayUnique(y, doy);
    CivilAt(days, era, doe);
    CivilOfEraAt(era, doe, y, doy);
  }

  lemma CivilAt(days: int, era: int, doe: int)
    requires days + 719468 == 146097 * era + doe && 0 <= doe <= 146096
    ensures CivilFromDays(days) == CivilOfEra(era, doe)
  {
    EraOfDayIs(days + 719468, era, doe);
  }

  lemma EraOfDayIs(z: int, era: int, doe: int)
    requires z == 146097 * era + doe && 0 <= doe <= 146096
    ensures EraOfDay(z) == era && z - EraOfDay(z) * 146097 == doe
  {
    EraOfDayIsFloor(z);
    EraRemainder(z, era, doe);
  }

  lemma CivilOfEraAt(era: int, doe: int, y: int, doy: int)
    requires YearOfEra(doe) == y && doe == YearStart(y) + doy
    ensures CivilOfEra(era, doe) == DateIn(y + 400 * era, doy)
  {
  }

  lemma EraRemainder(z: int, era: int, doe: int)
    requires z == 146097 * era + doe && 0 <= doe <= 146096
    ensures z / 146097 == era
  {
  }

  lemma DaysByParts(era: int, y: int, doy: int)
    requires 0 <= y <= 399 && 0 <= doy < YearLength(y)
    ensures ValidDate(DateIn(y + 400 * era, doy))
    ensures DaysFromCivil(DateIn(y + 400 * era, doy)) == 146097 * era + YearStart(y) + doy - 719468
  {
    var d := DateIn(y + 400 * era, doy);
    MonthSplit(doy);
    LeapPeriod(y + 1, era);
    DaysByOffset(d);
    OffsetByEra(era, y);
    FebruaryLength(d, y + 400 * era);
  }

  lemma FebruaryLength(d: Date, march: int)
    requires 1 <= d.month <= 12 && 1 <= d.day <= LongMonth(d.month) && march == MarchYear(d)
    requires d.month == 2 && d.day == 29 ==> IsLeap(march + 1)
    ensures ValidDate(d)
  {
  }

  lemma PartsOfDays(days: int) returns (era: int, y: int, doy: int)
    ensures 0 <= y <= 399 && 0 <= doy < YearLength(y)
    ensures days == 146097 * era + YearStart(y) + doy - 719468
  {
    var z := days + 719468;
    era := z / 146097;
    EraDay(z % 146097);
    y := YearOfEra(z % 146097);
    doy := z % 146097 - YearStart(y);
  }

  lemma PartsOfDate(d: Date) returns (era: int, y: int, doy: int)
    requires ValidDate(d)
    ensures 0 <= y <= 399 && 0 <= doy < YearLength(y) && d == DateIn(y + 400 * era, doy)
  {
    var march := MarchYear(d);
    era, y, doy := march / 400, march % 400, DayOfYear(d.month, d.day);
    ValidIsInYear(d);
    LeapPeriod(y + 1, era);
    assert march == 400 * era + y;
  }

  /** Converting any day number to a date and back gives the same day, and the date is one of the calendar's. */
  lemma DaysRoundTrip(days: int)
    ensures ValidDate(CivilFromDays(days))
    ensures DaysFromCivil(CivilFromDays(days)) == days
  {
    var era, y, doy := PartsOfDays(days);
    CivilByParts(days, era, y, doy);
    DaysByParts(era, y, doy);
  }

  /** Converting any date of the calendar to its day number and back gives the same date. */
  lemma CivilRoundTrip(d: Date)
    requires ValidDate(d)
    ensures CivilFromDays(DaysFromCivil(d)) == d
  {
    var era, y, doy := PartsOfDate(d);
    DaysByParts(era, y, doy);
    CivilByParts(DaysFromCivil(d), era, y, doy);
  }

  // ---- order ----

  lemma YearStep(y: int)
    ensures YearOffset(y + 1) == YearOffset(y) + YearLength(y)
  {
    Step4(y);
    Step100(y);
    Step400(y);
    LeapRules(y + 1);
  }

  lemma Step4(y: int)
    ensures (y + 1) / 4 == y / 4 + if (y + 1) % 4 == 0 then 1 else 0
  {
  }

  lemma Step100(y: int)
    ensures (y + 1) / 100 == y / 100 + if (y + 1) % 100 == 0 then 1 else 0
  {
  }

  lemma Step400(y: int)
    ensures (y + 1) / 400 == y / 400 + if (y + 1) % 400 == 0 then 1 else 0
  {
  }

  lemma LeapRules(y: int)
    ensures y % 400 == 0 ==> y % 100 == 0
    ensures y % 100 == 0 ==> y % 4 == 0
  {
  }

  lemma {:induction false} YearsApart(a: int, b: int)
    requires a < b
    ensures YearOffset(a) + YearLength(a) <= YearOffset(b)
    decreases b - a
  {
    YearStep(b - 1);
    if a < b - 1 {
      YearsApart(a, b - 1);
    }
  }

  lemma EarlierHasFewerDays(a: Date, b: Date)
    requires ValidDate(a) && ValidDate(b) && Earlier(a, b)
    ensures DaysFromCivil(a) < DaysFromCivil(b)
  {
    DaysByOffset(a);
    DaysByOffset(b);
    ValidIsInYear(a);
    ValidIsInYear(b);
    if MarchYear(a) < MarchYear(b) {
      YearsApart(MarchYear(a), MarchYear(b));
    } else {
      EarlierInYear(a, b);
    }
  }

  lemma EarlierInYear(a: Date, b: Date)
    requires ValidDate(a) && ValidDate(b) && Earlier(a, b) && MarchYear(a) == MarchYear(b)
    ensures DayOfYear(a.month, a.day) < DayOfYear(b.month, b.day)
  {
    if MarchMonth(a.month) < MarchMonth(b.month) {
      MonthsApart(MarchMonth(a.month), MarchMonth(b.month));
      MonthLength(a.month);
    }
  }

  lemma MonthsApart(a: int, b: int)
    requires 0 <= a < b <= 11
    ensures (153 * (a + 1) + 2) / 5 <= (153 * b + 2) / 5
  {
  }

  lemma MonthLength(month: int)
    requires 1 <= month <= 12
    ensures month != 2 ==>
              LongMonth(month) == (153 * (MarchMonth(month) + 1) + 2) / 5 - (153 * MarchMonth(month) + 2) / 5
  {
  }

  /** Dates are in order exactly when their day numbers are. */
  lemma OrderAgrees(a: Date, b: Date)
    requires ValidDate(a) && ValidDate(b)
    ensures Earlier(a, b) <==> DaysFromCivil(a) < DaysFromCivil(b)
  {
    if Earlier(a, b) {
      EarlierHasFewerDays(a, b);
    } else if a != b {
      EarlierHasFewerDays(b, a);
    }
  }

  lemma TomorrowInYear(d: Date)
    requires ValidDate(d) && (d.month != 2 || d.day < DaysInMonth(d.year, 2))
    ensures MarchYear(Tomorrow(d)) == MarchYear(d)
    ensures DayOfYear(Tomorrow(d).month, Tomorrow(d).day) == DayOfYear(d.month, d.day) + 1
  {
    MonthLength(d.month);
  }

  lemma TomorrowInMarch(d: Date)
    requires ValidDate(d) && d.month == 2 && d.day == DaysInMonth(d.year, 2)
    ensures MarchYear(Tomorrow(d)) == MarchYear(d) + 1
    ensures DayOfYear(Tomorrow(d).month, Tomorrow(d).day) == 0
    ensures DayOfYear(d.month, d.day) + 1 == YearLength(MarchYear(d))
  {
  }

  lemma TomorrowIsValid(d: Date)
    requires ValidDate(d)
    ensures ValidDate(Tomorrow(d))
  {
  }

  lemma EpochIsDayZero()
    ensures DaysFromCivil(Date(1970, 1, 1)) == 0
  {
  }

  /** One more day in the calendar is one more in the offsets. */
  lemma TomorrowByOffset(d: Date)
    requires ValidDate(d)
    ensures YearOffset(MarchYear(Tomorrow(d))) + DayOfYear(Tomorrow(d).month, Tomorrow(d).day)
         == YearOffset(MarchYear(d)) + DayOfYear(d.month, d.day) + 1
  {
    if d.month == 2 && d.day == DaysInMonth(d.year, 2) {
      TomorrowInMarch(d);
      YearStep(MarchYear(d));
    } else {
      TomorrowInYear(d);
    }
  }

  /** The day numbers count days: the epoch is day zero, and the day after a date has the next number. With the
      bijection, this fixes both conversions completely. */
  lemma DaysCountDays(d: Date)
    requires ValidDate(d)
    ensures DaysFromCivil(Date(1970, 1, 1)) == 0
    ensures ValidDate(Tomorrow(d)) && DaysFromCivil(Tomorrow(d)) == DaysFromCivil(d) + 1
  {
    EpochIsDayZero();
    TomorrowIsValid(d);
    TomorrowByOffset(d);
    DaysByOffset(d);
    DaysByOffset(Tomorrow(d));
  }
}
