/** The part of JavaScript's Date that the datepicker uses, with dates as day numbers in the
    proleptic Gregorian calendar (day 0 is 1 January 1970), and the calendar code built on it. */
module Calendar {
  import opened Arithmetic

  // ECMAScript's own definitions (section 15.9.1 of ECMA-262, 5th edition).

  predicate Leap(y: int) {
    y % 4 == 0 && (y % 100 != 0 || y % 400 == 0)
  }

  function DaysInYear(y: int): int {
    if Leap(y) then 366 else 365
  }

  /** The day number of 1 January. */
  function DayFromYear(y: int): int {
    365 * (y - 1970) + (y - 1969) / 4 - (y - 1901) / 100 + (y - 1601) / 400
  }

  /** Days of the year before month `m`, counted from 0; month 12 is the end of the year. */
  function DaysBefore(leap: bool, m: int): int
    requires 0 <= m <= 12
  {
    [0, 31, 59, 90, 120, 151, 181, 212, 243, 273, 304, 334, 365][m] + if leap && m >= 2 then 1 else 0
  }

  /** The length of month `m`, counted from 0, as the calendar has it. */
  function MonthLength(y: int, m: int): int
    requires 0 <= m < 12
  {
    if m == 1 then (if Leap(y) then 29 else 28) else if m in {3, 5, 8, 10} then 30 else 31
  }

  lemma NextYear(y: int)
    ensures DayFromYear(y + 1) == DayFromYear(y) + DaysInYear(y)
  {
    FloorStep(y - 1969, 4);
    FloorStep(y - 1901, 100);
    FloorStep(y - 1601, 400);
  }

  lemma {:induction false} YearsGrow(y: int, z: int)
    requires y < z
    ensures DayFromYear(y) + DaysInYear(y) <= DayFromYear(z)
    decreases z - y
  {
    NextYear(z - 1);
    if y < z - 1 {
      YearsGrow(y, z - 1);
    }
  }

  ghost predicate InYear(day: int, y: int) {
    DayFromYear(y) <= day < DayFromYear(y + 1)
  }

  /** The year a day lies in, searched from `y`. */
  function YearNear(day: int, y: int): (r: int)
    ensures InYear(day, r)
    decreases if day < DayFromYear(y) then DayFromYear(y) - day else if day >= DayFromYear(y + 1) then day - DayFromYear(y + 1) + 1 else 0
  {
    NextYear(y - 1);
    NextYear(y);
    NextYear(y + 1);
    if day < DayFromYear(y) then YearNear(day, y - 1)
    else if day >= DayFromYear(y + 1) then YearNear(day, y + 1)
    else y
  }

  lemma YearIsUnique(day: int, y: int, z: int)
    requires InYear(day, y) && InYear(day, z)
    ensures y == z
  {
    NextYear(y);
    NextYear(z);
    if y < z { YearsGrow(y, z); } else if z < y { YearsGrow(z, y); }
  }

  function MonthFrom(leap: bool, dayInYear: int, m: int): (r: int)
    requires 0 <= m < 12 && DaysBefore(leap, m) <= dayInYear < DaysBefore(leap, 12)
    ensures 0 <= r < 12 && DaysBefore(leap, r) <= dayInYear < DaysBefore(leap, r + 1)
    decreases 12 - m
  {
    if dayInYear < DaysBefore(leap, m + 1) then m else MonthFrom(leap, dayInYear, m + 1)
  }

  // The methods of Date, on local time without daylight saving.

  function GetFullYear(day: int): int {
    YearNear(day, 1970)
  }

  function DayInYear(day: int): (r: int)
    ensures 0 <= r < DaysInYear(GetFullYear(day))
  {
    NextYear(GetFullYear(day));
    day - DayFromYear(GetFullYear(day))
  }

  function GetMonth(day: int): (m: int)
    ensures 0 <= m < 12
  {
    MonthFrom(Leap(GetFullYear(day)), DayInYear(day), 0)
  }

  function GetDate(day: int): int {
    DayInYear(day) - DaysBefore(Leap(GetFullYear(day)), GetMonth(day)) + 1
  }

  /** 0 is Sunday. */
  function GetDay(day: int): int {
    (day + 4) % 7
  }

  /** MakeDay: months and days beyond their range carry over. */
  function MakeDay(y: int, m: int, d: int): int {
    DayFromYear(y + m / 12) + DaysBefore(Leap(y + m / 12), m % 12) + d - 1
  }

  /** The year that the constructor of Date makes of a year: 0 to 99 are 1900 to 1999. */
  function TakenYear(y: int): int {
    if 0 <= y <= 99 then 1900 + y else y
  }

  /** `new Date( y, m, d )` */
  function NewDate(y: int, m: int, d: int): int {
    MakeDay(TakenYear(y), m, d)
  }

  predicate ValidDate(y: int, m: int, d: int) {
    0 <= m < 12 && 1 <= d <= MonthLength(y, m)
  }

  lemma MonthLengths(y: int, m: int)
    requires 0 <= m < 12
    ensures DaysBefore(Leap(y), m + 1) == DaysBefore(Leap(y), m) + MonthLength(y, m)
  {
  }

  lemma {:induction false} MonthsGrow(leap: bool, m: int, n: int)
    requires 0 <= m <= n <= 12
    ensures DaysBefore(leap, m) + 28 * (n - m) <= DaysBefore(leap, n)
  {
  }

  /** The month that a day of the year is found in. */
  lemma {:induction false} MonthIs(leap: bool, dayInYear: int, m: int, from_: int)
    requires 0 <= from_ <= m < 12 && DaysBefore(leap, m) <= dayInYear < DaysBefore(leap, m + 1)
    ensures DaysBefore(leap, from_) <= dayInYear < DaysBefore(leap, 12)
    ensures MonthFrom(leap, dayInYear, from_) == m
    decreases m - from_
  {
    MonthsGrow(leap, from_, m);
    MonthsGrow(leap, m + 1, 12);
    if from_ < m {
      MonthsGrow(leap, from_ + 1, m);
      MonthIs(leap, dayInYear, m, from_ + 1);
    }
  }

  /** The fields of a day of which the year, the month and the day are known. */
  lemma FieldsOf(day: int, y: int, m: int, d: int)
    requires ValidDate(y, m, d) && day == DayFromYear(y) + DaysBefore(Leap(y), m) + d - 1
    ensures GetFullYear(day) == y && GetMonth(day) == m && GetDate(day) == d
  {
    MonthLengths(y, m);
    MonthsGrow(Leap(y), 0, m);
    MonthsGrow(Leap(y), m + 1, 12);
    NextYear(y);
    YearIsUnique(day, y, GetFullYear(day));
    MonthIs(Leap(y), DayInYear(day), m, 0);
  }

  lemma FieldsAreValid(day: int)
    ensures ValidDate(GetFullYear(day), GetMonth(day), GetDate(day))
    ensures MakeDay(GetFullYear(day), GetMonth(day), GetDate(day)) == day
  {
    var m := GetMonth(day);
    MonthLengths(GetFullYear(day), m);
    InRange(GetFullYear(day), m, GetDate(day));
  }

  /** Months within the year need no carrying. */
  lemma InRange(y: int, m: int, d: int)
    requires 0 <= m < 12
    ensures MakeDay(y, m, d) == DayFromYear(y) + DaysBefore(Leap(y), m) + d - 1
  {
    Quotient(m, 12, 0, m);
  }

  /** A day has the fields it was made from iff they name a day of the calendar. */
  lemma FieldsOfMakeDay(y: int, m: int, d: int)
    ensures ValidDate(y, m, d) <==>
      (GetFullYear(MakeDay(y, m, d)) == y && GetMonth(MakeDay(y, m, d)) == m && GetDate(MakeDay(y, m, d)) == d)
  {
    var day := MakeDay(y, m, d);
    if ValidDate(y, m, d) {
      InRange(y, m, d);
      FieldsOf(day, y, m, d);
    } else {
      FieldsAreValid(day);
    }
  }

  /** Year and month, with months counted on beyond the year: month `n` of year `z`. */
  ghost predicate IsMonth(y: int, m: int, z: int, n: int) {
    0 <= n < 12 && 12 * z + n == 12 * y + m
  }

  lemma MonthOf(y: int, m: int, z: int, n: int)
    requires IsMonth(y, m, z, n)
    ensures z == y + m / 12 && n == m % 12
  {
    Quotient(m, 12, z - y, n);
  }

  lemma MonthIsThere(y: int, m: int)
    ensures IsMonth(y, m, y + m / 12, m % 12)
  {
  }

  /** Whole years of months can be taken out. */
  lemma WholeYears(y: int, m: int, d: int, z: int, n: int)
    requires IsMonth(y, m, z, n)
    ensures MakeDay(y, m, d) == DayFromYear(z) + DaysBefore(Leap(z), n) + d - 1
  {
    MonthOf(y, m, z, n);
  }

  /** Going over the end of a month is the same as starting in the next one. */
  lemma NextMonth(z: int, n: int) returns (z': int, n': int)
    requires 0 <= n < 12
    ensures IsMonth(z, n + 1, z', n')
    ensures DayFromYear(z') + DaysBefore(Leap(z'), n') == DayFromYear(z) + DaysBefore(Leap(z), n) + MonthLength(z, n)
  {
    z', n' := if n == 11 then z + 1 else z, if n == 11 then 0 else n + 1;
    MonthLengths(z, n);
    NextYear(z);
  }

  /** `_getDaysInMonth`: 32 minus the date of the 32nd. */
  function GetDaysInMonth(y: int, m: int): int {
    32 - GetDate(NewDate(y, m, 32))
  }

  lemma DaysInMonthOf(y: int, m: int, z: int, n: int)
    requires IsMonth(TakenYear(y), m, z, n)
    ensures GetDaysInMonth(y, m) == MonthLength(z, n)
  {
    var day := MakeDay(TakenYear(y), m, 32);
    var z', n' := NextMonth(z, n);
    WholeYears(TakenYear(y), m, 32, z, n);
    FieldsOf(day, z', n', 32 - MonthLength(z, n));
  }

  /** It is the length of the month, for months of any year and beyond December too. */
  lemma DaysInMonthIsLength(y: int, m: int)
    ensures GetDaysInMonth(y, m) == MonthLength(TakenYear(y) + m / 12, m % 12)
  {
    MonthIsThere(TakenYear(y), m);
    DaysInMonthOf(y, m, TakenYear(y) + m / 12, m % 12);
  }

  /** The number that `formatDate` prints for "o". */
  function DayOfYear(day: int): int {
    NewDate(GetFullYear(day), GetMonth(day), GetDate(day)) - NewDate(GetFullYear(day), 0, 0)
  }

  /** Month and day, both counted on beyond their range, name a day of the year; the month is
      month `n` of year `z`. */
  ghost predicate Names(year: int, doy: nat, month: int, day: int, z: int, n: int) {
    && month >= 1 && IsMonth(year, month - 1, z, n)
    && DayFromYear(z) + DaysBefore(Leap(z), n) + day == DayFromYear(year) + doy
    && (doy >= 1 ==> day >= 1) && (doy == 0 ==> day == 0 && month == 1)
  }

  /** `_getDaysInMonth` for month `n` of year `z`. */
  method DaysIn(year: int, month: int, ghost z: int, ghost n: int) returns (dim: int)
    requires !(0 <= year <= 99) && IsMonth(year, month, z, n)
    ensures dim == MonthLength(z, n)
  {
    DaysInMonthOf(year, month, z, n);
    dim := GetDaysInMonth(year, month);
  }

  /** One month further. */
  lemma NamesNext(year: int, doy: nat, month: int, day: int, z: int, n: int) returns (z': int, n': int)
    requires Names(year, doy, month, day, z, n) && day > MonthLength(z, n)
    ensures Names(year, doy, month + 1, day - MonthLength(z, n), z', n')
  {
    z', n' := NextMonth(z, n);
  }

  /** `parseDate`'s last check: the date that was made has the fields it was made from. */
  predicate Consistent(year: int, month: int, day: int) {
    var date := NewDate(year, month - 1, day);
    GetFullYear(date) == year && GetMonth(date) + 1 == month && GetDate(date) == day
  }

  lemma ConsistentIsValid(year: int, month: int, day: int)
    requires !(0 <= year <= 99)
    ensures Consistent(year, month, day) <==> ValidDate(year, month - 1, day)
  {
    FieldsOfMakeDay(year, month - 1, day);
  }

  /** The month found by the loop lies in the year iff the day number does. */
  lemma SplitInYear(year: int, doy: nat, month: int, day: int, z: int, n: int)
    requires Names(year, doy, month, day, z, n) && 1 <= day <= MonthLength(z, n)
    ensures z == year <==> 1 <= doy <= DaysInYear(year)
  {
    FieldsOf(DayFromYear(year) + doy - 1, z, n, day);
    NextYear(year);
    if 1 <= doy <= DaysInYear(year) {
      YearIsUnique(DayFromYear(year) + doy - 1, year, z);
    }
  }

  lemma ValidSplit(year: int, month: int, day: int, z: int, n: int)
    requires month >= 1 && IsMonth(year, month - 1, z, n) && 1 <= day <= MonthLength(z, n)
    ensures ValidDate(year, month - 1, day) <==> z == year
  {
  }

  /** The check accepts exactly the days of the year, */
  lemma DayOfYearAccepted(year: int, doy: nat, month: int, day: int, z: int, n: int)
    requires !(0 <= year <= 99) && Names(year, doy, month, day, z, n) && day <= MonthLength(z, n)
    ensures Consistent(year, month, day) <==> 1 <= doy <= DaysInYear(year)
  {
    ConsistentIsValid(year, month, day);
    if doy >= 1 {
      SplitInYear(year, doy, month, day, z, n);
      ValidSplit(year, month, day, z, n);
    }
  }

  /** and the date is then the right one. */
  lemma DayOfYearNamed(year: int, doy: nat, month: int, day: int, z: int, n: int)
    requires !(0 <= year <= 99) && Names(year, doy, month, day, z, n)
    ensures NewDate(year, month - 1, day) == DayFromYear(year) + doy - 1
  {
    WholeYears(year, month - 1, day, z, n);
  }

  /** Month and day are those of day number `doy` of the year: counted from the first day of the
      month they name it, and the check accepts them if there is such a day. */
  ghost predicate Split(year: int, doy: nat, month: int, day: int) {
    && month >= 1 && day <= GetDaysInMonth(year, month - 1) && (doy >= 1 ==> day >= 1)
    && NewDate(year, month - 1, day) == DayFromYear(year) + doy - 1
    && (Consistent(year, month, day) <==> 1 <= doy <= DaysInYear(year))
  }

  lemma NamesSplit(year: int, doy: nat, month: int, day: int, z: int, n: int)
    requires !(0 <= year <= 99) && Names(year, doy, month, day, z, n) && day <= MonthLength(z, n)
    ensures Split(year, doy, month, day)
  {
    DaysInMonthOf(year, month - 1, z, n);
    DayOfYearAccepted(year, doy, month, day, z, n);
    DayOfYearNamed(year, doy, month, day, z, n);
  }

  /** The loop of `parseDate` that turns a day of the year into a month and a day. */
  method SplitDayOfYear(year: int, doy: nat) returns (month: int, day: int)
    requires !(0 <= year <= 99)
    ensures Split(year, doy, month, day)
  {
    month, day := 1, doy;
    ghost var z, n := year, 0;
    while true
      invariant Names(year, doy, month, day, z, n)
      decreases day
    {
      var dim := DaysIn(year, month - 1, z, n);
      if day <= dim {
        NamesSplit(year, doy, month, day, z, n);
        break;
      }
      z, n := NamesNext(year, doy, month, day, z, n);
      month := month + 1;
      day := day - dim;
    }
  }

  lemma DayOfYearIs(day: int)
    ensures DayOfYear(day) == DaysBefore(Leap(TakenYear(GetFullYear(day))), GetMonth(day)) + GetDate(day)
    ensures day == DayFromYear(GetFullYear(day)) + DaysBefore(Leap(GetFullYear(day)), GetMonth(day)) + GetDate(day) - 1
  {
    var y, m, d := GetFullYear(day), GetMonth(day), GetDate(day);
    InRange(TakenYear(y), m, d);
    InRange(TakenYear(y), 0, 0);
  }

  /** Of the years taken for others, year 0 alone differs from its own in being a leap year. */
  lemma TakenLeap(y: int)
    ensures Leap(TakenYear(y)) == Leap(y) <==> y != 0
  {
  }

  /** The day of the year that is printed is a day number of the year, and it is the right one but
      from March of year 0 on. */
  lemma DayOfYearRoundTrip(day: int)
    ensures 1 <= DayOfYear(day) <= DaysInYear(GetFullYear(day))
    ensures DayFromYear(GetFullYear(day)) + DayOfYear(day) - 1 == day <==> !(GetFullYear(day) == 0 && GetMonth(day) >= 2)
  {
    DayOfYearIs(day);
    TakenLeap(GetFullYear(day));
    FieldsAreValid(day);
    NextYear(GetFullYear(day));
    MonthLengths(GetFullYear(day), GetMonth(day));
    MonthsGrow(Leap(GetFullYear(day)), GetMonth(day) + 1, 12);
  }

  lemma FieldsInRange(day: int)
    ensures 0 <= GetMonth(day) < 12 && 1 <= GetDate(day) <= 31 && 0 <= GetDay(day) < 7
  {
    FieldsAreValid(day);
  }

  lemma DayOfYearInRange(day: int)
    ensures 1 <= DayOfYear(day) <= 366
  {
    FieldsInRange(day);
    NewDateSpan(GetFullYear(day), GetMonth(day), GetDate(day));
  }

  lemma NewDateSpan(y: int, m: int, d: int)
    requires 0 <= m < 12 && 1 <= d <= 31
    ensures 1 <= NewDate(y, m, d) - NewDate(y, 0, 0) <= 366
  {
    DaysSince(TakenYear(y), m, d);
  }

  lemma DaysSince(z: int, m: int, d: int)
    requires 0 <= m < 12 && 1 <= d <= 31
    ensures 1 <= MakeDay(z, m, d) - MakeDay(z, 0, 0) <= 366
  {
    InRange(z, m, d);
    InRange(z, 0, 0);
    MonthsGrow(Leap(z), m, 11);
  }

  // ISO weeks.

  function Monday(day: int): int {
    day - (day + 3) % 7
  }

  lemma SameWeekday(x: int, y: int, k: int)
    requires x == y + 7 * k
    ensures x % 7 == y % 7
  {
  }

  lemma Shifted(n: int, k: int, q: int)
    requires k > 0
    ensures (n - k * q) / k == n / k - q
  {
    assert n - k * q == k * (n / k - q) + n % k;
    Quotient(n - k * q, k, n / k - q, n % k);
  }

  lemma Centuries(y: int)
    ensures DayFromYear(y) == 365 * (y - 1970) + ((y - 1) / 4 - 492) - ((y - 1) / 100 - 19) + ((y - 1) / 400 - 4)
  {
    Shifted(y - 1, 4, 492);
    Shifted(y - 1, 100, 19);
    Shifted(y - 1, 400, 4);
  }

  /** Which weekday a year begins with, by the rule of Gauss. */
  lemma FirstWeekday(y: int)
    ensures GetDay(DayFromYear(y)) == (1 + 5 * ((y - 1) % 4) + 4 * ((y - 1) % 100) + 6 * ((y - 1) % 400)) % 7
  {
    var p := y - 1;
    var a, b, c := p / 4, p / 100, p / 400;
    Centuries(y);
    var gauss := 1 + 5 * (p - 4 * a) + 4 * (p - 100 * b) + 6 * (p - 400 * c);
    SameWeekday(DayFromYear(y) + 4, gauss, 50 * p + 3 * a + 57 * b + 343 * c - 102737);
  }

  function IsoWeek(day: int): int {
    var thursday := Monday(day) + 3;
    (thursday - DayFromYear(GetFullYear(thursday))) / 7 + 1
  }

  /** The week from this Monday on has a 4 January in it. */
  ghost predicate HoldsJanuary4(monday: int) {
    exists y :: monday <= DayFromYear(y) + 3 < monday + 7
  }

  lemma ThursdayOf(date: int)
    ensures var weekday := if GetDay(date) == 0 then 7 else GetDay(date);
            MakeDay(GetFullYear(date), GetMonth(date), GetDate(date) + 4 - weekday) == Monday(date) + 3
  {
    FieldsAreValid(date);
    FloorStep(date + 3, 7);
  }

  lemma JanuaryOf(date: int)
    ensures var inJanuary := MakeDay(GetFullYear(date), 0, GetDate(date));
            MakeDay(GetFullYear(inJanuary), GetMonth(inJanuary), 1) == DayFromYear(GetFullYear(date))
  {
    var y, d := GetFullYear(date), GetDate(date);
    FieldsAreValid(date);
    InRange(y, 0, d);
    FieldsOf(MakeDay(y, 0, d), y, 0, d);
    InRange(y, 0, 1);
  }

  /** The week number, counted from the Thursday of the week. */
  lemma IsoWeekIn(day: int, y: int)
    requires InYear(Monday(day) + 3, y)
    ensures IsoWeek(day) == (Monday(day) + 3 - DayFromYear(y)) / 7 + 1
  {
    YearIsUnique(Monday(day) + 3, y, GetFullYear(Monday(day) + 3));
  }

  /** `iso8601Week` */
  method Iso8601Week(date: int) returns (week: int)
    ensures week == IsoWeek(date)
  {
    var checkDate := date;
    // to the Thursday of the week
    var weekday := if GetDay(checkDate) == 0 then 7 else GetDay(checkDate);
    checkDate := MakeDay(GetFullYear(checkDate), GetMonth(checkDate), GetDate(checkDate) + 4 - weekday);
    ThursdayOf(date);
    assert checkDate == Monday(date) + 3;
    var time := checkDate;
    // to the first day of that year
    checkDate := MakeDay(GetFullYear(checkDate), 0, GetDate(checkDate));
    checkDate := MakeDay(GetFullYear(checkDate), GetMonth(checkDate), 1);
    JanuaryOf(time);
    assert checkDate == DayFromYear(GetFullYear(time));
    week := (time - checkDate) / 7 + 1;
  }

  lemma MondayOf(day: int, k: int)
    requires 0 <= k < 7
    ensures Monday(Monday(day) + k) == Monday(day)
    ensures Monday(day) <= day < Monday(day) + 7 && GetDay(Monday(day)) == 1
  {
  }

  /** Constant from Monday to Sunday, and between 1 and 53. */
  lemma WeekIsConstant(day: int, k: int)
    requires 0 <= k < 7
    ensures IsoWeek(Monday(day) + k) == IsoWeek(day)
    ensures 1 <= IsoWeek(day) <= 53
    ensures GetDay(Monday(day)) == 1 && Monday(day) <= day < Monday(day) + 7
  {
    var y := GetFullYear(Monday(day) + 3);
    MondayOf(day, k);
    NextYear(y);
    IsoWeekIn(day, y);
    IsoWeekIn(Monday(day) + k, y);
  }

  /** A week has 4 January in it iff its Thursday is among the first seven days of a year. */
  lemma January4(monday: int, y: int)
    requires InYear(monday + 3, y)
    ensures HoldsJanuary4(monday) <==> monday + 3 - DayFromYear(y) < 7
  {
    if z :| monday <= DayFromYear(z) + 3 < monday + 7 {
      NextYear(z);
      YearIsUnique(monday + 3, y, z);
    }
    if monday + 3 - DayFromYear(y) < 7 {
      assert monday <= DayFromYear(y) + 3 < monday + 7;
    }
  }

  /** Week 1 is the week of 4 January (section 2.2.10 of ISO 8601:2004). */
  lemma WeekOne(day: int)
    ensures IsoWeek(day) == 1 <==> HoldsJanuary4(Monday(day))
  {
    var y := GetFullYear(Monday(day) + 3);
    IsoWeekIn(day, y);
    January4(Monday(day), y);
  }

  lemma NextMonday(day: int)
    ensures Monday(day + 7) == Monday(day) + 7
  {
  }

  /** From one week to the next the number grows by one, unless a new year of weeks begins. */
  lemma NextWeek(day: int)
    ensures IsoWeek(day + 7) == if HoldsJanuary4(Monday(day + 7)) then 1 else IsoWeek(day) + 1
  {
    var t := Monday(day) + 3;
    var y := GetFullYear(t);
    NextMonday(day);
    IsoWeekIn(day, y);
    var z := YearAWeekLater(t, y);
    IsoWeekIn(day + 7, z);
    January4(Monday(day + 7), z);
  }

  lemma YearAWeekLater(t: int, y: int) returns (z: int)
    requires InYear(t, y)
    ensures InYear(t + 7, z)
    ensures (t + 7 - DayFromYear(z)) / 7 == if t + 7 - DayFromYear(z) < 7 then 0 else (t - DayFromYear(y)) / 7 + 1
  {
    z := if t + 7 < DayFromYear(y + 1) then y else y + 1;
    NextYear(y);
    NextYear(y + 1);
    Quotient(t + 7 - DayFromYear(y), 7, (t - DayFromYear(y)) / 7 + 1, (t - DayFromYear(y)) % 7);
  }
}
