/** What the letters of a date format mean, and what reading a date finds. */
module DateMeaning {
  import opened Wrappers
  import opened Calendar
  import opened Decimal
  import opened DateLanguage
  import opened DateRoundTrip
  import opened FormatText

  /** The fields of the date that a year, a month and a day name. */
  lemma FieldsNamed(y: int, m: int, d: int)
    requires ValidDate(y, m, d)
    ensures var f := FieldsOfDate(MakeDay(y, m, d)); f.year == y && f.month == m && f.day == d
  {
    InRange(y, m, d);
    FieldsOf(MakeDay(y, m, d), y, m, d);
  }

  function TwoDigits(n: int): string
    requires 0 <= n < 100
  {
    [Digit(n / 10), Digit(n % 10)]
  }

  function FourDigits(n: int): string
    requires 0 <= n < 10000
  {
    TwoDigits(n / 100) + TwoDigits(n % 100)
  }

  lemma DigitsOfTwo(n: int)
    requires 10 <= n < 100
    ensures Digits(n) == TwoDigits(n)
  {
    assert Digits(n / 10) == [Digit(n / 10)];
  }

  lemma PaddedTwo(n: int)
    requires 0 <= n < 100
    ensures Padded(Signed(n), 2) == TwoDigits(n)
  {
    if n >= 10 {
      DigitsOfTwo(n);
    } else {
      assert Digits(n) == [Digit(n)] && "0" + [Digit(n)] == TwoDigits(n);
      assert Padded([Digit(n)], 2) == Padded("0" + [Digit(n)], 2);
    }
  }

  lemma Tenths(n: int)
    ensures n / 10 / 10 == n / 100 && n / 10 % 10 == n % 100 / 10 && n % 10 == n % 100 % 10
  {
  }

  lemma {:induction false} YearIsFour(n: int)
    requires 1000 <= n <= 9999
    ensures Signed(n) == FourDigits(n)
  {
    Tenths(n);
    DigitsOfTwo(n / 100);
    assert Digits(n / 10) == Digits(n / 100) + [Digit(n / 10 % 10)];
    assert Digits(n) == Digits(n / 10) + [Digit(n % 10)];
    assert TwoDigits(n % 100) == [Digit(n / 10 % 10)] + [Digit(n % 10)];
  }

  lemma ShortYearIs(y: int)
    requires 1900 <= y
    ensures Remainder(y - 1900, 100) == y % 100
    ensures (if y % 100 < 10 then "0" else "") + Signed(y % 100) == TwoDigits(y % 100)
  {
    var n := y % 100;
    if n >= 10 {
      DigitsOfTwo(n);
      assert "" + Digits(n) == Digits(n);
    } else {
      assert Digits(n) == [Digit(n)];
    }
  }

  lemma NumbersMean(f: DateFields, doubled: bool)
    requires f.Valid()
    ensures PrintNumber('d', doubled, f) == (if doubled then TwoDigits(f.day) else Digits(f.day))
    ensures PrintNumber('m', doubled, f) == (if doubled then TwoDigits(f.month + 1) else Digits(f.month + 1))
  {
    PaddedTwo(f.day);
    PaddedTwo(f.month + 1);
  }

  lemma YearsMean(f: DateFields)
    ensures 1000 <= f.year <= 9999 ==> PrintNumber('y', true, f) == FourDigits(f.year)
    ensures 1900 <= f.year ==> PrintNumber('y', false, f) == TwoDigits(f.year % 100)
  {
    if 1000 <= f.year <= 9999 { YearIsFour(f.year); }
    if 1900 <= f.year { ShortYearIs(f.year); }
  }

  /** What a letter prints for the day `d` of month `m` (counted from 0) of year `y`. */
  lemma {:induction false} LettersMean(y: int, m: int, d: int, names: Names, doubled: bool)
    requires ValidDate(y, m, d) && names.Complete()
    ensures var f, day := FieldsOfDate(MakeDay(y, m, d)), MakeDay(y, m, d);
      && Print(Number('d', doubled), f, names) == (if doubled then TwoDigits(d) else Digits(d))
      && Print(Number('m', doubled), f, names) == (if doubled then TwoDigits(m + 1) else Digits(m + 1))
      && (1000 <= y <= 9999 ==> Print(Number('y', true), f, names) == FourDigits(y))
      && (1900 <= y ==> Print(Number('y', false), f, names) == TwoDigits(y % 100))
      && Print(Name('M', doubled), f, names) == (if doubled then names.monthNames else names.monthNamesShort)[m]
      && Print(Name('D', doubled), f, names) == (if doubled then names.dayNames else names.dayNamesShort)[(day + 4) % 7]
  {
    FieldsNamed(y, m, d);
    NumbersMean(FieldsOfDate(MakeDay(y, m, d)), doubled);
    YearsMean(FieldsOfDate(MakeDay(y, m, d)));
  }

  /** The day of the year is the number of days before the month, and the day. */
  lemma DayLetterMeans(y: int, m: int, d: int, names: Names)
    requires ValidDate(y, m, d) && names.Complete() && y != 0
    ensures Print(Number('o', false), FieldsOfDate(MakeDay(y, m, d)), names) == Digits(DaysBefore(Leap(y), m) + d)
  {
    FieldsNamed(y, m, d);
    DayOfYearIs(MakeDay(y, m, d));
    TakenLeap(y);
  }

  function SlashDate(): seq<Piece> {
    [Number('m', true)] + ([Literal('/')] + ([Number('d', true)] + ([Literal('/')] + ([Number('y', true)] + []))))
  }

  lemma {:induction false} DefaultPieces()
    ensures Pieces("mm/dd/yy", 0, false) == SlashDate()
  {
    var year, dayYear, rest := "yy" + "", "dd" + ("/" + ("yy" + "")), "/" + ("dd" + ("/" + ("yy" + "")));
    DoubleLetter('y', "");
    Itself('/', year, false);
    DoubleLetter('d', "/" + year);
    Itself('/', dayYear, false);
    DoubleLetter('m', rest);
    assert "mm" + rest == "mm/dd/yy";
  }

  lemma {:induction false} SlashDatePrints(f: DateFields, names: Names)
    requires names.Complete() && f.Valid()
    ensures PrintAll(SlashDate(), f, names)
         == Print(Number('m', true), f, names) + ("/" + (Print(Number('d', true), f, names) + ("/" + (Print(Number('y', true), f, names) + ""))))
  {
    var slash := Literal('/');
    PrintCons(Number('y', true), [], f, names);
    PrintCons(slash, [Number('y', true)] + [], f, names);
    PrintCons(Number('d', true), [slash] + ([Number('y', true)] + []), f, names);
    PrintCons(slash, [Number('d', true)] + ([slash] + ([Number('y', true)] + [])), f, names);
    PrintCons(Number('m', true), [slash] + ([Number('d', true)] + ([slash] + ([Number('y', true)] + []))), f, names);
  }

  /** For instance the default format of the widget. */
  lemma {:induction false} DefaultFormat(y: int, m: int, d: int, names: Names)
    requires ValidDate(y, m, d) && names.Complete() && 1000 <= y <= 9999
    ensures PrintAll(Pieces("mm/dd/yy", 0, false), FieldsOfDate(MakeDay(y, m, d)), names)
         == TwoDigits(m + 1) + ("/" + (TwoDigits(d) + ("/" + (FourDigits(y) + ""))))
  {
    DefaultPieces();
    SlashDatePrints(FieldsOfDate(MakeDay(y, m, d)), names);
    LettersMean(y, m, d, names, true);
  }

  lemma PrintCons(p: Piece, rest: seq<Piece>, f: DateFields, names: Names)
    requires names.Complete() && f.Valid()
    ensures PrintAll([p] + rest, f, names) == Print(p, f, names) + PrintAll(rest, f, names)
  {
    assert ([p] + rest)[1..] == rest;
  }

  // What reading a date finds.

  /** The longest name that stands there, and of those the first in the table. */
  lemma {:induction false} LongestIs(table: seq<string>, n: nat, value: string, pos: nat)
    requires n <= |table|
    ensures match Longest(table, n, value, pos)
      case None => forall i :: 0 <= i < n ==> !NameAt(table[i], value, pos)
      case Some(k) =>
        && NameAt(table[k], value, pos)
        && forall i :: 0 <= i < n && NameAt(table[i], value, pos) ==>
             |table[i]| < |table[k]| || (|table[i]| == |table[k]| && k <= i)
  {
    if n > 0 { LongestIs(table, n - 1, value, pos); }
  }

  /** Upper and lower case of a letter. */
  predicate SameLetter(a: char, b: char) {
    a == b || ('A' <= a <= 'Z' && b as int == a as int + 32) || ('A' <= b <= 'Z' && a as int == b as int + 32)
  }

  /** Names are read in whatever case they are written, and only so. */
  lemma AnyCase(name: string, value: string, pos: nat)
    ensures NameAt(name, value, pos) <==>
      pos + |name| <= |value| && forall i :: 0 <= i < |name| ==> SameLetter(name[i], value[pos + i])
  {
    assert forall a: char, b: char :: Lower(a) == Lower(b) <==> SameLetter(a, b);
  }

  /** A date has the year, and the day of the year or the month and the day, that were read. */
  predicate HasFields(date: int, s: State, c: Century) {
    && GetFullYear(date) == FullYear(s.year, c)
    && if s.doy > -1 then DayInYear(date) + 1 == s.doy else GetMonth(date) + 1 == s.month && GetDate(date) == s.day
  }

  lemma AcceptedIs(s: State, c: Century, date: int)
    ensures var year := FullYear(s.year, c); Accepted(s, year) && Named(s, year) == date <==> HasFields(date, s, c)
  {
    var year := FullYear(s.year, c);
    NextYear(year);
    FieldsAreValid(date);
    if s.doy > -1 {
      if Accepted(s, year) { YearIsUnique(Named(s, year), year, GetFullYear(Named(s, year))); }
    } else {
      FieldsOfMakeDay(year, s.month - 1, s.day);
    }
  }

  /** The end of the parse: what is left over must begin with a blank, and the result is the one
      date that has the fields read; without such a date there is an error. */
  lemma ConcludesExactly(s: State, value: string, c: Century, date: int)
    requires s.pos <= |value|
    ensures var clean := s.pos == |value| || Blank(value[s.pos]);
      && (Conclude(s, value, c) == Fail(ExtraCharacters) <==> !clean)
      && (Conclude(s, value, c) == Ok(date) <==> clean && HasFields(date, s, c))
      && (Conclude(s, value, c) == Fail(InvalidDate) <==> clean && forall d :: !HasFields(d, s, c))
  {
    AcceptedIs(s, c, date);
    AcceptedIs(s, c, Named(s, FullYear(s.year, c)));
    if d :| HasFields(d, s, c) {
      AcceptedIs(s, c, d);
    }
  }
}
