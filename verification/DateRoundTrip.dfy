/** Reading a printed date gives the date back. */
module DateRoundTrip {
  import opened Wrappers
  import opened Calendar
  import opened Decimal
  import opened DateLanguage

  /** No name begins with another, ignoring case. */
  predicate PrefixFree(table: seq<string>) {
    forall i, j :: 0 <= i < |table| && 0 <= j < |table| && i != j ==> !NameAt(table[i], table[j], 0)
  }

  predicate PrefixFreeNames(names: Names) {
    PrefixFree(names.dayNamesShort) && PrefixFree(names.dayNames) && PrefixFree(names.monthNamesShort) && PrefixFree(names.monthNames)
  }

  /** What the piece prints never begins with a digit. */
  predicate StartsClear(p: Piece, names: Names) {
    match p
    case Literal(c) => !IsDigit(c)
    case Name(kind, long) =>
      forall i :: 0 <= i < |names.Table(kind, long)| ==> names.Table(kind, long)[i] != "" && !IsDigit(names.Table(kind, long)[i][0])
    case _ => false
  }

  /** Numbers printed without padding must be set off from what follows. */
  predicate Delimited(pieces: seq<Piece>, names: Names) {
    forall i :: 0 <= i < |pieces| - 1 && pieces[i].Number? && !pieces[i].doubled && pieces[i].kind != 'y'
      ==> StartsClear(pieces[i + 1], names)
  }

  predicate WellKinded(p: Piece) {
    && (p.Number? ==> p.kind in "domy")
    && (p.Name? ==> p.kind in "DM")
  }

  predicate Mentions(pieces: seq<Piece>, kinds: string) {
    exists i :: 0 <= i < |pieces| && ((pieces[i].Number? && pieces[i].kind in kinds) || (pieces[i].Name? && pieces[i].kind in kinds))
  }

  /** The format determines the date within a year: a day of the year, or a month and a day. */
  predicate Fixes(pieces: seq<Piece>) {
    Mentions(pieces, "o") || (Mentions(pieces, "d") && Mentions(pieces, "mM"))
  }

  predicate ShortYear(pieces: seq<Piece>) {
    exists i :: 0 <= i < |pieces| && pieces[i] == Number('y', false)
  }

  /** Four-digit years are read back as they are; two-digit ones if they fall in the window of a
      century that ends with the cutoff; and a year that is not mentioned if it is the current one. */
  predicate YearReadable(pieces: seq<Piece>, year: int, c: Century) {
    && 1000 <= year <= 9999
    && (ShortYear(pieces) ==> year >= 1900 && FullYear(year % 100, c) == year)
    && (!Mentions(pieces, "y") ==> year == c.thisYear)
  }

  /** Exactly which years a two-digit year can stand for. */
  lemma TwoDigitWindow(year: int, c: Century)
    requires year >= 0 && c.thisYear >= 0
    ensures var base := c.thisYear - c.thisYear % 100;
            FullYear(year % 100, c) == year <==>
              (base <= year < base + 100 && year <= base + c.cutoff) || (base - 100 <= year < base && year > base - 100 + c.cutoff)
  {
  }

  // Numbers.

  function NumberOf(kind: char, doubled: bool, d: DateFields): int {
    match kind
    case 'd' => d.day
    case 'o' => d.doy
    case 'm' => d.month + 1
    case _ => if doubled then d.year else d.year % 100
  }

  ghost predicate Readable(s: string, size: nat, doubled: bool, n: int) {
    AllDigits(s) && 0 < |s| <= size && (doubled ==> |s| == size) && Value(s) == n
  }

  lemma PlainNumber(n: nat, size: nat)
    requires n < (if size == 2 then 100 else if size == 3 then 1000 else 10000) && 2 <= size <= 4
    ensures Readable(Signed(n), size, false, n) && Readable(Padded(Signed(n), size), size, true, n)
  {
    DigitsRead(n);
    DigitsLength(n);
    PaddedRead(Digits(n), size);
  }

  lemma NumberPrinted(kind: char, doubled: bool, d: DateFields)
    requires kind in "domy" && d.Valid() && 1000 <= d.year <= 9999
    requires kind == 'y' && !doubled ==> d.year >= 1900
    ensures Readable(PrintNumber(kind, doubled, d), Size(kind, doubled), doubled || kind == 'y', NumberOf(kind, doubled, d))
  {
    if kind == 'd' {
      PlainNumber(d.day, 2);
    } else if kind == 'm' {
      PlainNumber(d.month + 1, 2);
    } else if kind == 'o' {
      PlainNumber(d.doy, 3);
    } else if doubled {
      PlainNumber(d.year, 4);
      DigitsLength(d.year);
    } else {
      ShortYearPrinted(d.year);
    }
  }

  lemma ShortYearPrinted(year: int)
    requires year >= 1900
    ensures var yy := Remainder(year - 1900, 100);
            yy == year % 100 && Readable((if yy < 10 then "0" else "") + Signed(yy), 2, true, yy)
  {
    var yy := Remainder(year - 1900, 100);
    DigitsRead(yy);
    DigitsLength(yy);
    LeadingZero(Digits(yy));
    assert "" + Digits(yy) == Digits(yy);
  }

  // Names.

  /** Of a prefix-free table, only the name that is there can be found there. */
  lemma OnlyName(table: seq<string>, value: string, pos: nat, k: nat, j: nat)
    requires PrefixFree(table) && k < |table| && j < |table|
    requires NameAt(table[k], value, pos) && NameAt(table[j], value, pos)
    ensures j == k
  {
  }

  lemma {:induction false} NameFound(table: seq<string>, n: nat, value: string, pos: nat, k: nat)
    requires PrefixFree(table) && n <= |table| && k < |table| && NameAt(table[k], value, pos)
    ensures Longest(table, n, value, pos) == if k < n then Some(k) else None
  {
    if n > 0 {
      var j: nat := n - 1;
      NameFound(table, j, value, pos, k);
      if NameAt(table[j], value, pos) {
        OnlyName(table, value, pos, k, j);
      }
    }
  }

  // One piece, then all of them.

  /** The state after reading back what a piece printed. */
  function Took(s: State, p: Piece, d: DateFields, names: Names): State
    requires names.Complete() && d.Valid()
  {
    var t := s.(pos := s.pos + |Print(p, d, names)|);
    match p
    case Number(kind, doubled) => SetNumber(t, kind, NumberOf(kind, doubled, d))
    case Name(kind, _) => if kind == 'M' then t.(month := d.month + 1) else t
    case _ => t
  }

  lemma TookNumber(kind: char, doubled: bool, s: State, d: DateFields, names: Names)
    requires names.Complete() && d.Valid()
    ensures Took(s, Number(kind, doubled), d, names) ==
      AfterNumber(s, kind, NumberOf(kind, doubled, d), |PrintNumber(kind, doubled, d)|)
  {
  }

  lemma {:induction false} ReadNumber(kind: char, doubled: bool, value: string, s: State, names: Names, n: nat)
    requires s.pos <= |value| && n == DigitRun(value, s.pos, Size(kind, doubled))
    ensures Read(Number(kind, doubled), value, s, names) ==
      if n == 0 then Fail(MissingNumber(s.pos)) else Ok(AfterNumber(s, kind, Value(value[s.pos..s.pos + n]), n))
  {
  }

  /** A number is read back iff it fills its field or is followed by something else than a digit. */
  lemma {:induction false} NumberReadBack(kind: char, doubled: bool, value: string, s: State, rest: string, d: DateFields, names: Names)
    requires names.Complete() && d.Valid() && s.pos <= |value| && value[s.pos..] == PrintNumber(kind, doubled, d) + rest
    requires kind in "domy" && d.Valid() && 1000 <= d.year <= 9999 && (kind == 'y' && !doubled ==> d.year >= 1900)
    ensures Read(Number(kind, doubled), value, s, names) == Ok(Took(s, Number(kind, doubled), d, names)) <==>
      (|PrintNumber(kind, doubled, d)| == Size(kind, doubled) || rest == "" || !IsDigit(rest[0]))
    ensures doubled || kind == 'y' ==> |PrintNumber(kind, doubled, d)| == Size(kind, doubled)
  {
    var printed := PrintNumber(kind, doubled, d);
    var n := |printed|;
    NumberPrinted(kind, doubled, d);
    assert value[s.pos..s.pos + n] == value[s.pos..][..n] == printed;
    assert rest != "" ==> value[s.pos + n] == value[s.pos..][n] == rest[0];
    var m := DigitRun(value, s.pos, Size(kind, doubled));
    if n == Size(kind, doubled) || rest == "" || !IsDigit(rest[0]) {
      RunIs(value, s.pos, Size(kind, doubled), n);
    } else {
      assert m != n;
    }
    TookNumber(kind, doubled, s, d, names);
    ReadNumber(kind, doubled, value, s, names, m);
  }

  lemma NameThere(table: seq<string>, k: nat, value: string, pos: nat, rest: string)
    requires PrefixFree(table) && k < |table| && pos <= |value| && value[pos..] == table[k] + rest
    ensures Longest(table, |table|, value, pos) == Some(k)
  {
    forall i | 0 <= i < |table[k]|
      ensures value[pos + i] == table[k][i]
    {
      assert value[pos..][i] == table[k][i];
    }
    NameFound(table, |table|, value, pos, k);
  }

  lemma {:induction false} ReadName(kind: char, long: bool, value: string, s: State, rest: string, names: Names, k: nat)
    requires names.Complete() && PrefixFreeNames(names) && kind in "DM" && k < |names.Table(kind, long)|
    requires s.pos <= |value| && value[s.pos..] == names.Table(kind, long)[k] + rest
    ensures Read(Name(kind, long), value, s, names) ==
      Ok(AfterName(s, kind, k, |names.Table(kind, long)[k]|))
  {
    NameThere(names.Table(kind, long), k, value, s.pos, rest);
  }

  lemma TookName(kind: char, long: bool, s: State, d: DateFields, names: Names)
    requires names.Complete() && d.Valid() && kind in "DM"
    ensures Took(s, Name(kind, long), d, names) ==
      AfterName(s, kind, NameIndex(kind, d), |names.Table(kind, long)[NameIndex(kind, d)]|)
  {
  }

  lemma {:induction false} NameReadBack(kind: char, long: bool, value: string, s: State, rest: string, d: DateFields, names: Names)
    requires names.Complete() && PrefixFreeNames(names) && d.Valid() && kind in "DM"
    requires s.pos <= |value| && value[s.pos..] == names.Table(kind, long)[NameIndex(kind, d)] + rest
    ensures Read(Name(kind, long), value, s, names) == Ok(Took(s, Name(kind, long), d, names))
  {
    TookName(kind, long, s, d, names);
    ReadName(kind, long, value, s, rest, names, NameIndex(kind, d));
  }

  predicate Sound(p: Piece, year: int) {
    WellKinded(p) && !p.Stamp? && (p == Number('y', false) ==> year >= 1900)
  }

  lemma PieceReadBack(p: Piece, value: string, s: State, rest: string, d: DateFields, names: Names)
    requires names.Complete() && PrefixFreeNames(names) && d.Valid() && 1000 <= d.year <= 9999 && Sound(p, d.year)
    requires s.pos <= |value| && value[s.pos..] == Print(p, d, names) + rest
    requires p.Number? && !p.doubled && p.kind != 'y' && rest != "" ==> !IsDigit(rest[0])
    ensures Read(p, value, s, names) == Ok(Took(s, p, d, names))
  {
    match p
    case Number(kind, doubled) => NumberReadBack(kind, doubled, value, s, rest, d, names);
    case Name(kind, long) => NameReadBack(kind, long, value, s, rest, d, names);
    case Literal(c) => assert value[s.pos] == value[s.pos..][0] == c;
    case Stamp(_) =>
  }

  function TookAll(s: State, pieces: seq<Piece>, d: DateFields, names: Names): State
    requires names.Complete() && d.Valid()
    decreases |pieces|
  {
    if pieces == [] then s else TookAll(Took(s, pieces[0], d, names), pieces[1..], d, names)
  }

  lemma FirstReadBack(pieces: seq<Piece>, value: string, s: State, d: DateFields, names: Names)
    requires names.Complete() && PrefixFreeNames(names) && d.Valid() && 1000 <= d.year <= 9999 && pieces != []
    requires Delimited(pieces, names) && forall i :: 0 <= i < |pieces| ==> Sound(pieces[i], d.year)
    requires s.pos <= |value| && value[s.pos..] == PrintAll(pieces, d, names)
    ensures Read(pieces[0], value, s, names) == Ok(Took(s, pieces[0], d, names))
    ensures var t := Took(s, pieces[0], d, names); t.pos <= |value| && value[t.pos..] == PrintAll(pieces[1..], d, names)
  {
    var p, rest := pieces[0], PrintAll(pieces[1..], d, names);
    if |pieces| > 1 && p.Number? && !p.doubled && p.kind != 'y' {
      ClearStart(pieces[1], d, names);
      assert rest[0] == Print(pieces[1], d, names)[0];
    }
    PieceReadBack(p, value, s, rest, d, names);
    assert value[s.pos..][|Print(p, d, names)|..] == rest;
  }

  lemma DelimitedRest(pieces: seq<Piece>, names: Names, year: int)
    requires pieces != [] && Delimited(pieces, names) && forall i :: 0 <= i < |pieces| ==> Sound(pieces[i], year)
    ensures Delimited(pieces[1..], names) && forall i :: 0 <= i < |pieces[1..]| ==> Sound(pieces[1..][i], year)
  {
    assert forall i :: 0 <= i < |pieces[1..]| ==> pieces[1..][i] == pieces[i + 1];
  }

  lemma {:induction false} AllReadBack(pieces: seq<Piece>, value: string, s: State, d: DateFields, names: Names)
    requires names.Complete() && PrefixFreeNames(names) && d.Valid() && 1000 <= d.year <= 9999
    requires Delimited(pieces, names) && forall i :: 0 <= i < |pieces| ==> Sound(pieces[i], d.year)
    requires s.pos <= |value| && value[s.pos..] == PrintAll(pieces, d, names)
    ensures ReadAll(pieces, value, s, names) == Ok(TookAll(s, pieces, d, names))
    ensures TookAll(s, pieces, d, names).pos == |value|
    decreases |pieces|
  {
    if pieces != [] {
      FirstReadBack(pieces, value, s, d, names);
      DelimitedRest(pieces, names, d.year);
      AllReadBack(pieces[1..], value, Took(s, pieces[0], d, names), d, names);
    }
  }

  lemma ClearStart(p: Piece, d: DateFields, names: Names)
    requires names.Complete() && StartsClear(p, names) && WellKinded(p) && d.Valid()
    ensures Print(p, d, names) != "" && !IsDigit(Print(p, d, names)[0])
  {
  }

  /** The fields that the format mentions are those of the d. */
  lemma {:induction false} FieldsTaken(s: State, pieces: seq<Piece>, d: DateFields, names: Names)
    requires names.Complete() && d.Valid() && forall i :: 0 <= i < |pieces| ==> WellKinded(pieces[i])
    ensures var t := TookAll(s, pieces, d, names);
            && t.day == (if Mentions(pieces, "d") then d.day else s.day)
            && t.doy == (if Mentions(pieces, "o") then d.doy else s.doy)
            && t.month == (if Mentions(pieces, "mM") then d.month + 1 else s.month)
            && (if Mentions(pieces, "y")
                then t.year == d.year || (ShortYear(pieces) && t.year == d.year % 100)
                else t.year == s.year)
    decreases |pieces|
  {
    if pieces != [] {
      var p, rest := pieces[0], pieces[1..];
      FieldsTaken(Took(s, p, d, names), rest, d, names);
      MentionsFirst(pieces, "d");
      MentionsFirst(pieces, "o");
      MentionsFirst(pieces, "mM");
      MentionsFirst(pieces, "y");
      assert forall i :: 0 <= i < |rest| ==> rest[i] == pieces[i + 1];
      assert ShortYear(rest) ==> ShortYear(pieces);
    }
  }

  lemma MentionsFirst(pieces: seq<Piece>, kinds: string)
    requires pieces != []
    ensures var p := pieces[0];
            Mentions(pieces, kinds) <==> (p.Number? && p.kind in kinds) || (p.Name? && p.kind in kinds) || Mentions(pieces[1..], kinds)
  {
  }

  lemma {:induction false} PiecesWellKinded(format: string, i: nat, literal: bool)
    ensures forall k :: 0 <= k < |Pieces(format, i, literal)| ==> WellKinded(Pieces(format, i, literal)[k])
    decreases |format| - i
  {
    if i < |format| {
      if format[i] == '\'' {
        if LookAhead(format, i, '\'') { PiecesWellKinded(format, i + 2, literal); } else { PiecesWellKinded(format, i + 1, !literal); }
      } else if literal {
        PiecesWellKinded(format, i + 1, literal);
      } else {
        PiecesWellKinded(format, if Doubled(PieceAt(format, i)) then i + 2 else i + 1, literal);
      }
    }
  }

  lemma Concludes(s: State, pieces: seq<Piece>, value: string, date: int, c: Century)
    requires Fixes(pieces) && YearReadable(pieces, GetFullYear(date), c) && s.pos == |value|
    requires Mentions(pieces, "o") ==> s.doy == DayOfYear(date)
    requires !Mentions(pieces, "o") ==> s.doy == -1 && s.day == GetDate(date) && s.month == GetMonth(date) + 1
    requires YearTaken(s.year, pieces, GetFullYear(date))
    ensures Conclude(s, value, c) == Ok(date)
  {
    var y := GetFullYear(date);
    YearRead(s.year, pieces, y, c);
    if Mentions(pieces, "o") {
      DayOfYearRoundTrip(date);
    } else {
      FieldsAreValid(date);
    }
    assert Conclude(s, value, c) == if Accepted(s, y) then Ok(Named(s, y)) else Fail(InvalidDate);
  }

  predicate YearTaken(read: int, pieces: seq<Piece>, year: int) {
    if Mentions(pieces, "y") then read == year || (ShortYear(pieces) && read == year % 100) else read == -1
  }

  lemma YearRead(read: int, pieces: seq<Piece>, year: int, c: Century)
    requires YearReadable(pieces, year, c) && YearTaken(read, pieces, year)
    ensures FullYear(read, c) == year
  {
  }

  lemma {:induction false} SomethingIsPrinted(pieces: seq<Piece>, d: DateFields, names: Names)
    requires names.Complete() && d.Valid() && Mentions(pieces, "od") && forall i :: 0 <= i < |pieces| ==> WellKinded(pieces[i])
    ensures PrintAll(pieces, d, names) != ""
    decreases |pieces|
  {
    MentionsFirst(pieces, "od");
    if pieces[0].Number? && pieces[0].kind in "od" {
      assert PrintNumber(pieces[0].kind, pieces[0].doubled, d) != "";
    } else {
      assert forall i :: 0 <= i < |pieces[1..]| ==> pieces[1..][i] == pieces[i + 1];
      SomethingIsPrinted(pieces[1..], d, names);
    }
  }

  lemma PiecesRoundTrip(pieces: seq<Piece>, date: int, names: Names, c: Century) returns (s: State)
    requires names.Complete() && PrefixFreeNames(names) && forall i :: 0 <= i < |pieces| ==> WellKinded(pieces[i])
    requires Supported(pieces) && Fixes(pieces) && Delimited(pieces, names) && YearReadable(pieces, GetFullYear(date), c)
    ensures ReadAll(pieces, PrintAll(pieces, FieldsOfDate(date), names), START, names) == Ok(s)
    ensures Conclude(s, PrintAll(pieces, FieldsOfDate(date), names), c) == Ok(date)
    ensures PrintAll(pieces, FieldsOfDate(date), names) != ""
  {
    var d := FieldsOfDate(date);
    var value := PrintAll(pieces, d, names);
    s := TookAll(START, pieces, d, names);
    assert Mentions(pieces, "od");
    SomethingIsPrinted(pieces, d, names);
    AllReadBack(pieces, value, START, d, names);
    FieldsTaken(START, pieces, d, names);
    Concludes(s, pieces, value, date, c);
  }

  /** The date language is reversible: whatever format fixes the date, and is not ambiguous
      where numbers meet, reads back every date it prints. */
  lemma RoundTrip(format: string, date: int, names: Names, c: Century)
    requires names.Complete() && PrefixFreeNames(names) && c.thisYear >= 200
    requires var pieces := Pieces(format, 0, false);
             Supported(pieces) && Fixes(pieces) && Delimited(pieces, names) && YearReadable(pieces, GetFullYear(date), c)
    ensures Parse(format, PrintAll(Pieces(format, 0, false), FieldsOfDate(date), names), names, c) == Ok(Some(date))
  {
    PiecesWellKinded(format, 0, false);
    var s := PiecesRoundTrip(Pieces(format, 0, false), date, names, c);
  }
}
