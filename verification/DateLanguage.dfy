/** The datepicker's date formats: printing a date, and reading it back. */
module DateLanguage {
  import opened Wrappers
  import opened Calendar
  import opened Decimal

  /** What one step of the format loops deals with: a number or a name in its single or doubled
      form, or a literal character. `Stamp` stands for the timestamps "@" and "!". */
  datatype Piece = Number(kind: char, doubled: bool) | Name(kind: char, long: bool) | Literal(c: char) | Stamp(kind: char)

  /** The names in `settings`. */
  datatype Names = Names(dayNamesShort: seq<string>, dayNames: seq<string>, monthNamesShort: seq<string>, monthNames: seq<string>) {
    predicate Complete() {
      |dayNamesShort| == |dayNames| == 7 && |monthNamesShort| == |monthNames| == 12
    }

    function Table(kind: char, long: bool): seq<string> {
      if kind == 'D' then (if long then dayNames else dayNamesShort) else (if long then monthNames else monthNamesShort)
    }
  }

  /** Whether the character after `i` doubles the one at `i`. */
  predicate LookAhead(format: string, i: nat, match_: char) {
    i + 1 < |format| && format[i + 1] == match_
  }

  /** The piece at `i` outside a quotation, if there is one. */
  function PieceAt(format: string, i: nat): Piece
    requires i < |format|
  {
    var c := format[i];
    if c in "domy" then Number(c, LookAhead(format, i, c))
    else if c in "DM" then Name(c, LookAhead(format, i, c))
    else if c in "@!" then Stamp(c)
    else Literal(c)
  }

  /** The pieces that both loops go through from `i` on; `literal` is their flag. */
  function Pieces(format: string, i: nat, literal: bool): seq<Piece>
    decreases |format| - i
  {
    if i >= |format| then [] else
    if format[i] == '\'' then
      if LookAhead(format, i, '\'') then [Literal('\'')] + Pieces(format, i + 2, literal)
      else Pieces(format, i + 1, !literal)
    else if literal then
      [Literal(format[i])] + Pieces(format, i + 1, literal)
    else
      var p := PieceAt(format, i);
      [p] + Pieces(format, if Doubled(p) then i + 2 else i + 1, literal)
  }

  predicate Doubled(p: Piece) {
    (p.Number? && p.doubled) || (p.Name? && p.long)
  }

  predicate Supported(pieces: seq<Piece>) {
    forall i :: 0 <= i < |pieces| ==> !pieces[i].Stamp?
  }

  // Printing.

  /** JavaScript's remainder, which takes the sign of the dividend. */
  function Remainder(a: int, b: int): int
    requires b > 0
  {
    if a >= 0 then a % b else -(-a % b)
  }

  function Signed(n: int): string {
    if n < 0 then "-" + Digits(-n) else Digits(n)
  }

  /** What the methods of a Date say about it. */
  datatype DateFields = DateFields(year: int, month: int, day: int, doy: int, weekday: int) {
    predicate Valid() {
      0 <= month < 12 && 1 <= day <= 31 && 1 <= doy <= 366 && 0 <= weekday < 7
    }
  }

  function FieldsOfDate(date: int): (d: DateFields)
    ensures d.Valid()
  {
    FieldsInRange(date);
    DayOfYearInRange(date);
    DateFields(GetFullYear(date), GetMonth(date), GetDate(date), DayOfYear(date), GetDay(date))
  }

  function PrintNumber(kind: char, doubled: bool, d: DateFields): string {
    match kind
    case 'd' => if doubled then Padded(Signed(d.day), 2) else Signed(d.day)
    case 'o' => if doubled then Padded(Signed(d.doy), 3) else Signed(d.doy)
    case 'm' => if doubled then Padded(Signed(d.month + 1), 2) else Signed(d.month + 1)
    case _ =>
      if doubled then Signed(d.year) else
        var yy := Remainder(d.year - 1900, 100);
        (if yy < 10 then "0" else "") + Signed(yy)
  }

  function NameIndex(kind: char, d: DateFields): int {
    if kind == 'D' then d.weekday else d.month
  }

  function Print(p: Piece, d: DateFields, names: Names): string
    requires names.Complete() && d.Valid()
  {
    match p
    case Number(kind, doubled) => PrintNumber(kind, doubled, d)
    case Name(kind, long) => names.Table(kind, long)[NameIndex(kind, d)]
    case Literal(c) => [c]
    case Stamp(_) => ""
  }

  function PrintAll(pieces: seq<Piece>, d: DateFields, names: Names): string
    requires names.Complete() && d.Valid()
  {
    if pieces == [] then "" else Print(pieces[0], d, names) + PrintAll(pieces[1..], d, names)
  }

  // Reading.

  datatype Problem = MissingNumber(pos: nat) | UnknownName(pos: nat) | UnexpectedLiteral(pos: nat) | ExtraCharacters | InvalidDate

  datatype Result<+T> = Ok(value: T) | Fail(problem: Problem)

  /** `iValue` and the fields read so far, -1 where there is none. */
  datatype State = State(pos: nat, year: int, month: int, day: int, doy: int)

  const START := State(0, -1, -1, -1, -1)

  function Size(kind: char, doubled: bool): nat {
    if kind == 'y' && doubled then 4 else if kind == 'o' then 3 else 2
  }

  function Lower(c: char): char {
    if 'A' <= c <= 'Z' then (c as int + 32) as char else c
  }

  /** The name stands in the value at `pos`, in whatever case. */
  predicate NameAt(name: string, value: string, pos: nat) {
    pos + |name| <= |value| && forall i :: 0 <= i < |name| ==> Lower(name[i]) == Lower(value[pos + i])
  }

  /** The longest of the first `n` names that stands at `pos` (names are tried longest first). */
  function Longest(table: seq<string>, n: nat, value: string, pos: nat): (r: Option<nat>)
    requires n <= |table|
    ensures r.Some? ==> r.value < n && NameAt(table[r.value], value, pos)
  {
    if n == 0 then None else
      var b := Longest(table, n - 1, value, pos);
      if NameAt(table[n - 1], value, pos) && (b.None? || |table[b.value]| < |table[n - 1]|) then Some(n - 1) else b
  }

  function SetNumber(s: State, kind: char, n: int): State {
    match kind
    case 'd' => s.(day := n)
    case 'o' => s.(doy := n)
    case 'm' => s.(month := n)
    case _ => s.(year := n)
  }

  /** The number `v`, of `n` digits, has been read. */
  function AfterNumber(s: State, kind: char, v: int, n: nat): (t: State)
    ensures t.pos == s.pos + n
  {
    SetNumber(s, kind, v).(pos := s.pos + n)
  }

  /** Name number `k`, of `n` characters, has been read. */
  function AfterName(s: State, kind: char, k: nat, n: nat): State {
    (if kind == 'M' then s.(month := k + 1) else s).(pos := s.pos + n)
  }

  function Read(p: Piece, value: string, s: State, names: Names): (r: Result<State>)
    requires s.pos <= |value|
    ensures r.Ok? ==> r.value.pos <= |value| && (s.year >= -1 ==> r.value.year >= -1)
  {
    match p
    case Number(kind, doubled) =>
      var n := DigitRun(value, s.pos, Size(kind, doubled));
      if n == 0 then Fail(MissingNumber(s.pos))
      else Ok(AfterNumber(s, kind, Value(value[s.pos..s.pos + n]), n))
    case Name(kind, long) =>
      var table := names.Table(kind, long);
      var b := Longest(table, |table|, value, s.pos);
      if b.None? then Fail(UnknownName(s.pos))
      else Ok(AfterName(s, kind, b.value, |table[b.value]|))
    case Literal(c) =>
      if s.pos < |value| && value[s.pos] == c then Ok(s.(pos := s.pos + 1)) else Fail(UnexpectedLiteral(s.pos))
    case Stamp(_) => Fail(UnexpectedLiteral(s.pos))
  }

  function ReadAll(pieces: seq<Piece>, value: string, s: State, names: Names): (r: Result<State>)
    requires s.pos <= |value|
    ensures r.Ok? ==> r.value.pos <= |value|
  {
    if pieces == [] then Ok(s) else
      var r := Read(pieces[0], value, s, names);
      if r.Fail? then r else ReadAll(pieces[1..], value, r.value, names)
  }

  predicate Blank(c: char) {
    c in " \t\n\r"
  }

  /** The clock and the setting that decide the century. */
  datatype Century = Century(thisYear: int, cutoff: int)

  /** A missing year is the current one; one below 100 is put into a century. */
  function FullYear(year: int, c: Century): int {
    if year == -1 then c.thisYear
    else if year < 100 then year + c.thisYear - Remainder(c.thisYear, 100) + (if year <= c.cutoff then 0 else -100)
    else year
  }

  /** The fields read name a day; a day of the year overrides month and day. */
  predicate Accepted(s: State, year: int) {
    if s.doy > -1 then 1 <= s.doy <= DaysInYear(year) else ValidDate(year, s.month - 1, s.day)
  }

  function Named(s: State, year: int): int {
    if s.doy > -1 then DayFromYear(year) + s.doy - 1 else MakeDay(year, s.month - 1, s.day)
  }

  /** What follows the loop: no leftovers, the century, the day of the year, and the check that
      the date exists. */
  function Conclude(s: State, value: string, c: Century): Result<int>
    requires s.pos <= |value|
  {
    if s.pos < |value| && !Blank(value[s.pos]) then Fail(ExtraCharacters) else
      var year := FullYear(s.year, c);
      if Accepted(s, year) then Ok(Named(s, year)) else Fail(InvalidDate)
  }

  /** `parseDate`: an empty value stands for no date. */
  function Parse(format: string, value: string, names: Names, c: Century): Result<Option<int>> {
    if value == "" then Ok(None) else
      var r := ReadAll(Pieces(format, 0, false), value, START, names);
      if r.Fail? then Fail(r.problem) else
        var d := Conclude(r.value, value, c);
        if d.Fail? then Fail(d.problem) else Ok(Some(d.value))
  }

  // The loops of the source.

  /** One round of the loop of `formatDate`, at a format character: the text to add, and how the scan
      goes on. Numbers and names take a doubled character with them. */
  method PrintNext(format: string, iFormat: nat, literal: bool, d: DateFields, names: Names)
    returns (text: string, next: nat, stillLiteral: bool)
    requires names.Complete() && d.Valid() && iFormat < |format|
    ensures iFormat < next <= |format| + 1
    ensures PrintAll(Pieces(format, iFormat, literal), d, names) == text + PrintAll(Pieces(format, next, stillLiteral), d, names)
  {
    text, next, stillLiteral := "", iFormat + 1, literal;
    var c := format[iFormat];
    ghost var rest := Pieces(format, iFormat, literal);
    if c == '\'' && !LookAhead(format, iFormat, '\'') {
      stillLiteral := !literal;
    } else if c == '\'' {
      text, next := "'", iFormat + 2;
    } else if literal {
      text := [c];
    } else {
      var p := PieceAt(format, iFormat);
      text := Print(p, d, names);
      if Doubled(p) {
        next := iFormat + 2;
      }
    }
  }

  lemma Glue(a: string, b: string, c: string)
    ensures a + (b + c) == a + b + c
  {
  }

  /** `formatDate`, with the loop variables `iFormat` and `literal`. */
  method FormatDate(format: string, date: int, names: Names) returns (output: string)
    requires names.Complete() && Supported(Pieces(format, 0, false))
    ensures output == PrintAll(Pieces(format, 0, false), FieldsOfDate(date), names)
  {
    output := "";
    var literal := false;
    var iFormat := 0;
    var d := FieldsOfDate(date);
    ghost var goal := PrintAll(Pieces(format, 0, false), d, names);
    while iFormat < |format|
      invariant iFormat <= |format| + 1
      invariant goal == output + PrintAll(Pieces(format, iFormat, literal), d, names)
    {
      var text;
      text, iFormat, literal := PrintNext(format, iFormat, literal, d, names);
      Glue(output, text, PrintAll(Pieces(format, iFormat, literal), d, names));
      output := output + text;
    }
  }

  /** One round of the loop of `parseDate`: what is read, and how the scan goes on. */
  method ReadNext(format: string, iFormat: nat, literal: bool, value: string, s: State, names: Names)
    returns (step: Result<State>, next: nat, stillLiteral: bool)
    requires iFormat < |format| && s.pos <= |value| && s.year >= -1
    ensures iFormat < next <= |format| + 1
    ensures step.Ok? ==> step.value.pos <= |value| && step.value.year >= -1
    ensures ReadAll(Pieces(format, iFormat, literal), value, s, names) ==
      if step.Fail? then step else ReadAll(Pieces(format, next, stillLiteral), value, step.value, names)
  {
    step, next, stillLiteral := Ok(s), iFormat + 1, literal;
    var c := format[iFormat];
    if c == '\'' && !LookAhead(format, iFormat, '\'') {
      stillLiteral := !literal;
    } else if c == '\'' {
      next := iFormat + 2;
      step := Read(Literal(c), value, s, names);
    } else if literal {
      step := Read(Literal(c), value, s, names);
    } else {
      var p := PieceAt(format, iFormat);
      step := Read(p, value, s, names);
      if Doubled(p) {
        next := iFormat + 2;
      }
    }
  }

  /** `parseDate`, with the loop variables `iFormat`, `iValue` (in `s`) and `literal`. */
  method ParseDate(format: string, value: string, names: Names, c: Century) returns (r: Result<Option<int>>)
    requires names.Complete() && c.thisYear >= 200 && Supported(Pieces(format, 0, false))
    ensures r == Parse(format, value, names, c)
  {
    if value == "" {
      return Ok(None);
    }
    var s := START;
    var literal := false;
    var iFormat := 0;
    ghost var goal := ReadAll(Pieces(format, 0, false), value, START, names);
    while iFormat < |format|
      invariant iFormat <= |format| + 1 && s.pos <= |value| && s.year >= -1
      invariant goal == ReadAll(Pieces(format, iFormat, literal), value, s, names)
    {
      var step;
      step, iFormat, literal := ReadNext(format, iFormat, literal, value, s, names);
      if step.Fail? {
        return Fail(step.problem);
      }
      s := step.value;
    }
    var d := Finish(s, value, c);
    r := if d.Fail? then Fail(d.problem) else Ok(Some(d.value));
  }

  lemma LongYear(year: int, c: Century)
    requires year >= -1 && c.thisYear >= 200
    ensures FullYear(year, c) >= 100
  {
  }

  /** The month and the day that were read, or those of the day of the year that was. */
  method MonthAndDay(s: State, year: int) returns (month: int, day: int)
    requires year >= 100
    ensures Consistent(year, month, day) <==> Accepted(s, year)
    ensures Accepted(s, year) ==> NewDate(year, month - 1, day) == Named(s, year)
  {
    if s.doy > -1 {
      month, day := SplitDayOfYear(year, s.doy);
    } else {
      month, day := s.month, s.day;
      ConsistentIsValid(year, month, day);
    }
  }

  /** The code after the loop. */
  method Finish(s: State, value: string, c: Century) returns (r: Result<int>)
    requires s.pos <= |value| && s.year >= -1 && c.thisYear >= 200
    ensures r == Conclude(s, value, c)
  {
    if s.pos < |value| && !Blank(value[s.pos]) {
      return Fail(ExtraCharacters);
    }
    var year := FullYear(s.year, c);
    LongYear(s.year, c);
    var month, day := MonthAndDay(s, year);
    r := if Consistent(year, month, day) then Ok(NewDate(year, month - 1, day)) else Fail(InvalidDate);
  }
}
