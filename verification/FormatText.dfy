/** The texts of date formats: how a series of pieces is written, and that it is read as just that. */
module FormatText {
  import opened DateLanguage

  /** Written with one character, unless it is doubled. */
  function KindOf(p: Piece): char
    requires !p.Literal?
  {
    match p
    case Number(kind, _) => kind
    case Name(kind, _) => kind
    case Stamp(kind) => kind
  }

  /** The pieces that can be doubled have letters of their own, and so have the timestamps. */
  predicate Known(p: Piece) {
    match p
    case Number(kind, _) => kind in "domy"
    case Name(kind, _) => kind in "DM"
    case Stamp(kind) => kind in "@!"
    case Literal(_) => true
  }

  predicate Twice(p: Piece) {
    (p.Number? && p.doubled) || (p.Name? && p.long)
  }

  /** A single letter and the same letter again would be taken for the doubled one. */
  predicate Merges(p: Piece, q: Piece) {
    !p.Literal? && !p.Stamp? && !Twice(p) && !q.Literal? && KindOf(q) == KindOf(p)
  }

  predicate Writable(ps: seq<Piece>) {
    && (forall i :: 0 <= i < |ps| ==> Known(ps[i]))
    && (forall i :: 0 < i < |ps| ==> !Merges(ps[i - 1], ps[i]))
  }

  /** A letter stands for a number or a name, single or doubled; other characters stand for
      themselves, letters only inside quotes and a quote as two quotes. `quoted` says that a
      quotation is open. */
  function Written(ps: seq<Piece>, quoted: bool): string
    requires forall i :: 0 <= i < |ps| ==> Known(ps[i])
  {
    if ps == [] then (if quoted then "'" else "") else
      var rest := ps[1..];
      match ps[0]
      case Literal(c) =>
        if c == '\'' then "''" + Written(rest, quoted)
        else if quoted then [c] + Written(rest, true)
        else if c in "domyDM@!" then "'" + [c] + Written(rest, true)
        else [c] + Written(rest, false)
      case p =>
        (if quoted then "'" else "") + (if Twice(p) then [KindOf(p), KindOf(p)] else [KindOf(p)]) + Written(rest, false)
  }

  // The scan from the front of a text.

  lemma {:induction false} PiecesOfRest(format: string, i: nat, literal: bool)
    requires i <= |format|
    ensures Pieces(format, i, literal) == Pieces(format[i..], 0, literal)
    decreases |format| - i
  {
    if i < |format| {
      var rest := format[i..];
      assert rest[0] == format[i] && (|rest| > 1 ==> rest[1] == format[i + 1]);
      PiecesOfRest(format, i + 1, literal);
      PiecesOfRest(format, i + 1, !literal);
      assert rest[1..] == format[i + 1..];
      if |rest| > 1 {
        PiecesOfRest(format, i + 2, literal);
        assert rest[2..] == format[i + 2..];
        PiecesOfRest(rest, 2, literal);
      }
      PiecesOfRest(rest, 1, literal);
      PiecesOfRest(rest, 1, !literal);
    }
  }

  lemma Front(s: string, rest: string, literal: bool)
    ensures Pieces(s + rest, |s|, literal) == Pieces(rest, 0, literal)
  {
    PiecesOfRest(s + rest, |s|, literal);
    assert (s + rest)[|s|..] == rest;
  }

  function Single(k: char): Piece
    requires k in "domyDM"
  {
    if k in "domy" then Number(k, false) else Name(k, false)
  }

  function Double(k: char): Piece
    requires k in "domyDM"
  {
    if k in "domy" then Number(k, true) else Name(k, true)
  }

  /** A doubled letter is one piece, */
  lemma DoubleLetter(k: char, rest: string)
    requires k in "domyDM"
    ensures Pieces([k, k] + rest, 0, false) == [Double(k)] + Pieces(rest, 0, false)
  {
    Front([k, k], rest, false);
  }

  /** and so is a single one, where it does not come again. */
  lemma SingleLetter(k: char, rest: string)
    requires k in "domyDM" && (rest == "" || rest[0] != k)
    ensures Pieces([k] + rest, 0, false) == [Single(k)] + Pieces(rest, 0, false)
  {
    Front([k], rest, false);
  }

  lemma StampLetter(k: char, rest: string)
    requires k in "@!"
    ensures Pieces([k] + rest, 0, false) == [Stamp(k)] + Pieces(rest, 0, false)
  {
    Front([k], rest, false);
  }

  /** Two quotes are a quote, inside and outside of a quotation. */
  lemma TwoQuotes(rest: string, quoted: bool)
    ensures Pieces("''" + rest, 0, quoted) == [Literal('\'')] + Pieces(rest, 0, quoted)
  {
    Front("''", rest, quoted);
  }

  /** One quote opens or closes a quotation. */
  lemma OneQuote(rest: string, quoted: bool)
    requires rest == "" || rest[0] != '\''
    ensures Pieces("'" + rest, 0, quoted) == Pieces(rest, 0, !quoted)
  {
    Front("'", rest, !quoted);
  }

  /** Inside of one, letters stand for themselves; other characters always do. */
  lemma Itself(c: char, rest: string, quoted: bool)
    requires c != '\'' && (quoted || c !in "domyDM@!")
    ensures Pieces([c] + rest, 0, quoted) == [Literal(c)] + Pieces(rest, 0, quoted)
  {
    Front([c], rest, quoted);
  }

  lemma NextIsOther(p: Piece, rest: seq<Piece>)
    requires Writable([p] + rest) && !p.Literal? && !p.Stamp? && !Twice(p)
    ensures Writable(rest) && (Written(rest, false) == "" || Written(rest, false)[0] != KindOf(p))
  {
    WritableRest(p, rest);
    if rest != [] {
      assert !Merges(([p] + rest)[0], ([p] + rest)[1]);
    }
  }

  lemma WritableRest(p: Piece, rest: seq<Piece>)
    requires Writable([p] + rest)
    ensures Known(p) && Writable(rest)
  {
    var ps := [p] + rest;
    assert ps[0] == p && forall i :: 0 <= i < |rest| ==> rest[i] == ps[i + 1];
    forall i | 0 < i < |rest|
      ensures !Merges(rest[i - 1], rest[i])
    {
      assert !Merges(ps[i], ps[i + 1]);
    }
  }

  lemma ReadLiteral(c: char, rest: seq<Piece>, quoted: bool)
    requires Writable(rest)
    requires forall q :: Pieces(Written(rest, q), 0, q) == rest
    requires Writable([Literal(c)] + rest)
    ensures Pieces(Written([Literal(c)] + rest, quoted), 0, quoted) == [Literal(c)] + rest
  {
    var ps := [Literal(c)] + rest;
    assert ps[1..] == rest;
    if c == '\'' {
      TwoQuotes(Written(rest, quoted), quoted);
    } else if quoted || c !in "domyDM@!" {
      Itself(c, Written(rest, quoted), quoted);
    } else {
      var text := [c] + Written(rest, true);
      Itself(c, Written(rest, true), true);
      OneQuote(text, false);
      assert Written(ps, false) == "'" + text by { assert "'" + [c] + Written(rest, true) == "'" + text; }
    }
  }

  lemma ReadLetters(p: Piece, rest: seq<Piece>, quoted: bool)
    requires Writable([p] + rest) && Writable(rest) && !p.Literal? && Pieces(Written(rest, false), 0, false) == rest
    ensures Pieces(Written([p] + rest, quoted), 0, quoted) == [p] + rest
  {
    var ps, tail := [p] + rest, Written(rest, false);
    assert ps[0] == p && ps[1..] == rest;
    var k := KindOf(p);
    var text := (if Twice(p) then [k, k] else [k]) + tail;
    if p.Stamp? {
      StampLetter(k, tail);
    } else if Twice(p) {
      DoubleLetter(k, tail);
    } else {
      NextIsOther(p, rest);
      SingleLetter(k, tail);
    }
    assert Pieces(text, 0, false) == ps;
    if quoted {
      OneQuote(text, true);
      assert Written(ps, true) == "'" + text;
    } else {
      assert Written(ps, false) == text;
    }
  }

  /** The text of a series of pieces is read as that series. */
  lemma {:induction false} ReadWritten(ps: seq<Piece>, quoted: bool)
    requires Writable(ps)
    ensures Pieces(Written(ps, quoted), 0, quoted) == ps
  {
    if ps == [] {
      if quoted { OneQuote("", true); assert "'" + "" == "'"; }
    } else {
      var p, rest := ps[0], ps[1..];
      assert ps == [p] + rest;
      WritableRest(p, rest);
      ReadWritten(rest, true);
      ReadWritten(rest, false);
      if p.Literal? {
        ReadLiteral(p.c, rest, quoted);
      } else {
        ReadLetters(p, rest, quoted);
      }
    }
  }

  lemma HeadPiece(format: string, i: nat)
    requires Pieces(format, i, false) != []
    ensures i < |format|
    ensures var p := Pieces(format, i, false)[0]; p.Literal? || KindOf(p) == format[i]
  {
    if format[i] == '\'' && !LookAhead(format, i, '\'') {
      assert Pieces(format, i, false) == Pieces(format, i + 1, true);
      assert i + 1 < |format| ==> format[i + 1] != '\'';
    }
  }

  lemma OneMore(p: Piece, rest: seq<Piece>)
    requires Known(p) && Writable(rest) && (rest != [] ==> !Merges(p, rest[0]))
    ensures Writable([p] + rest)
  {
    var ps := [p] + rest;
    forall i | 0 < i < |ps|
      ensures Known(ps[i]) && !Merges(ps[i - 1], ps[i])
    {
      assert ps[i] == rest[i - 1] && (i > 1 ==> ps[i - 1] == rest[i - 2] && !Merges(rest[i - 2], rest[i - 1]));
    }
  }

  /** What a format is read as can always be written: there is a text for just these series. */
  lemma {:induction false} PiecesWritable(format: string, i: nat, literal: bool)
    ensures Writable(Pieces(format, i, literal))
    decreases |format| - i
  {
    if i < |format| {
      if format[i] == '\'' {
        if LookAhead(format, i, '\'') {
          PiecesWritable(format, i + 2, literal);
          OneMore(Literal('\''), Pieces(format, i + 2, literal));
        } else {
          PiecesWritable(format, i + 1, !literal);
        }
      } else if literal {
        PiecesWritable(format, i + 1, literal);
        OneMore(Literal(format[i]), Pieces(format, i + 1, literal));
      } else {
        var p := PieceAt(format, i);
        var next := if Doubled(p) then i + 2 else i + 1;
        var rest := Pieces(format, next, false);
        PiecesWritable(format, next, false);
        if rest != [] { HeadPiece(format, next); }
        OneMore(p, rest);
      }
    }
  }

  /** Exactly the writable series are what some format is read as. */
  lemma WritableIsRead(ps: seq<Piece>)
    ensures Writable(ps) <==> exists format :: Pieces(format, 0, false) == ps
  {
    if Writable(ps) {
      ReadWritten(ps, false);
    }
    if format :| Pieces(format, 0, false) == ps {
      PiecesWritable(format, 0, false);
    }
  }
}
