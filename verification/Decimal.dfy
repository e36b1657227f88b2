/** Decimal numerals, as JavaScript prints and parses them. */
module Decimal {

  predicate IsDigit(c: char) {
    '0' <= c <= '9'
  }

  function Digit(n: int): char
    requires 0 <= n < 10
  {
    "0123456789"[n]
  }

  function DigitValue(c: char): int {
    c as int - '0' as int
  }

  /** The shortest numeral of a number. */
  function Digits(n: nat): (s: string)
    ensures s != ""
  {
    if n < 10 then [Digit(n)] else Digits(n / 10) + [Digit(n % 10)]
  }

  /** What a string of digits is read as. */
  function Value(s: string): (n: int)
    ensures AllDigits(s) ==> n >= 0
  {
    if s == "" then 0 else 10 * Value(s[..|s| - 1]) + DigitValue(s[|s| - 1])
  }

  predicate AllDigits(s: string) {
    forall i :: 0 <= i < |s| ==> IsDigit(s[i])
  }

  lemma {:induction false} DigitsRead(n: nat)
    ensures AllDigits(Digits(n)) && Value(Digits(n)) == n
  {
    if n >= 10 {
      DigitsRead(n / 10);
      assert Digits(n)[..|Digits(n)| - 1] == Digits(n / 10);
    } else {
      assert Digits(n)[..0] == "";
    }
  }

  lemma DigitsLength(n: nat)
    requires n < 10000
    ensures |Digits(n)| == if n < 10 then 1 else if n < 100 then 2 else if n < 1000 then 3 else 4
  {
  }

  function Power(n: nat): int {
    if n == 0 then 1 else 10 * Power(n - 1)
  }

  lemma Tens(x: int, p: int)
    ensures 10 * (x * p) == x * (10 * p)
  {
  }

  /** The value of a numeral: each digit counts ten times the one behind it. */
  lemma {:induction false} Positions(a: string, b: string)
    ensures Value(a + b) == Value(a) * Power(|b|) + Value(b)
    ensures forall c :: IsDigit(c) ==> 0 <= Value([c]) == c as int - '0' as int < 10
  {
    assert forall c: char :: [c][..0] == "";
    if b == "" {
      assert a + b == a;
    } else {
      var k := |b| - 1;
      assert (a + b)[..|a + b| - 1] == a + b[..k];
      Positions(a, b[..k]);
      Tens(Value(a), Power(k));
    }
  }

  lemma {:induction false} LeadingZero(s: string)
    ensures Value("0" + s) == Value(s)
  {
    if s == "" {
      assert "0"[..0] == "";
    } else {
      var k := |s| - 1;
      assert ("0" + s)[..|s|] == "0" + s[..k];
      LeadingZero(s[..k]);
    }
  }

  /** Filled up with leading zeros. */
  function Padded(s: string, len: nat): (r: string)
    ensures |r| == if |s| < len then len else |s|
    decreases len - |s|
  {
    if |s| < len then Padded("0" + s, len) else s
  }

  lemma {:induction false} PaddedRead(s: string, len: nat)
    requires AllDigits(s)
    ensures AllDigits(Padded(s, len)) && Value(Padded(s, len)) == Value(s)
    decreases len - |s|
  {
    if |s| < len {
      LeadingZero(s);
      PaddedRead("0" + s, len);
    }
  }

  /** How many digits are read at a position: as many as there are, up to `size`. */
  function DigitRun(s: string, pos: nat, size: nat): (n: nat)
    requires pos <= |s|
    ensures pos + n <= |s| && n <= size && AllDigits(s[pos..pos + n])
    ensures n < size ==> pos + n == |s| || !IsDigit(s[pos + n])
    decreases size
  {
    if size == 0 || pos == |s| || !IsDigit(s[pos]) then 0
    else
      var m := DigitRun(s, pos + 1, size - 1);
      assert s[pos..pos + 1 + m] == [s[pos]] + s[pos + 1..pos + 1 + m];
      1 + m
  }

  /** A run that ends before a non-digit, at the end, or at its full size is taken whole. */
  lemma {:induction false} RunIs(s: string, pos: nat, size: nat, n: nat)
    requires pos + n <= |s| && n <= size && AllDigits(s[pos..pos + n])
    requires n == size || pos + n == |s| || !IsDigit(s[pos + n])
    ensures DigitRun(s, pos, size) == n
    decreases n
  {
    if n > 0 {
      assert s[pos] == s[pos..pos + n][0];
      assert s[pos + 1..pos + n] == s[pos..pos + n][1..];
      RunIs(s, pos + 1, size - 1, n - 1);
    }
  }
}
