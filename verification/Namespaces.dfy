/** Event namespaces: the regular expression that jQuery builds from the requested names, and
    what it selects. Names are sorted and joined by dots. */
module Namespaces {

  /** The names joined by dots. */
  function Join(names: seq<string>): string {
    if names == [] then "" else if |names| == 1 then names[0] else names[0] + "." + Join(names[1..])
  }

  predicate Undotted(names: seq<string>) {
    forall i :: 0 <= i < |names| ==> '.' !in names[i]
  }

  predicate StartsWith(s: string, prefix: string) {
    |prefix| <= |s| && s[..|prefix|] == prefix
  }

  /** The expression behind its anchor, matched at the start of `s`: the first name, ended by a dot or
      by the end; and, if more names follow, a dot, anything up to a further dot or nothing, and
      the same for the rest. */
  predicate MatchesRest(names: seq<string>, s: string)
    requires names != []
    decreases |names|
  {
    StartsWith(s, names[0]) &&
    var t := s[|names[0]|..];
    if |names| == 1 then
      t == "" || t[0] == '.'
    else
      t != "" && t[0] == '.' &&
      (MatchesRest(names[1..], t[1..]) || exists j :: 1 <= j < |t| && t[j] == '.' && MatchesRest(names[1..], t[j + 1..]))
  }

  /** The expression, anchored at the start of the string or behind any dot. */
  predicate RegexTest(names: seq<string>, s: string)
    requires names != []
  {
    MatchesRest(names, s) || exists j :: 0 <= j < |s| && s[j] == '.' && MatchesRest(names, s[j + 1..])
  }

  /** `names` occur among `parts` in the same order. */
  predicate Within(names: seq<string>, parts: seq<string>) {
    names == [] || exists k :: 0 <= k < |parts| && parts[k] == names[0] && Within(names[1..], parts[k + 1..])
  }

  // Where the dots of a joined list are.

  /** A dot in the joined names separates two of them. */
  lemma {:induction false} DotSeparates(parts: seq<string>, j: nat) returns (k: nat)
    requires Undotted(parts) && j < |Join(parts)| && Join(parts)[j] == '.'
    ensures 0 < k < |parts| && Join(parts)[j + 1..] == Join(parts[k..])
    ensures j >= |parts[0]|
  {
    var head := parts[0];
    var tail := Join(parts[1..]);
    assert Join(parts) == head + "." + tail;
    if j == |head| {
      k := 1;
    } else {
      var k' := DotSeparates(parts[1..], j - |head| - 1);
      k := k' + 1;
      assert parts[1..][k'..] == parts[k..];
      assert Join(parts)[j + 1..] == tail[j - |head|..];
    }
  }

  lemma {:induction false} SeparatorHasDot(parts: seq<string>, k: nat) returns (j: nat)
    requires 0 < k < |parts|
    ensures |parts[0]| <= j < |Join(parts)| && Join(parts)[j] == '.' && Join(parts)[j + 1..] == Join(parts[k..])
    ensures k == 1 ==> j == |parts[0]|
    ensures k > 1 ==> j > |parts[0]|
  {
    var head, tail := parts[0], Join(parts[1..]);
    assert Join(parts) == head + "." + tail;
    if k == 1 {
      j := |head|;
    } else {
      var j' := SeparatorHasDot(parts[1..], k - 1);
      j := j' + |head| + 1;
      assert parts[1..][k - 1..] == parts[k..];
      assert Join(parts)[j + 1..] == tail[j' + 1..];
    }
  }

  /** A whole name matches at the start of a joined list iff it is its first name. */
  lemma HeadMatches(name: string, parts: seq<string>)
    requires '.' !in name && parts != [] && Undotted(parts)
    ensures var s := Join(parts);
            (StartsWith(s, name) && (|name| == |s| || s[|name|] == '.')) <==> name == parts[0]
  {
    var s := Join(parts);
    assert StartsWith(s, parts[0]);
    assert |name| < |parts[0]| ==> s[|name|] == parts[0][|name|];
    assert |parts| > 1 ==> s[|parts[0]|] == '.';
    assert forall i :: 0 <= i < |name| ==> name[i] != '.';
    assert StartsWith(s, name) ==> forall i :: 0 <= i < |name| ==> s[i] == name[i];
  }

  /** What follows the first name of a joined list. */
  function AfterHead(parts: seq<string>): string
    requires parts != []
  {
    if |parts| == 1 then "" else "." + Join(parts[1..])
  }

  lemma JoinSplits(parts: seq<string>)
    requires parts != []
    ensures Join(parts) == parts[0] + AfterHead(parts)
  {
  }

  /** A later dot leads to a later name, */
  lemma DotLeads(parts: seq<string>, j: nat) returns (k: nat)
    requires parts != [] && Undotted(parts) && j < |AfterHead(parts)| && AfterHead(parts)[j] == '.'
    ensures 0 < k < |parts| && Join(parts[k..]) == AfterHead(parts)[j + 1..]
  {
    JoinSplits(parts);
    k := DotSeparates(parts, |parts[0]| + j);
    assert Join(parts)[|parts[0]| + j + 1..] == AfterHead(parts)[j + 1..];
  }

  /** and every later name is behind one. */
  lemma NameHasDot(parts: seq<string>, k: nat) returns (j: nat)
    requires 0 < k < |parts|
    ensures j < |AfterHead(parts)| && AfterHead(parts)[j] == '.' && Join(parts[k..]) == AfterHead(parts)[j + 1..]
    ensures k > 1 ==> j > 0
  {
    JoinSplits(parts);
    var i := SeparatorHasDot(parts, k);
    j := i - |parts[0]|;
    assert Join(parts)[i + 1..] == AfterHead(parts)[j + 1..];
  }

  /** Behind the first name, what stands between two names leads to the start of any later one. */
  lemma LaterNames(names: seq<string>, parts: seq<string>)
    requires names != [] && parts != [] && Undotted(parts)
    ensures var t := AfterHead(parts);
            (t != "" && t[0] == '.' &&
             (MatchesRest(names, t[1..]) || exists j :: 1 <= j < |t| && t[j] == '.' && MatchesRest(names, t[j + 1..])))
            <==> exists k :: 0 < k < |parts| && MatchesRest(names, Join(parts[k..]))
  {
    var t := AfterHead(parts);
    if t != "" && t[0] == '.' && MatchesRest(names, t[1..]) {
      var k := DotLeads(parts, 0);
    }
    if j :| 1 <= j < |t| && t[j] == '.' && MatchesRest(names, t[j + 1..]) {
      var k := DotLeads(parts, j);
    }
    if k :| 0 < k < |parts| && MatchesRest(names, Join(parts[k..])) {
      var j := NameHasDot(parts, k);
    }
  }

  /** The regular expression, name by name. */
  lemma RestMeans(names: seq<string>, parts: seq<string>)
    requires names != [] && parts != [] && Undotted(names) && Undotted(parts)
    ensures MatchesRest(names, Join(parts)) <==>
      (names[0] == parts[0] && (|names| == 1 || exists k :: 0 < k < |parts| && MatchesRest(names[1..], Join(parts[k..]))))
  {
    JoinSplits(parts);
    HeadMatches(names[0], parts);
    if names[0] == parts[0] {
      assert Join(parts)[|names[0]|..] == AfterHead(parts);
      if |names| > 1 {
        LaterNames(names[1..], parts);
      }
    }
  }

  lemma {:induction false} RestIsWithin(names: seq<string>, parts: seq<string>)
    requires names != [] && parts != [] && Undotted(names) && Undotted(parts)
    ensures MatchesRest(names, Join(parts)) <==> (names[0] == parts[0] && Within(names[1..], parts[1..]))
    decreases |names|
  {
    RestMeans(names, parts);
    if |names| > 1 && names[0] == parts[0] {
      forall k | 0 < k < |parts|
        ensures MatchesRest(names[1..], Join(parts[k..])) <==> (names[1] == parts[k] && Within(names[2..], parts[k + 1..]))
      {
        RestIsWithin(names[1..], parts[k..]);
        assert names[1..][1..] == names[2..] && parts[k..][1..] == parts[k + 1..];
      }
      WithinTail(names, parts);
    }
  }

  lemma WithinTail(names: seq<string>, parts: seq<string>)
    requires |names| > 1 && parts != []
    ensures Within(names[1..], parts[1..]) <==> exists k :: 0 < k < |parts| && names[1] == parts[k] && Within(names[2..], parts[k + 1..])
  {
  }

  /** The regular expression finds exactly the ordered sublists. */
  lemma RegexIsWithin(names: seq<string>, parts: seq<string>)
    requires names != [] && parts != [] && Undotted(names) && Undotted(parts)
    ensures RegexTest(names, Join(parts)) <==> Within(names, parts)
  {
    var s := Join(parts);
    assert parts[0..] == parts;
    forall k | 0 <= k < |parts|
      ensures MatchesRest(names, Join(parts[k..])) <==> (names[0] == parts[k] && Within(names[1..], parts[k + 1..]))
    {
      RestIsWithin(names, parts[k..]);
      assert parts[k..][1..] == parts[k + 1..];
    }
    if j :| 0 <= j < |s| && s[j] == '.' && MatchesRest(names, s[j + 1..]) {
      var k := DotSeparates(parts, j);
    }
    if k :| 0 <= k < |parts| && names[0] == parts[k] && Within(names[1..], parts[k + 1..]) {
      if k > 0 {
        var j := SeparatorHasDot(parts, k);
      }
    }
  }

  // Sorted names.

  /** The order of JavaScript's `sort()`: by UTF-16 code units. */
  predicate Less(a: string, b: string) {
    b != "" && (a == "" || a[0] < b[0] || (a[0] == b[0] && Less(a[1..], b[1..])))
  }

  lemma {:induction false} LessIsStrict(a: string, b: string)
    ensures Less(a, b) ==> a != b && !Less(b, a)
    ensures a != b ==> Less(a, b) || Less(b, a)
  {
    if a != "" && b != "" {
      LessIsStrict(a[1..], b[1..]);
      assert a == [a[0]] + a[1..] && b == [b[0]] + b[1..];
    }
  }

  predicate StrictlySorted(names: seq<string>) {
    forall i, j :: 0 <= i < j < |names| ==> Less(names[i], names[j])
  }

  predicate Includes(parts: seq<string>, names: seq<string>) {
    forall n :: n in names ==> n in parts
  }

  /** For sorted lists, an ordered sublist is just a subset. */
  lemma {:induction false} WithinIsIncludes(names: seq<string>, parts: seq<string>)
    requires StrictlySorted(names) && StrictlySorted(parts)
    ensures Within(names, parts) <==> Includes(parts, names)
    decreases |names|
  {
    if names != [] {
      assert names == [names[0]] + names[1..];
      forall k | 0 <= k < |parts| && parts[k] == names[0]
        ensures Within(names[1..], parts[k + 1..]) <==> Includes(parts, names)
      {
        WithinIsIncludes(names[1..], parts[k + 1..]);
        LaterOnes(names, parts, k);
      }
      assert Includes(parts, names) ==> names[0] in parts;
    }
  }

  /** Names after the first can only be found behind it. */
  lemma LaterOnes(names: seq<string>, parts: seq<string>, k: nat)
    requires StrictlySorted(names) && StrictlySorted(parts) && names != [] && k < |parts| && parts[k] == names[0]
    ensures Includes(parts[k + 1..], names[1..]) <==> Includes(parts, names)
  {
    assert names == [names[0]] + names[1..];
    forall n | n in names[1..] && n in parts
      ensures n in parts[k + 1..]
    {
      var i :| 0 <= i < |names[1..]| && names[1..][i] == n;
      assert names[i + 1] == n;
      var j :| 0 <= j < |parts| && parts[j] == n;
      LessIsStrict(names[0], n);
      if j > k {
        assert parts[k + 1..][j - k - 1] == n;
      }
    }
    forall n | n in parts[k + 1..]
      ensures n in parts
    {
      var j :| 0 <= j < |parts[k + 1..]| && parts[k + 1..][j] == n;
      assert parts[k + 1 + j] == n;
    }
  }

  /** What the regular expression is for: it accepts exactly the handlers that carry all the
      requested names. A handler without namespaces has the one empty name. */
  lemma RegexSelects(names: seq<string>, parts: seq<string>)
    requires names != [] && parts != [] && Undotted(names) && Undotted(parts)
    requires StrictlySorted(names) && StrictlySorted(parts)
    ensures RegexTest(names, Join(parts)) <==> Includes(parts, names)
  {
    RegexIsWithin(names, parts);
    WithinIsIncludes(names, parts);
  }
}
