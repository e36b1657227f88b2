/** Sizzle's set matchers (compiled from positional pseudos such as :first or :gt(n)), applied
    to a seed: matched elements move from `seed[i]` to `results[i]`. */
module SetMatchers {
  import opened Wrappers

  type Elem = nat
  type Items = seq<Option<Elem>>

  datatype Position = First | Last | Eq(n: int) | Even | Odd | Lt(n: int) | Gt(n: int)

  /** `Plain(f)` is the set matcher made of a filter alone; `Positional` is what a positional pseudo compiles to, with
      the filters before it (`pre`) and after it (`post`, itself a set matcher). Filters are
      known by the pure test they perform. */
  datatype SetMatcher = Plain(f: nat) | Positional(pre: Option<nat>, pos: Position, post: Option<SetMatcher>)

  type Test = (nat, Elem) -> bool

  // The specification.

  /** Index `j` of a list of length `length` is one that the pseudo selects. */
  predicate AtPosition(pos: Position, j: nat, length: nat) {
    match pos
    case First => j == 0
    case Last => j == length - 1
    case Eq(n) => j == if n < 0 then n + length else n
    case Even => j % 2 == 0
    case Odd => j % 2 == 1
    case Lt(n) => j < if n < 0 then n + length else n
    case Gt(n) => j > if n < 0 then n + length else n
  }

  function Count(flags: seq<bool>): nat {
    if flags == [] then 0 else Count(flags[..|flags| - 1]) + if flags[|flags| - 1] then 1 else 0
  }

  /** The flagged items, closed up. */
  function Kept<T>(s: seq<T>, flags: seq<bool>): seq<T>
    requires |flags| == |s|
  {
    if s == [] then [] else
      var k := |s| - 1;
      if flags[k] then Kept(s[..k], flags[..k]) + [s[k]] else Kept(s[..k], flags[..k])
  }

  function Present(s: Items): seq<bool> {
    seq(|s|, i requires 0 <= i < |s| => s[i].Some?)
  }

  /** The items that pass the filter, if there is one. */
  function Passing(test: Test, pre: Option<nat>, s: Items): seq<bool> {
    seq(|s|, i requires 0 <= i < |s| => s[i].Some? && (pre.Some? ==> test(pre.value, s[i].value)))
  }

  /** Items that pass the filter in front and stand at the right place: among the survivors of
      that filter or, when there is none, in the seed as it is. */
  function Picked(test: Test, pre: Option<nat>, pos: Position, s: Items): seq<bool> {
    var p := Passing(test, pre, s);
    seq(|s|, i requires 0 <= i < |s| =>
      p[i] && if pre.Some? then AtPosition(pos, Count(p[..i]), Count(p)) else AtPosition(pos, i, |s|))
  }

  /** Item `i` is matched: it passes `pre`, is selected by position, and passes `post`. */
  predicate Chosen(test: Test, m: SetMatcher, s: Items, i: nat)
    requires i < |s|
    decreases m
  {
    match m
    case Plain(f) => s[i].Some? && test(f, s[i].value)
    case Positional(pre, pos, post) =>
      var picked := Picked(test, pre, pos, s);
      picked[i] && Endures(test, post, s, picked, i)
  }

  /** Flagged item `i` is accepted by the filter behind the pseudo, applied to the flagged items. */
  predicate Endures(test: Test, post: Option<SetMatcher>, s: Items, flags: seq<bool>, i: nat)
    requires i < |s| == |flags| && flags[i]
    decreases post, 0
  {
    KeptAt(s, flags, i);
    post.Some? ==> Chosen(test, post.value, Kept(s, flags), Count(flags[..i]))
  }

  lemma {:induction false} KeptAt<T>(s: seq<T>, flags: seq<bool>, i: nat)
    requires i < |s| == |flags| && flags[i]
    ensures |Kept(s, flags)| == Count(flags)
    ensures Count(flags[..i]) < Count(flags) && Kept(s, flags)[Count(flags[..i])] == s[i]
  {
    var k := |s| - 1;
    KeptLength(s, flags);
    if i < k {
      assert flags[..k][..i] == flags[..i];
      KeptAt(s[..k], flags[..k], i);
    } else {
      KeptLength(s[..k], flags[..k]);
    }
  }

  lemma {:induction false} KeptLength<T>(s: seq<T>, flags: seq<bool>)
    requires |s| == |flags|
    ensures |Kept(s, flags)| == Count(flags)
  {
    if s != [] { KeptLength(s[..|s| - 1], flags[..|s| - 1]); }
  }

  // Results that are already there when no filter stands in front: they are mixed with the new ones.

  function At(s: Items, i: int): Option<Elem> {
    if 0 <= i < |s| then s[i] else None
  }

  /** What `results` holds once the pseudo has moved its picks there. */
  function Overlay(test: Test, pos: Position, seed: Items, results: Items): Items {
    var picked := Picked(test, None, pos, seed);
    seq(|seed|, i requires 0 <= i < |seed| => if picked[i] then seed[i] else At(results, i))
  }

  /** What becomes of `seed[i]` and `results[i]`. */
  function After(test: Test, m: SetMatcher, seed: Items, results: Items, i: nat): (Option<Elem>, Option<Elem>)
    requires i < |seed|
  {
    if m.Positional? && m.pre.None? then
      var all := Overlay(test, m.pos, seed, results);
      var left := if Picked(test, None, m.pos, seed)[i] then None else seed[i];
      if all[i].None? then (left, None)
      else if Endures(test, m.post, all, Present(all), i) then (left, all[i])
      else (all[i], None)
    else if Chosen(test, m, seed, i) then (None, seed[i])
    else (seed[i], At(results, i))
  }

  // The code.

  /** A JavaScript array that grows when written past its end; absent and falsy items are None. */
  class JsArray {
    var items: Items

    constructor (items: Items)
      ensures this.items == items
    {
      this.items := items;
    }

    function Get(i: int): Option<Elem>
      reads this
    {
      At(items, i)
    }

    method Put(i: nat, x: Option<Elem>)
      modifies this
      ensures |items| == if i < |old(items)| then |old(items)| else i + 1
      ensures forall k :: Get(k) == if k == i then x else old(Get(k))
      ensures forall k :: 0 <= k < |items| ==> items[k] == if k == i then x else At(old(items), k)
    {
      while |items| <= i
        invariant |old(items)| <= |items| && (|items| <= i + 1 || items == old(items))
        invariant forall k :: Get(k) == old(Get(k))
        invariant forall k :: 0 <= k < |items| ==> items[k] == At(old(items), k)
      {
        items := items + [None];
      }
      items := items[i := x];
    }
  }

  /** The flagged indices, in order. */
  function Indices(flags: seq<bool>): seq<nat> {
    if flags == [] then [] else
      var k := |flags| - 1;
      if flags[k] then Indices(flags[..k]) + [k] else Indices(flags[..k])
  }

  lemma {:induction false} IndicesAt(flags: seq<bool>, i: nat)
    requires i < |flags| && flags[i]
    ensures |Indices(flags)| == Count(flags)
    ensures Count(flags[..i]) < Count(flags) && Indices(flags)[Count(flags[..i])] == i
  {
    var k := |flags| - 1;
    IndicesCount(flags);
    IndicesCount(flags[..k]);
    if i < k {
      assert flags[..k][..i] == flags[..i];
      IndicesAt(flags[..k], i);
    }
  }

  lemma {:induction false} IndicesCount(flags: seq<bool>)
    ensures |Indices(flags)| == Count(flags)
    ensures forall k :: 0 <= k < |Indices(flags)| ==>
      Indices(flags)[k] < |flags| && flags[Indices(flags)[k]] && Count(flags[..Indices(flags)[k]]) == k
  {
    if flags != [] {
      var n := |flags| - 1;
      IndicesCount(flags[..n]);
      assert forall i :: 0 <= i < n ==> flags[..n][..i] == flags[..i];
    }
  }

  lemma OneMore<T>(s: seq<T>, flags: seq<bool>, i: nat)
    requires i < |s| == |flags|
    ensures Kept(s[..i + 1], flags[..i + 1]) == if flags[i] then Kept(s[..i], flags[..i]) + [s[i]] else Kept(s[..i], flags[..i])
    ensures Indices(flags[..i + 1]) == if flags[i] then Indices(flags[..i]) + [i] else Indices(flags[..i])
  {
    assert s[..i + 1][..i] == s[..i] && flags[..i + 1][..i] == flags[..i];
  }

  /** `condense`: the items that pass the filter, closed up, and where each came from. */
  method Condense(test: Test, s: Items, pre: Option<nat>) returns (kept: Items, map_: seq<nat>)
    ensures kept == Kept(s, Passing(test, pre, s)) && map_ == Indices(Passing(test, pre, s))
  {
    kept, map_ := [], [];
    ghost var flags := Passing(test, pre, s);
    for i := 0 to |s|
      invariant kept == Kept(s[..i], flags[..i]) && map_ == Indices(flags[..i])
    {
      OneMore(s, flags, i);
      if s[i].Some? && (pre.None? || test(pre.value, s[i].value)) {
        kept := kept + [s[i]];
        map_ := map_ + [i];
      }
    }
    assert s[..|s|] == s && flags[..|s|] == flags;
  }

  /** What the positions mean: `:eq(n)` is the index that `:lt(n)` and `:gt(n)` leave; one further on
      is one further on; a negative argument counts from the other end; and even and odd indices
      alternate, beginning with an even one. */
  lemma PositionsMean(n: int, j: nat, length: nat)
    requires j < length
    ensures var lt, eq, gt := AtPosition(Lt(n), j, length), AtPosition(Eq(n), j, length), AtPosition(Gt(n), j, length);
      (lt || eq || gt) && !(lt && eq) && !(lt && gt) && !(eq && gt)
    ensures AtPosition(First, j, length) <==> j == 0
    ensures AtPosition(Last, j, length) <==> AtPosition(First, length - 1 - j, length)
    ensures AtPosition(Eq(0), j, length) <==> AtPosition(First, j, length)
    ensures n >= 0 ==> (AtPosition(Eq(n + 1), j, length) <==> j > 0 && AtPosition(Eq(n), j - 1, length))
    ensures n >= 0 ==> (AtPosition(Lt(n + 1), j, length) <==> j == 0 || AtPosition(Lt(n), j - 1, length))
    ensures !AtPosition(Lt(0), j, length)
    ensures n >= 0 ==> (AtPosition(Eq(-n - 1), j, length) <==> AtPosition(Eq(n), length - 1 - j, length))
    ensures n >= 0 ==> (AtPosition(Gt(-n - 1), j, length) <==> AtPosition(Lt(n), length - 1 - j, length))
    ensures AtPosition(Even, 0, length) && (AtPosition(Even, j, length) <==> !AtPosition(Odd, j, length))
    ensures j > 0 ==> (AtPosition(Even, j, length) <==> AtPosition(Odd, j - 1, length))
  {
  }

  /** The index list that a positional pseudo computes from the length of the seed. */
  method Indexes(pos: Position, length: nat) returns (r: seq<int>)
    ensures forall j :: 0 <= j < length ==> (j in r <==> AtPosition(pos, j, length))
  {
    r := [];
    match pos {
      case First => r := [0];
      case Last => r := [length - 1];
      case Eq(n) => r := [if n < 0 then n + length else n];
      case Even =>
        var i := 0;
        while i < length
          invariant i % 2 == 0
          invariant forall j :: j in r ==> j < i
          invariant forall j :: 0 <= j < i ==> (j in r <==> j % 2 == 0)
        {
          r := r + [i];
          i := i + 2;
        }
      case Odd =>
        var i := 1;
        while i < length
          invariant i % 2 == 1
          invariant forall j :: j in r ==> j < i
          invariant forall j :: 0 <= j < i ==> (j in r <==> j % 2 == 1)
        {
          r := r + [i];
          i := i + 2;
        }
      case Lt(n) =>
        var from := if n < 0 then n + length else n;
        var i := from - 1;
        while i >= 0
          invariant i < from
          invariant forall j :: j in r <==> i < j < from && j >= 0
        {
          r := r + [i];
          i := i - 1;
        }
      case Gt(n) =>
        var from := if n < 0 then n + length else n;
        var i := from + 1;
        while i < length
          invariant from < i
          invariant forall j :: j in r <==> from < j < i
        {
          r := r + [i];
          i := i + 1;
        }
    }
  }

  /** Moves the element at every computed index, from the last to the first, to the matches, and
      leaves the index of the seed empty. */
  method Pick(pos: Position, seed: JsArray, matches: JsArray)
    requires seed != matches
    modifies seed, matches
    ensures |seed.items| == |old(seed.items)|
    ensures |old(matches.items)| <= |seed.items| ==> |matches.items| <= |seed.items|
    ensures forall j :: 0 <= j < |seed.items| ==>
      if AtPosition(pos, j, |seed.items|) && old(seed.items)[j].Some? then seed.items[j] == None && matches.Get(j) == old(seed.items)[j]
      else seed.items[j] == old(seed.items)[j] && matches.Get(j) == old(matches.Get(j))
    ensures forall j :: !(0 <= j < |seed.items|) ==> matches.Get(j) == old(matches.Get(j))
  {
    var matchIndexes := Indexes(pos, |seed.items|);
    var i := |matchIndexes|;
    while i > 0
      invariant 0 <= i <= |matchIndexes|
      invariant |seed.items| == |old(seed.items)|
      invariant |old(matches.items)| <= |seed.items| ==> |matches.items| <= |seed.items|
      invariant forall j :: 0 <= j < |seed.items| ==>
        if j in matchIndexes[i..] && old(seed.items)[j].Some? then seed.items[j] == None && matches.Get(j) == old(seed.items)[j]
        else seed.items[j] == old(seed.items)[j] && matches.Get(j) == old(matches.Get(j))
      invariant forall j :: !(0 <= j < |seed.items|) ==> matches.Get(j) == old(matches.Get(j))
    {
      i := i - 1;
      var j := matchIndexes[i];
      assert matchIndexes[i..] == [j] + matchIndexes[i + 1..];
      assert forall x :: x in matchIndexes[i..] <==> x == j || x in matchIndexes[i + 1..];
      if seed.Get(j).Some? {
        matches.Put(j, seed.Get(j));
        seed.Put(j, None);
      }
    }
    assert matchIndexes[0..] == matchIndexes;
  }

  // Facts about closing up flagged items.

  lemma {:induction false} KeptSame<T>(s: seq<T>, t: seq<T>, flags: seq<bool>)
    requires |s| == |t| == |flags| && forall i :: 0 <= i < |s| && flags[i] ==> s[i] == t[i]
    ensures Kept(s, flags) == Kept(t, flags)
  {
    if s != [] { KeptSame(s[..|s| - 1], t[..|s| - 1], flags[..|s| - 1]); }
  }

  /** Of the items flagged by `p`, those flagged again by `sel`. */
  function Both(p: seq<bool>, sel: seq<bool>): (r: seq<bool>)
    requires |sel| == Count(p)
    ensures |r| == |p|
  {
    if p == [] then [] else
      var k, n := |p| - 1, |sel| - 1;
      if p[k] then Both(p[..k], sel[..n]) + [sel[n]] else Both(p[..k], sel) + [false]
  }

  /** Flagging twice is flagging once. */
  lemma {:induction false} KeptTwice<T>(s: seq<T>, p: seq<bool>, sel: seq<bool>)
    requires |s| == |p| && |sel| == Count(p)
    ensures |Kept(s, p)| == |sel| && Kept(s, Both(p, sel)) == Kept(Kept(s, p), sel) && Count(Both(p, sel)) == Count(sel)
  {
    if s != [] {
      var k, n := |s| - 1, |sel| - 1;
      var u, q := s[..k], p[..k];
      assert s == u + [s[k]];
      if p[k] {
        var front, last := sel[..n], sel[n];
        assert sel == front + [last];
        KeptTwice(u, q, front);
        KeptSnoc(u, s[k], Both(q, front), last);
        KeptSnoc(Kept(u, q), s[k], front, last);
      } else {
        KeptTwice(u, q, sel);
        KeptSnoc(u, s[k], Both(q, sel), false);
      }
    }
  }

  lemma KeptSnoc<T>(u: seq<T>, x: T, flags: seq<bool>, b: bool)
    requires |u| == |flags|
    ensures Kept(u + [x], flags + [b]) == if b then Kept(u, flags) + [x] else Kept(u, flags)
    ensures Count(flags + [b]) == Count(flags) + if b then 1 else 0
  {
    assert (u + [x])[..|u|] == u && (flags + [b])[..|u|] == flags;
  }

  lemma {:induction false} CountPrefix(p: seq<bool>, i: nat)
    requires i < |p|
    ensures Count(p[..i]) <= Count(p) && (p[i] ==> Count(p[..i]) < Count(p))
  {
    var k := |p| - 1;
    if i < k {
      CountPrefix(p[..k], i);
      assert p[..k][..i] == p[..i];
    }
  }

  lemma {:induction false} BothAt(p: seq<bool>, sel: seq<bool>, i: nat)
    requires |sel| == Count(p) && i < |p|
    ensures Count(p[..i]) <= Count(p) && (p[i] ==> Count(p[..i]) < Count(p))
    ensures Both(p, sel)[..i] == Both(p[..i], sel[..Count(p[..i])])
    ensures Both(p, sel)[i] <==> p[i] && sel[Count(p[..i])]
  {
    CountPrefix(p, i);
    var k, n := |p| - 1, |sel| - 1;
    var rest := if p[k] then sel[..n] else sel;
    if i < k {
      BothAt(p[..k], rest, i);
      assert p[..k][..i] == p[..i];
      assert rest[..Count(p[..i])] == sel[..Count(p[..i])];
      assert Both(p, sel)[..i] == Both(p[..k], rest)[..i];
    } else {
      assert Both(p, sel)[..k] == Both(p[..k], rest);
      assert rest == sel[..Count(p[..k])];
    }
  }

  lemma {:induction false} KeptPadded(s: Items, t: Items)
    requires |s| <= |t| && t[..|s|] == s && forall i :: |s| <= i < |t| ==> t[i] == None
    ensures Kept(t, Present(t)) == Kept(s, Present(s))
    ensures forall i :: 0 <= i < |s| ==> Present(t)[..i] == Present(s)[..i]
  {
    if |t| > |s| {
      var k := |t| - 1;
      KeptPadded(s, t[..k]);
      assert Present(t)[..k] == Present(t[..k]);
    } else {
      assert t == s;
    }
  }

  lemma {:induction false} AllPresent(s: Items, flags: seq<bool>)
    requires |s| == |flags| && forall i :: 0 <= i < |s| && flags[i] ==> s[i].Some?
    ensures forall k :: 0 <= k < |Kept(s, flags)| ==> Kept(s, flags)[k].Some?
  {
    if s != [] { AllPresent(s[..|s| - 1], flags[..|s| - 1]); }
  }

  // What applying a set matcher to a seed does.

  /** With no results yet, an item is moved iff it is chosen. */
  lemma FreshResults(test: Test, m: SetMatcher, seed: Items, results: Items, i: nat)
    requires i < |seed| && forall k :: 0 <= k < |results| ==> results[k] == None
    ensures After(test, m, seed, results, i) == if Chosen(test, m, seed, i) then (None, seed[i]) else (seed[i], None)
  {
    if m.Positional? && m.pre.None? {
      var all, picked := Overlay(test, m.pos, seed, results), Picked(test, None, m.pos, seed);
      assert Present(all) == picked;
      KeptSame(all, seed, picked);
    }
  }

  /** Without a filter in front and with a plain one behind the pseudo, a match that was already
      there stays iff it passes that one too: positional selectors take away earlier matches.
      `EarlierResults` has the general case. */
  lemma EarlierMatchSurvives(test: Test, pos: Position, f: nat, seed: Items, results: Items, i: nat)
    requires i < |seed| && |results| <= |seed| && seed[i].None? && At(results, i).Some?
    ensures var after := After(test, Positional(None, pos, Some(Plain(f))), seed, results, i);
            && (after.1.Some? <==> test(f, results[i].value))
            && after == if test(f, results[i].value) then (None, results[i]) else (results[i], None)
  {
    var all := Overlay(test, pos, seed, results);
    assert !Picked(test, None, pos, seed)[i] && all[i] == results[i] && Present(all)[i];
    KeptAt(all, Present(all), i);
    assert Endures(test, Some(Plain(f)), all, Present(all), i) <==> test(f, results[i].value);
  }

  /** For instance in `:last.y, x:first` on the seed 5, 7, where 5 passes x and fails y and 7 passes y:
      the selectors run from the last to the first, so `x:first` matches 5, and `:last.y`, which
      then picks 7 as the last of the seed, gives 5 back because it fails y. */
  lemma EarlierMatchLost(test: Test)
    requires !test(0, 5) && test(0, 7)
    ensures After(test, Positional(None, Last, Some(Plain(0))), [None, Some(7)], [Some(5)], 0) == (Some(5), None)
  {
    EarlierMatchSurvives(test, Last, 0, [None, Some(7)], [Some(5)], 0);
  }

  /** A filter in front, or none behind, keeps earlier matches safe. */
  lemma EarlierMatchSafe(test: Test, m: SetMatcher, seed: Items, results: Items, i: nat)
    requires i < |seed| && |results| <= |seed| && seed[i].None? && At(results, i).Some?
    requires m.Plain? || m.pre.Some? || m.post.None?
    ensures After(test, m, seed, results, i) == (None, results[i])
  {
  }

  /** Moves every match, from the last to the first, to the index it came from: from the seed to
      the results. */
  method MoveMatched(matched: Items, map_: seq<nat>, ghost flags: seq<bool>, seed: JsArray, results: JsArray)
    requires seed != results && |flags| == |seed.items| && map_ == Indices(flags) && |matched| <= |map_|
    modifies seed, results
    ensures |seed.items| == |old(seed.items)|
    ensures |old(results.items)| <= |seed.items| ==> |results.items| <= |seed.items|
    ensures forall i :: 0 <= i < |seed.items| ==>
      if flags[i] && At(matched, Count(flags[..i])).Some? then seed.items[i] == None && results.Get(i) == matched[Count(flags[..i])]
      else seed.items[i] == old(seed.items)[i] && results.Get(i) == old(results.Get(i))
  {
    IndicesCount(flags);
    var i := |matched|;
    while i > 0
      invariant 0 <= i <= |matched|
      invariant |seed.items| == |old(seed.items)|
      invariant |old(results.items)| <= |seed.items| ==> |results.items| <= |seed.items|
      invariant forall j :: 0 <= j < |seed.items| ==>
        if flags[j] && i <= Count(flags[..j]) < |matched| && matched[Count(flags[..j])].Some?
        then seed.items[j] == None && results.Get(j) == matched[Count(flags[..j])]
        else seed.items[j] == old(seed.items)[j] && results.Get(j) == old(results.Get(j))
    {
      i := i - 1;
      forall j | 0 <= j < |flags| && flags[j] && Count(flags[..j]) == i
        ensures j == map_[i]
      {
        IndicesAt(flags, j);
      }
      if matched[i].Some? {
        results.Put(map_[i], matched[i]);
        seed.Put(map_[i], None);
      }
    }
  }

  lemma EnduresPadded(test: Test, post: Option<SetMatcher>, s: Items, t: Items, i: nat)
    requires |s| <= |t| && t[..|s|] == s && forall k :: |s| <= k < |t| ==> t[k] == None
    requires i < |s| && s[i].Some?
    ensures Endures(test, post, s, Present(s), i) <==> Endures(test, post, t, Present(t), i)
  {
    KeptPadded(s, t);
    assert t[i] == s[i];
  }

  function Places(pos: Position, n: nat): seq<bool> {
    seq(n, j requires 0 <= j < n => AtPosition(pos, j, n))
  }

  lemma PickedIsBoth(test: Test, pre: nat, pos: Position, s: Items)
    ensures var p := Passing(test, Some(pre), s);
            Picked(test, Some(pre), pos, s) == Both(p, Places(pos, Count(p)))
  {
    var p := Passing(test, Some(pre), s);
    forall k | 0 <= k < |s|
      ensures Picked(test, Some(pre), pos, s)[k] == Both(p, Places(pos, Count(p)))[k]
    {
      BothAt(p, Places(pos, Count(p)), k);
    }
  }

  /** Being accepted among the items flagged twice is being accepted among those closed up in between. */
  lemma EnduresTwice(test: Test, post: Option<SetMatcher>, s: Items, p: seq<bool>, sel: seq<bool>, i: nat)
    requires i < |s| == |p| && |sel| == Count(p) && p[i] && Count(p[..i]) < Count(p) && sel[Count(p[..i])]
    ensures Both(p, sel)[i] && |Kept(s, p)| == |sel|
    ensures Endures(test, post, s, Both(p, sel), i) <==> Endures(test, post, Kept(s, p), sel, Count(p[..i]))
  {
    BothAt(p, sel, i);
    KeptTwice(s, p, sel);
    KeptTwice(s[..i], p[..i], sel[..Count(p[..i])]);
  }

  lemma EnduresSame(test: Test, post: Option<SetMatcher>, s: Items, t: Items, flags: seq<bool>, i: nat)
    requires i < |s| == |t| == |flags| && flags[i] && forall k :: 0 <= k < |s| && flags[k] ==> s[k] == t[k]
    ensures Endures(test, post, s, flags, i) <==> Endures(test, post, t, flags, i)
  {
    KeptSame(s, t, flags);
  }

  /** Filtering, closing up, picking by position and filtering again is what `Chosen` says. */
  lemma FilteredChosen(test: Test, pre: nat, pos: Position, post: Option<SetMatcher>, s: Items, out: Items, i: nat)
    requires i < |s|
    requires var p := Passing(test, Some(pre), s);
             |out| <= Count(p) == |Kept(s, p)| &&
             forall j :: 0 <= j < Count(p) ==> At(out, j) == if AtPosition(pos, j, Count(p)) then Kept(s, p)[j] else None
    ensures var p := Passing(test, Some(pre), s);
            var j := Count(p[..i]);
            Chosen(test, Positional(Some(pre), pos, post), s, i) <==>
              (p[i] && j < |out| && out[j].Some? && Endures(test, post, out, Present(out), j))
  {
    var p := Passing(test, Some(pre), s);
    PickedIsBoth(test, pre, pos, s);
    BothAt(p, Places(pos, Count(p)), i);
    AllPresent(s, p);
    if p[i] && Places(pos, Count(p))[Count(p[..i])] {
      var j, kept, sel := Count(p[..i]), Kept(s, p), Places(pos, Count(p));
      var full := seq(|kept|, k requires 0 <= k < |kept| => At(out, k));
      assert Present(full) == sel;
      EnduresTwice(test, post, s, p, sel, i);
      EnduresSame(test, post, full, kept, sel, j);
      assert full[j] == At(out, j);
      EnduresPadded(test, post, out, full, j);
    }
  }

  method ApplyFiltered(test: Test, m: SetMatcher, seed: JsArray, results: JsArray)
    requires m.Positional? && m.pre.Some?
    requires seed != results && |results.items| <= |seed.items|
    modifies seed, results
    ensures |seed.items| == |old(seed.items)| && |results.items| <= |seed.items|
    ensures forall i :: 0 <= i < |seed.items| ==>
      (seed.items[i], results.Get(i)) == After(test, m, old(seed.items), old(results.items), i)
    decreases m, 1
  {
    ghost var s, flags := seed.items, Passing(test, m.pre, seed.items);
    var kept, preMap := Condense(test, seed.items, m.pre);
    IndicesCount(flags);
    KeptLength(s, flags);
    AllPresent(s, flags);
    var matcherIn := new JsArray(kept);
    var matcherOut := new JsArray([]);
    Pick(m.pos, matcherIn, matcherOut);
    ghost var out := matcherOut.items;
    PostFilter(test, m.post, matcherOut, matcherIn);
    MoveMatched(matcherOut.items, preMap, flags, seed, results);
    forall i | 0 <= i < |s|
      ensures Chosen(test, m, s, i) <==> flags[i] && At(matcherOut.items, Count(flags[..i])).Some?
      ensures flags[i] ==> Count(flags[..i]) < |kept| && kept[Count(flags[..i])] == s[i]
    {
      FilteredChosen(test, m.pre.value, m.pos, m.post, s, out, i);
      if flags[i] { KeptAt(s, flags, i); }
    }
  }

  /** The filter behind the pseudo: failing elements are moved back to `matcherIn`. */
  method PostFilter(test: Test, post: Option<SetMatcher>, matcherOut: JsArray, matcherIn: JsArray)
    requires matcherOut != matcherIn && |matcherOut.items| <= |matcherIn.items|
    modifies matcherOut, matcherIn
    ensures |matcherOut.items| == |old(matcherOut.items)| && |matcherIn.items| == |old(matcherIn.items)|
    ensures var out := old(matcherOut.items);
            forall i :: 0 <= i < |out| ==>
              if out[i].Some? && !Endures(test, post, out, Present(out), i) then matcherOut.items[i] == None && matcherIn.items[i] == out[i]
              else matcherOut.items[i] == out[i] && matcherIn.items[i] == old(matcherIn.items)[i]
    ensures forall i :: |matcherOut.items| <= i < |matcherIn.items| ==> matcherIn.items[i] == old(matcherIn.items)[i]
    decreases post, 4
  {
    if post.None? {
      return;
    }
    var out := matcherOut.items;
    var temp, postMap := Accepted(test, post.value, out);
    UnmatchFailing(temp, postMap, Present(out), out, matcherOut, matcherIn);
  }

  /** Applies the filter to the present items, closed up; those it rejects stay in `temp`. */
  method Accepted(test: Test, post: SetMatcher, out: Items) returns (temp: JsArray, postMap: seq<nat>)
    ensures fresh(temp) && postMap == Indices(Present(out)) && |temp.items| == |postMap|
    ensures forall k :: 0 <= k < |postMap| ==> postMap[k] < |out| && (temp.items[k].Some? ==> temp.items[k] == out[postMap[k]])
    ensures forall i :: 0 <= i < |out| && out[i].Some? ==>
      (Endures(test, Some(post), out, Present(out), i) <==> At(temp.items, Count(Present(out)[..i])).None?)
    decreases post, 3
  {
    ghost var flags := Present(out);
    assert Passing(test, None, out) == flags;
    var kept;
    kept, postMap := Condense(test, out, None);
    temp := new JsArray(kept);
    var scratch := new JsArray([]);
    Apply(test, post, temp, scratch);
    AllPresent(out, flags);
    IndicesCount(flags);
    KeptLength(out, flags);
    forall k | 0 <= k < |kept|
      ensures temp.items[k] == if Chosen(test, post, kept, k) then None else kept[k]
      ensures postMap[k] < |out| && kept[k] == out[postMap[k]]
    {
      FreshResults(test, post, kept, [], k);
      KeptAt(out, flags, postMap[k]);
    }
    forall i | 0 <= i < |out| && out[i].Some?
      ensures Endures(test, Some(post), out, flags, i) <==> At(temp.items, Count(flags[..i])).None?
    {
      KeptAt(out, flags, i);
      EnduresMeans(test, post, out, flags, i);
    }
  }

  lemma EnduresMeans(test: Test, post: SetMatcher, s: Items, flags: seq<bool>, i: nat)
    requires i < |s| == |flags| && flags[i] && Count(flags[..i]) < |Kept(s, flags)|
    ensures Endures(test, Some(post), s, flags, i) <==> Chosen(test, post, Kept(s, flags), Count(flags[..i]))
  {
  }

  method UnmatchFailing(temp: JsArray, postMap: seq<nat>, ghost flags: seq<bool>, ghost out: Items, matcherOut: JsArray, matcherIn: JsArray)
    requires temp != matcherOut && temp != matcherIn && matcherOut != matcherIn
    requires matcherOut.items == out && flags == Present(out) && |out| <= |matcherIn.items|
    requires postMap == Indices(flags) && |temp.items| == |postMap|
    requires forall k :: 0 <= k < |postMap| ==> postMap[k] < |out| && (temp.items[k].Some? ==> temp.items[k] == out[postMap[k]])
    modifies matcherOut, matcherIn
    ensures |matcherOut.items| == |out| && |matcherIn.items| == |old(matcherIn.items)|
    ensures forall i :: 0 <= i < |out| ==>
      if flags[i] && At(temp.items, Count(flags[..i])).Some? then matcherOut.items[i] == None && matcherIn.items[i] == out[i]
      else matcherOut.items[i] == out[i] && matcherIn.items[i] == old(matcherIn.items)[i]
    ensures forall i :: |out| <= i < |matcherIn.items| ==> matcherIn.items[i] == old(matcherIn.items)[i]
  {
    IndicesCount(flags);
    var i := |temp.items|;
    while i > 0
      invariant 0 <= i <= |temp.items|
      invariant |matcherOut.items| == |out| && |matcherIn.items| == |old(matcherIn.items)|
      invariant forall j :: 0 <= j < |out| ==>
        if flags[j] && i <= Count(flags[..j]) && At(temp.items, Count(flags[..j])).Some?
        then matcherOut.items[j] == None && matcherIn.items[j] == out[j]
        else matcherOut.items[j] == out[j] && matcherIn.items[j] == old(matcherIn.items)[j]
      invariant forall j :: |out| <= j < |matcherIn.items| ==> matcherIn.items[j] == old(matcherIn.items)[j]
    {
      i := i - 1;
      forall j | 0 <= j < |flags| && flags[j] && Count(flags[..j]) == i
        ensures j == postMap[i]
      {
        IndicesAt(flags, j);
      }
      if temp.items[i].Some? {
        matcherIn.Put(postMap[i], temp.items[i]);
        matcherOut.Put(postMap[i], None);
      }
    }
  }

  /** The function that `setMatcher` returns, applied to a seed and without a postFinder: what
      becomes of every index of `seed` and `results`, which stay synchronised. */
  method Apply(test: Test, m: SetMatcher, seed: JsArray, results: JsArray)
    requires seed != results && |results.items| <= |seed.items|
    modifies seed, results
    ensures |seed.items| == |old(seed.items)| && |results.items| <= |seed.items|
    ensures forall i :: 0 <= i < |seed.items| ==>
      (seed.items[i], results.Get(i)) == After(test, m, old(seed.items), old(results.items), i)
    decreases m, 2
  {
    match m {
      case Plain(f) =>
        var kept, preMap := Condense(test, seed.items, Some(f));
        ghost var s, flags := seed.items, Passing(test, Some(f), seed.items);
        IndicesCount(flags);
        KeptLength(s, flags);
        MoveMatched(kept, preMap, flags, seed, results);
        AllPresent(s, flags);
        forall i | 0 <= i < |s| && flags[i] { KeptAt(s, flags, i); }
      case Positional(pre, pos, post) =>
        if pre.None? {
          ghost var s, r := seed.items, results.items;
          Pick(pos, seed, results);
          ghost var out := results.items;
          PostFilter(test, post, results, seed);
          ghost var all := Overlay(test, pos, s, r);
          forall i | 0 <= i < |out| && out[i].Some? { EnduresPadded(test, post, out, all, i); }
        } else {
          ApplyFiltered(test, m, seed, results);
        }
    }
  }
}
