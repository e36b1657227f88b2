/** When a positional selector without a filter in front does what it should although the results
    of earlier selectors share its array: exactly for which matchers, and on which arrays. */
module EarlierResults {
  import opened Wrappers
  import opened SetMatchers

  /** Each index holds its element in the seed or in the results, never in both. */
  ghost predicate Synchronised(seed: Items, results: Items) {
    |results| <= |seed| && forall i :: 0 <= i < |results| && results[i].Some? ==> seed[i].None?
  }

  /** What should become of `seed[i]` and `results[i]`: chosen elements move, all others stay. */
  function Wanted(test: Test, m: SetMatcher, seed: Items, results: Items, i: nat): (Option<Elem>, Option<Elem>)
    requires i < |seed|
  {
    if Chosen(test, m, seed, i) then (None, seed[i]) else (seed[i], At(results, i))
  }

  ghost predicate Right(test: Test, m: SetMatcher, seed: Items, results: Items) {
    forall i :: 0 <= i < |seed| ==> After(test, m, seed, results, i) == Wanted(test, m, seed, results, i)
  }

  // Lists whose items are all there, with a flag for the earlier results among them.

  function Not(flags: seq<bool>): seq<bool> {
    seq(|flags|, i requires 0 <= i < |flags| => !flags[i])
  }

  function And(a: seq<bool>, b: seq<bool>): seq<bool>
    requires |a| == |b|
  {
    seq(|a|, i requires 0 <= i < |a| => a[i] && b[i])
  }

  ghost predicate Full(all: Items, earlier: seq<bool>) {
    |all| == |earlier| && forall j :: 0 <= j < |all| ==> all[j].Some?
  }

  /** The filter treats earlier results and new picks alike as if they had not met: it chooses the
      earlier result, and it chooses the new pick iff it does so among the new picks alone. */
  ghost predicate AgreesAt(test: Test, p: SetMatcher, all: Items, earlier: seq<bool>, j: nat)
    requires Full(all, earlier) && j < |all|
  {
    if earlier[j] then Chosen(test, p, all, j)
    else
      KeptAt(all, Not(earlier), j);
      Chosen(test, p, all, j) <==> Chosen(test, p, Kept(all, Not(earlier)), Count(Not(earlier)[..j]))
  }

  ghost predicate Agrees(test: Test, p: SetMatcher, all: Items, earlier: seq<bool>)
    requires Full(all, earlier)
  {
    forall j :: 0 <= j < |all| ==> AgreesAt(test, p, all, earlier, j)
  }

  /** Passes a filter that does not look at positions. */
  predicate Passes(test: Test, post: Option<SetMatcher>, x: Option<Elem>) {
    post.Some? && post.value.Plain? && x.Some? ==> test(post.value.f, x.value)
  }

  /** No position that matters is taken: an earlier result stands where the pseudo selects, and a
      new pick that the next filter lets through is selected with the earlier results in the
      count iff it is without them. */
  ghost predicate Undisturbed(test: Test, pre: Option<nat>, pos: Position, post: Option<SetMatcher>, all: Items, earlier: seq<bool>)
    requires Full(all, earlier)
  {
    forall j :: 0 <= j < |all| ==> UndisturbedAt(test, pre, pos, post, all, earlier, j)
  }

  ghost predicate UndisturbedAt(test: Test, pre: Option<nat>, pos: Position, post: Option<SetMatcher>, all: Items,
                                earlier: seq<bool>, j: nat)
    requires Full(all, earlier) && j < |all|
  {
    var picked := Picked(test, pre, pos, all);
    if earlier[j] then picked[j] && Passes(test, post, all[j])
    else
      KeptAt(all, Not(earlier), j);
      var alone := Picked(test, pre, pos, Kept(all, Not(earlier)));
      Passes(test, post, all[j]) ==> picked[j] == alone[Count(Not(earlier)[..j])]
  }

  /** What can be checked of the arrays before the call. */
  ghost predicate Steady(test: Test, p: SetMatcher, all: Items, earlier: seq<bool>)
    requires Full(all, earlier)
    decreases p
  {
    match p
    case Plain(f) => forall j :: 0 <= j < |all| && earlier[j] ==> test(f, all[j].value)
    case Positional(pre, pos, post) =>
      && Undisturbed(test, pre, pos, post, all, earlier)
      && (post.Some? && post.value.Positional? ==>
            var picked := Picked(test, pre, pos, all);
            KeptFull(all, earlier, picked);
            Steady(test, post.value, Kept(all, picked), Kept(earlier, picked)))
  }

  lemma KeptFull(all: Items, earlier: seq<bool>, flags: seq<bool>)
    requires Full(all, earlier) && |flags| == |all|
    ensures Full(Kept(all, flags), Kept(earlier, flags))
  {
    KeptLength(all, flags);
    KeptLength(earlier, flags);
    AllPresent(all, flags);
  }

  // Flagging.

  lemma {:induction false} KeptPrefix<T>(s: seq<T>, flags: seq<bool>, i: nat)
    requires i <= |s| == |flags|
    ensures Count(flags[..i]) <= |Kept(s, flags)|
    ensures Kept(s, flags)[..Count(flags[..i])] == Kept(s[..i], flags[..i])
  {
    KeptLength(s[..i], flags[..i]);
    if i < |s| {
      var k := |s| - 1;
      KeptPrefix(s[..k], flags[..k], i);
      assert s[..k][..i] == s[..i] && flags[..k][..i] == flags[..i];
    } else {
      assert s[..i] == s && flags[..i] == flags;
    }
  }

  lemma {:induction false} KeptNot(flags: seq<bool>, a: seq<bool>)
    requires |flags| == |a|
    ensures Kept(Not(flags), a) == Not(Kept(flags, a))
  {
    if flags != [] {
      var k := |flags| - 1;
      KeptNot(flags[..k], a[..k]);
      assert Not(flags)[..k] == Not(flags[..k]);
    }
  }

  lemma BothIsAnd(a: seq<bool>, b: seq<bool>)
    requires |a| == |b|
    ensures |Kept(b, a)| == Count(a) && Both(a, Kept(b, a)) == And(a, b)
  {
    KeptLength(b, a);
    forall i | 0 <= i < |a|
      ensures Both(a, Kept(b, a))[i] == And(a, b)[i]
    {
      BothAt(a, Kept(b, a), i);
      if a[i] {
        KeptAt(b, a, i);
      }
    }
  }

  /** Keeping by `a` and then by what is left of `b` is keeping by both. */
  lemma KeptAnd<T>(s: seq<T>, a: seq<bool>, b: seq<bool>)
    requires |s| == |a| == |b|
    ensures |Kept(s, a)| == |Kept(b, a)| && Kept(Kept(s, a), Kept(b, a)) == Kept(s, And(a, b))
  {
    BothIsAnd(a, b);
    KeptTwice(s, a, Kept(b, a));
  }

  /** And so for the places of the items kept. */
  lemma PlaceAnd(a: seq<bool>, b: seq<bool>, i: nat)
    requires i < |a| == |b| && a[i]
    ensures Count(a[..i]) < |Kept(b, a)| && Kept(b, a)[Count(a[..i])] == b[i]
    ensures Count(Kept(b, a)[..Count(a[..i])]) == Count(And(a, b)[..i])
  {
    KeptAt(b, a, i);
    KeptPrefix(b, a, i);
    BothIsAnd(a[..i], b[..i]);
    KeptTwice(b[..i], a[..i], Kept(b[..i], a[..i]));
    assert And(a, b)[..i] == And(a[..i], b[..i]);
  }

  lemma AndSwaps(a: seq<bool>, b: seq<bool>)
    requires |a| == |b|
    ensures And(a, b) == And(b, a)
  {
  }

  // The condition is enough, for every filter,

  predicate Flat(post: Option<SetMatcher>) {
    post.Some? ==> post.value.Plain?
  }

  lemma EnduresFlat(test: Test, post: Option<SetMatcher>, s: Items, flags: seq<bool>, i: nat)
    requires Flat(post) && i < |s| == |flags| && flags[i] && s[i].Some?
    ensures Endures(test, post, s, flags, i) <==> Passes(test, post, s[i])
  {
    KeptAt(s, flags, i);
  }

  /** Where no further position is asked for, it is exact at every index. */
  lemma FlatAt(test: Test, pre: Option<nat>, pos: Position, post: Option<SetMatcher>, all: Items, earlier: seq<bool>, j: nat)
    requires Full(all, earlier) && j < |all| && Flat(post)
    ensures AgreesAt(test, Positional(pre, pos, post), all, earlier, j)
       <==> UndisturbedAt(test, pre, pos, post, all, earlier, j)
  {
    var picked := Picked(test, pre, pos, all);
    if picked[j] {
      EnduresFlat(test, post, all, picked, j);
    }
    if !earlier[j] {
      KeptAt(all, Not(earlier), j);
      var alone, k := Kept(all, Not(earlier)), Count(Not(earlier)[..j]);
      if Picked(test, pre, pos, alone)[k] {
        EnduresFlat(test, post, alone, Picked(test, pre, pos, alone), k);
      }
    }
  }

  /** The new picks that a further pseudo sees are the same ones. */
  lemma AloneIsKept(test: Test, pre: Option<nat>, pos: Position, post: Option<SetMatcher>, all: Items, earlier: seq<bool>)
    requires Full(all, earlier) && Undisturbed(test, pre, pos, post, all, earlier) && !Flat(post)
    ensures |Kept(all, Not(earlier))| == |Kept(Picked(test, pre, pos, all), Not(earlier))|
    ensures Picked(test, pre, pos, Kept(all, Not(earlier))) == Kept(Picked(test, pre, pos, all), Not(earlier))
  {
    var picks, picked := Not(earlier), Picked(test, pre, pos, all);
    KeptLength(all, picks);
    KeptLength(picked, picks);
    IndicesCount(picks);
    forall k | 0 <= k < Count(picks)
      ensures Picked(test, pre, pos, Kept(all, picks))[k] == Kept(picked, picks)[k]
    {
      var j := Indices(picks)[k];
      assert UndisturbedAt(test, pre, pos, post, all, earlier, j);
      KeptAt(picked, picks, j);
    }
  }

  /** What a further pseudo makes of an index is what it makes of the index among the items picked. */
  lemma NestedAt(test: Test, pre: Option<nat>, pos: Position, post: SetMatcher, all: Items, earlier: seq<bool>, j: nat)
    requires Full(all, earlier) && j < |all| && post.Positional?
    requires Undisturbed(test, pre, pos, Some(post), all, earlier)
    requires var picked := Picked(test, pre, pos, all);
             Full(Kept(all, picked), Kept(earlier, picked)) && Agrees(test, post, Kept(all, picked), Kept(earlier, picked))
    ensures AgreesAt(test, Positional(pre, pos, Some(post)), all, earlier, j)
  {
    var picks, picked := Not(earlier), Picked(test, pre, pos, all);
    assert UndisturbedAt(test, pre, pos, Some(post), all, earlier, j);
    if picked[j] {
      var at := Count(picked[..j]);
      PlaceAnd(picked, earlier, j);
      KeptAt(all, picked, j);
      assert AgreesAt(test, post, Kept(all, picked), Kept(earlier, picked), at);
      if !earlier[j] {
        SameAlone(test, pre, pos, post, all, earlier, j);
      }
    }
  }

  lemma SameAlone(test: Test, pre: Option<nat>, pos: Position, post: SetMatcher, all: Items, earlier: seq<bool>, j: nat)
    requires Full(all, earlier) && j < |all| && post.Positional?
    requires Undisturbed(test, pre, pos, Some(post), all, earlier)
    requires Picked(test, pre, pos, all)[j] && !earlier[j]
    ensures var picked, alone := Picked(test, pre, pos, all), Kept(all, Not(earlier));
            var k := Count(Not(earlier)[..j]);
            && k < |alone| && Picked(test, pre, pos, alone)[k]
            && |Kept(all, picked)| == |Kept(earlier, picked)|
            && Kept(Kept(all, picked), Not(Kept(earlier, picked))) == Kept(alone, Picked(test, pre, pos, alone))
            && Count(picked[..j]) < |Kept(earlier, picked)|
            && Count(Not(Kept(earlier, picked))[..Count(picked[..j])]) == Count(Picked(test, pre, pos, alone)[..k])
  {
    var picks, picked := Not(earlier), Picked(test, pre, pos, all);
    AloneIsKept(test, pre, pos, Some(post), all, earlier);
    KeptAt(all, picks, j);
    KeptNot(earlier, picked);
    KeptAnd(all, picked, picks);
    KeptAnd(all, picks, picked);
    KeptLength(earlier, picked);
    PlaceAnd(picked, picks, j);
    PlaceAnd(picks, picked, j);
    AndSwaps(picked, picks);
  }

  lemma {:induction false} SteadyAgrees(test: Test, p: SetMatcher, all: Items, earlier: seq<bool>)
    requires Full(all, earlier) && Steady(test, p, all, earlier)
    ensures Agrees(test, p, all, earlier)
    decreases p
  {
    if p.Positional? && !Flat(p.post) {
      var picked := Picked(test, p.pre, p.pos, all);
      KeptFull(all, earlier, picked);
      SteadyAgrees(test, p.post.value, Kept(all, picked), Kept(earlier, picked));
    }
    forall j | 0 <= j < |all|
      ensures AgreesAt(test, p, all, earlier, j)
    {
      match p {
        case Plain(f) => if !earlier[j] { KeptAt(all, Not(earlier), j); }
        case Positional(pre, pos, post) =>
          if Flat(post) {
            assert UndisturbedAt(test, pre, pos, post, all, earlier, j);
            FlatAt(test, pre, pos, post, all, earlier, j);
          } else {
            NestedAt(test, pre, pos, post.value, all, earlier, j);
          }
      }
    }
  }

  /** and necessary unless positions are asked for twice in a row. */
  lemma AgreesSteady(test: Test, p: SetMatcher, all: Items, earlier: seq<bool>)
    requires Full(all, earlier) && Agrees(test, p, all, earlier) && (p.Positional? ==> Flat(p.post))
    ensures Steady(test, p, all, earlier)
  {
    forall j | 0 <= j < |all|
      ensures p.Plain? && earlier[j] ==> test(p.f, all[j].value)
      ensures p.Positional? ==> UndisturbedAt(test, p.pre, p.pos, p.post, all, earlier, j)
    {
      assert AgreesAt(test, p, all, earlier, j);
      if p.Positional? {
        FlatAt(test, p.pre, p.pos, p.post, all, earlier, j);
      }
    }
  }

  // The arrays of a call.

  /** The items that the filter behind the pseudo gets to see: earlier results and new picks. */
  function Mixed(test: Test, pos: Position, seed: Items, results: Items): Items {
    var all := Overlay(test, pos, seed, results);
    KeptLength(all, Present(all));
    Kept(all, Present(all))
  }

  function Matched(seed: Items, results: Items): seq<bool> {
    seq(|seed|, i requires 0 <= i < |seed| => At(results, i).Some?)
  }

  /** Which of them are earlier results. */
  function MixedEarlier(test: Test, pos: Position, seed: Items, results: Items): seq<bool> {
    Kept(Matched(seed, results), Present(Overlay(test, pos, seed, results)))
  }

  lemma MixedIsFull(test: Test, pos: Position, seed: Items, results: Items)
    ensures Full(Mixed(test, pos, seed, results), MixedEarlier(test, pos, seed, results))
  {
    var all := Overlay(test, pos, seed, results);
    KeptLength(all, Present(all));
    KeptLength(Matched(seed, results), Present(all));
    AllPresent(all, Present(all));
  }

  lemma PickedAlone(test: Test, pos: Position, seed: Items, results: Items, i: nat)
    requires Synchronised(seed, results) && i < |seed| && Picked(test, None, pos, seed)[i]
    ensures var all, picked := Overlay(test, pos, seed, results), Picked(test, None, pos, seed);
            var mixed, earlier := Mixed(test, pos, seed, results), MixedEarlier(test, pos, seed, results);
            var j := Count(Present(all)[..i]);
            && |mixed| == |earlier| && j < |mixed| && !earlier[j]
            && Kept(mixed, Not(earlier)) == Kept(seed, picked)
            && Count(Not(earlier)[..j]) == Count(picked[..i])
  {
    var all, picked, matched := Overlay(test, pos, seed, results), Picked(test, None, pos, seed), Matched(seed, results);
    var present := Present(all);
    MixedIsFull(test, pos, seed, results);
    KeptNot(matched, present);
    KeptAnd(all, present, Not(matched));
    assert And(present, Not(matched)) == picked;
    PlaceAnd(present, Not(matched), i);
    KeptSame(all, seed, picked);
  }

  /** An index that gets a pick is right iff the filter agrees about the pick, */
  lemma RightAtPick(test: Test, pos: Position, p: SetMatcher, seed: Items, results: Items, i: nat)
    requires Synchronised(seed, results) && i < |seed| && Picked(test, None, pos, seed)[i]
    ensures Agreement(test, pos, p, seed, results, i)
  {
    var all, picked := Overlay(test, pos, seed, results), Picked(test, None, pos, seed);
    var mixed, earlier := Mixed(test, pos, seed, results), MixedEarlier(test, pos, seed, results);
    var j := Count(Present(all)[..i]);
    MixedIsFull(test, pos, seed, results);
    PickedAlone(test, pos, seed, results, i);
    KeptAt(seed, picked, i);
    var chosen := Chosen(test, p, Kept(seed, picked), Count(picked[..i]));
    assert AgreesAt(test, p, mixed, earlier, j) <==> (Chosen(test, p, mixed, j) <==> chosen);
    assert Chosen(test, Positional(None, pos, Some(p)), seed, i) <==> chosen;
    assert Endures(test, Some(p), all, Present(all), i) <==> Chosen(test, p, mixed, j);
    assert At(results, i) == None && all[i] == seed[i];
  }

  /** and an index that holds an earlier result iff the filter chooses that result. */
  lemma RightAtEarlier(test: Test, pos: Position, p: SetMatcher, seed: Items, results: Items, i: nat)
    requires Synchronised(seed, results) && i < |seed| && At(results, i).Some?
    ensures Agreement(test, pos, p, seed, results, i)
  {
    var all, matched := Overlay(test, pos, seed, results), Matched(seed, results);
    MixedIsFull(test, pos, seed, results);
    PlaceAnd(Present(all), matched, i);
    KeptAt(all, Present(all), i);
    assert seed[i].None? && all[i] == At(results, i) == results[i];
  }

  ghost predicate Agreement(test: Test, pos: Position, p: SetMatcher, seed: Items, results: Items, i: nat)
    requires i < |seed|
  {
    var all, m := Overlay(test, pos, seed, results), Positional(None, pos, Some(p));
    var j := Count(Present(all)[..i]);
    MixedIsFull(test, pos, seed, results);
    && j < |Mixed(test, pos, seed, results)|
    && (After(test, m, seed, results, i) == Wanted(test, m, seed, results, i)
        <==> AgreesAt(test, p, Mixed(test, pos, seed, results), MixedEarlier(test, pos, seed, results), j))
  }

  /** For a matcher without a filter in front, the whole call is right iff the filter behind agrees. */
  lemma RightIsAgreement(test: Test, pos: Position, p: SetMatcher, seed: Items, results: Items)
    requires Synchronised(seed, results)
    ensures Full(Mixed(test, pos, seed, results), MixedEarlier(test, pos, seed, results))
    ensures Right(test, Positional(None, pos, Some(p)), seed, results)
       <==> Agrees(test, p, Mixed(test, pos, seed, results), MixedEarlier(test, pos, seed, results))
  {
    var all, m := Overlay(test, pos, seed, results), Positional(None, pos, Some(p));
    var mixed, earlier := Mixed(test, pos, seed, results), MixedEarlier(test, pos, seed, results);
    MixedIsFull(test, pos, seed, results);
    if Agrees(test, p, mixed, earlier) {
      forall i | 0 <= i < |seed|
        ensures After(test, m, seed, results, i) == Wanted(test, m, seed, results, i)
      {
        if Picked(test, None, pos, seed)[i] {
          RightAtPick(test, pos, p, seed, results, i);
        } else if At(results, i).Some? {
          RightAtEarlier(test, pos, p, seed, results, i);
        }
      }
    }
    if Right(test, m, seed, results) {
      IndicesCount(Present(all));
      KeptLength(all, Present(all));
      forall j | 0 <= j < |mixed|
        ensures AgreesAt(test, p, mixed, earlier, j)
      {
        var i := Indices(Present(all))[j];
        assert After(test, m, seed, results, i) == Wanted(test, m, seed, results, i);
        if Picked(test, None, pos, seed)[i] {
          RightAtPick(test, pos, p, seed, results, i);
        } else {
          RightAtEarlier(test, pos, p, seed, results, i);
        }
      }
    }
  }

  // The theorems.

  /** The guard of the branch in which results are shared with earlier selectors. */
  predicate Shares(m: SetMatcher) {
    m.Positional? && m.pre.None? && m.post.Some?
  }

  /** What a caller can check: filters on the earlier results, and positions. */
  ghost predicate Clear(test: Test, m: SetMatcher, seed: Items, results: Items) {
    Shares(m) ==>
      (MixedIsFull(test, m.pos, seed, results);
       Steady(test, m.post.value, Mixed(test, m.pos, seed, results), MixedEarlier(test, m.pos, seed, results)))
  }

  /** At most one pseudo behind the first asks for positions again. */
  predicate Shallow(m: SetMatcher) {
    Shares(m) && m.post.value.Positional? ==> Flat(m.post.value.post)
  }

  lemma NothingShared(test: Test, m: SetMatcher, seed: Items, results: Items, i: nat)
    requires Synchronised(seed, results) && !Shares(m) && i < |seed|
    ensures After(test, m, seed, results, i) == Wanted(test, m, seed, results, i)
  {
    if m.Positional? && m.pre.None? {
      var all := Overlay(test, m.pos, seed, results);
      assert Chosen(test, m, seed, i) <==> Picked(test, None, m.pos, seed)[i];
      assert all[i].Some? ==> Endures(test, m.post, all, Present(all), i);
    }
  }

  /** Every index ends right when the check succeeds, for every matcher, and only then, unless
      three pseudos in a row ask for positions. */
  lemma WhenRight(test: Test, m: SetMatcher, seed: Items, results: Items)
    requires Synchronised(seed, results)
    ensures Clear(test, m, seed, results) ==> Right(test, m, seed, results)
    ensures Shallow(m) ==> (Right(test, m, seed, results) <==> Clear(test, m, seed, results))
  {
    if Shares(m) {
      var p, mixed, earlier := m.post.value, Mixed(test, m.pos, seed, results), MixedEarlier(test, m.pos, seed, results);
      RightIsAgreement(test, m.pos, p, seed, results);
      if Steady(test, p, mixed, earlier) {
        SteadyAgrees(test, p, mixed, earlier);
      } else if Shallow(m) && Agrees(test, p, mixed, earlier) {
        AgreesSteady(test, p, mixed, earlier);
      }
    } else {
      forall i | 0 <= i < |seed|
        ensures After(test, m, seed, results, i) == Wanted(test, m, seed, results, i)
      {
        NothingShared(test, m, seed, results, i);
      }
    }
  }

  /** With a plain filter behind, this says that every earlier result passes that filter. */
  lemma PlainBehind(test: Test, pos: Position, f: nat, seed: Items, results: Items)
    requires Synchronised(seed, results)
    ensures Right(test, Positional(None, pos, Some(Plain(f))), seed, results)
       <==> forall i :: 0 <= i < |results| && results[i].Some? ==> test(f, results[i].value)
  {
    var m, all := Positional(None, pos, Some(Plain(f))), Overlay(test, pos, seed, results);
    var mixed, earlier := Mixed(test, pos, seed, results), MixedEarlier(test, pos, seed, results);
    WhenRight(test, m, seed, results);
    MixedIsFull(test, pos, seed, results);
    if Steady(test, Plain(f), mixed, earlier) {
      forall i | 0 <= i < |results| && results[i].Some?
        ensures test(f, results[i].value)
      {
        ResultIsMixed(test, pos, seed, results, i);
      }
    }
    forall j | 0 <= j < |mixed| && earlier[j]
      ensures exists i :: 0 <= i < |results| && results[i].Some? && results[i] == mixed[j]
    {
      var i := MixedIsResult(test, pos, seed, results, j);
    }
  }

  lemma ResultIsMixed(test: Test, pos: Position, seed: Items, results: Items, i: nat)
    requires Synchronised(seed, results) && i < |results| && results[i].Some?
    ensures var mixed, earlier := Mixed(test, pos, seed, results), MixedEarlier(test, pos, seed, results);
            var j := Count(Present(Overlay(test, pos, seed, results))[..i]);
            j < |mixed| == |earlier| && earlier[j] && mixed[j] == results[i]
  {
    var all := Overlay(test, pos, seed, results);
    assert all[i] == results[i];
    MixedIsFull(test, pos, seed, results);
    KeptAt(all, Present(all), i);
    PlaceAnd(Present(all), Matched(seed, results), i);
  }

  lemma MixedIsResult(test: Test, pos: Position, seed: Items, results: Items, j: nat) returns (i: nat)
    requires Synchronised(seed, results)
    requires j < |MixedEarlier(test, pos, seed, results)| == |Mixed(test, pos, seed, results)|
    requires MixedEarlier(test, pos, seed, results)[j]
    ensures i < |results| && results[i].Some? && results[i] == Mixed(test, pos, seed, results)[j]
  {
    var all := Overlay(test, pos, seed, results);
    IndicesCount(Present(all));
    KeptLength(all, Present(all));
    i := Indices(Present(all))[j];
    KeptAt(all, Present(all), i);
    PlaceAnd(Present(all), Matched(seed, results), i);
  }

  /** What `x:first` leaves of the seed 5, 7 when 5 passes x. */
  lemma FirstRun(test: Test)
    requires test(1, 5)
    ensures var seed: Items, x := [Some(5), Some(7)], Positional(Some(1), First, None);
            After(test, x, seed, [], 0) == (None, Some(5)) && After(test, x, seed, [], 1) == (Some(7), None)
  {
    var seed: Items := [Some(5), Some(7)];
    var passing := Passing(test, Some(1), seed);
    assert passing[..1] == [true] && passing[..0] == [];
    assert !Picked(test, Some(1), First, seed)[1];
  }

  /** 7 is chosen by `:last:first` on a seed that still holds only 7, and yet it is not matched
      when 5 was: in `:last:first, x:first` on the seed 5, 7, where 5 passes x, the second
      selector runs first, and its match 5 becomes the first of the two that `:first` sees. */
  lemma ChosenRefused(test: Test)
    ensures var seed, m := [None, Some(7)], Positional(None, Last, Some(Positional(None, First, None)));
            Chosen(test, m, seed, 1) && After(test, m, seed, [Some(5)], 1) == (Some(7), None)
  {
    var seed: Items, p := [None, Some(7)], Positional(None, First, None);
    var picked := Picked(test, None, Last, seed);
    assert picked == [false] + [true] && seed == [None] + [Some(7)];
    KeptSnoc<Option<Elem>>([], None, [], false);
    KeptSnoc([None], Some(7), [false], true);
    assert picked[..1] == [false] && Kept(seed, picked) == [Some(7)];
    var all := Overlay(test, Last, seed, [Some(5)]);
    assert all == [Some(5), Some(7)] && Present(all) == [true, true];
    AllKept(all, Present(all));
    AllCounted(Present(all)[..1]);
    assert !Chosen(test, p, all, 1);
  }

  /** A place the pseudo passes over in some list. */
  lemma PassedOver(pos: Position) returns (n: nat, j: nat)
    ensures j < n && !AtPosition(pos, j, n)
  {
    match pos {
      case First => n, j := 2, 1;
      case Last => n, j := 2, 0;
      case Eq(k) => n, j := 2, if k == 0 || k == -2 then 1 else 0;
      case Even => n, j := 2, 1;
      case Odd => n, j := 1, 0;
      case Lt(k) => n, j := if k < 0 then 1 else k + 1, if k < 0 then 0 else k;
      case Gt(k) => n, j := if k < 0 then -k else 1, 0;
    }
  }

  /** Which matchers are right on all arrays: those that share nothing, and those behind which
      stands a plain filter that no element fails. */
  lemma RightOnAll(test: Test, m: SetMatcher)
    ensures (forall seed, results :: Synchronised(seed, results) ==> Right(test, m, seed, results))
       <==> (Shares(m) ==> m.post.value.Plain? && forall x: Elem :: test(m.post.value.f, x))
  {
    if Shares(m) && m.post.value.Plain? {
      var f := m.post.value.f;
      forall x: Elem | !test(f, x)
        ensures exists seed, results :: Synchronised(seed, results) && !Right(test, m, seed, results)
      {
        var seed: Items, results: Items := [None], [Some(x)];
        PlainBehind(test, m.pos, f, seed, results);
        assert results[0] == Some(x);
        assert Synchronised(seed, results) && !Right(test, m, seed, results);
      }
      forall seed, results | Synchronised(seed, results) && forall x: Elem :: test(f, x)
        ensures Right(test, m, seed, results)
      {
        PlainBehind(test, m.pos, f, seed, results);
      }
    } else if Shares(m) {
      var seed, results := WrongSomewhere(test, m);
    } else {
      forall seed, results | Synchronised(seed, results)
        ensures Right(test, m, seed, results)
      {
        WhenRight(test, m, seed, results);
      }
    }
  }

  /** A list of earlier results one of which stands where the pseudo behind does not select. */
  lemma WrongSomewhere(test: Test, m: SetMatcher) returns (seed: Items, results: Items)
    requires Shares(m) && m.post.value.Positional?
    ensures Synchronised(seed, results) && !Right(test, m, seed, results)
  {
    var p := m.post.value;
    var n, j := PassedOver(p.pos);
    seed, results := seq(n, _ => None), seq(n, _ => Some(0));
    RightIsAgreement(test, m.pos, p, seed, results);
    OnlyEarlier(test, m.pos, seed, results);
    NotChosen(test, p, results, j);
    assert !AgreesAt(test, p, Mixed(test, m.pos, seed, results), MixedEarlier(test, m.pos, seed, results), j);
  }

  lemma OnlyEarlier(test: Test, pos: Position, seed: Items, results: Items)
    requires |seed| == |results| && forall i :: 0 <= i < |seed| ==> seed[i].None? && results[i].Some?
    ensures Mixed(test, pos, seed, results) == results
    ensures MixedEarlier(test, pos, seed, results) == Present(results)
    ensures forall i :: 0 <= i < |results| ==> Present(results)[i]
  {
    assert Overlay(test, pos, seed, results) == results && Matched(seed, results) == Present(results);
    AllKept(results, Present(results));
    AllKept(Present(results), Present(results));
  }

  /** Among equal items a filter in front keeps all or none. */
  lemma NotChosen(test: Test, p: SetMatcher, s: Items, j: nat)
    requires p.Positional? && j < |s| && !AtPosition(p.pos, j, |s|)
    requires forall i :: 0 <= i < |s| ==> s[i] == s[j]
    ensures !Chosen(test, p, s, j)
  {
    var passing := Passing(test, p.pre, s);
    if passing[j] {
      AllCounted(passing);
      AllCounted(passing[..j]);
    }
  }

  lemma {:induction false} AllKept<T>(s: seq<T>, flags: seq<bool>)
    requires |s| == |flags| && forall i :: 0 <= i < |s| ==> flags[i]
    ensures Kept(s, flags) == s
  {
    if s != [] {
      AllKept(s[..|s| - 1], flags[..|s| - 1]);
    }
  }

  lemma {:induction false} AllCounted(flags: seq<bool>)
    requires forall i :: 0 <= i < |flags| ==> flags[i]
    ensures Count(flags) == |flags|
  {
    if flags != [] {
      AllCounted(flags[..|flags| - 1]);
    }
  }
}
