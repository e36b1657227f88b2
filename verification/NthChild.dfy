/** Sizzle's child filters: :first-child and its kin, and :nth-child(an+b) with the index
    caches that speed it up (section 6.6.5 of CSS Selectors Level 3). */
module NthChild {
  import opened Wrappers
  import opened Arithmetic

  /** A child node, as far as these filters look: an element or not, and its node name. */
  datatype Kid = Kid(element: bool, name: string)

  /** Whether `kid` is counted among the siblings of an element called `name`. */
  predicate Counts(kid: Kid, ofType: bool, name: string) {
    if ofType then kid.name == name else kid.element
  }

  function Tally(kids: seq<Kid>, ofType: bool, name: string): nat {
    if kids == [] then 0 else Tally(kids[..|kids| - 1], ofType, name) + (if Counts(kids[|kids| - 1], ofType, name) then 1 else 0)
  }

  lemma {:induction false} TallyConcat(a: seq<Kid>, b: seq<Kid>, ofType: bool, name: string)
    ensures Tally(a + b, ofType, name) == Tally(a, ofType, name) + Tally(b, ofType, name)
  {
    if b == [] {
      assert a + b == a;
    } else {
      assert (a + b)[..|a + b| - 1] == a + b[..|b| - 1];
      TallyConcat(a, b[..|b| - 1], ofType, name);
    }
  }

  /** Which children count: elements, or those of the same name. */
  lemma TallyOfOne(kid: Kid, ofType: bool, name: string)
    ensures Tally([kid], ofType, name) == if (ofType && kid.name == name) || (!ofType && kid.element) then 1 else 0
  {
    assert [kid][..0] == [];
  }

  /** None of these is an element, or of this name. */
  ghost predicate NoneOf(kids: seq<Kid>, ofType: bool, name: string) {
    forall k :: 0 <= k < |kids| ==> if ofType then kids[k].name != name else !kids[k].element
  }

  lemma {:induction false} TallyOfNone(kids: seq<Kid>, ofType: bool, name: string)
    requires NoneOf(kids, ofType, name)
    ensures Tally(kids, ofType, name) == 0
  {
    if kids != [] { TallyOfNone(kids[..|kids| - 1], ofType, name); }
  }

  /** The 1-based place of child `k`, from the front or from the back, among the children that count. */
  function Place(kids: seq<Kid>, k: nat, forward: bool, ofType: bool): nat
    requires k < |kids|
  {
    if forward then Tally(kids[..k + 1], ofType, kids[k].name) else Tally(kids[k..], ofType, kids[k].name)
  }

  /** The first child that counts is number 1; from the back it is the last one. */
  lemma FirstPlace(kids: seq<Kid>, k: nat, ofType: bool)
    requires k < |kids| && (!ofType ==> kids[k].element)
    ensures NoneOf(kids[..k], ofType, kids[k].name) ==> Place(kids, k, true, ofType) == 1
    ensures NoneOf(kids[k + 1..], ofType, kids[k].name) ==> Place(kids, k, false, ofType) == 1
  {
    var name := kids[k].name;
    TallyOfOne(kids[k], ofType, name);
    assert kids[..k + 1] == kids[..k] + [kids[k]] && kids[k..] == [kids[k]] + kids[k + 1..];
    TallyConcat(kids[..k], [kids[k]], ofType, name);
    TallyConcat([kids[k]], kids[k + 1..], ofType, name);
    if NoneOf(kids[..k], ofType, name) { TallyOfNone(kids[..k], ofType, name); }
    if NoneOf(kids[k + 1..], ofType, name) { TallyOfNone(kids[k + 1..], ofType, name); }
  }

  lemma Cut<T>(s: seq<T>, j: nat, k: nat)
    requires j < k < |s|
    ensures s[..k + 1] == s[..j + 1] + s[j + 1..k] + [s[k]]
    ensures s[j..] == [s[j]] + (s[j + 1..k] + s[k..])
  {
  }

  /** The next one after a child has the next number; from the back, the other way round. */
  lemma NextPlace(kids: seq<Kid>, j: nat, k: nat, ofType: bool)
    requires j < k < |kids| && (if ofType then kids[j].name == kids[k].name else kids[j].element && kids[k].element)
    requires NoneOf(kids[j + 1..k], ofType, kids[k].name)
    ensures Place(kids, k, true, ofType) == Place(kids, j, true, ofType) + 1
    ensures Place(kids, j, false, ofType) == Place(kids, k, false, ofType) + 1
  {
    var name := kids[k].name;
    TallyOfOne(kids[j], ofType, name);
    TallyOfOne(kids[k], ofType, name);
    TallyOfNone(kids[j + 1..k], ofType, name);
    Cut(kids, j, k);
    TallyConcat(kids[..j + 1] + kids[j + 1..k], [kids[k]], ofType, name);
    TallyConcat(kids[..j + 1], kids[j + 1..k], ofType, name);
    TallyConcat([kids[j]], kids[j + 1..k] + kids[k..], ofType, name);
    TallyConcat(kids[j + 1..k], kids[k..], ofType, name);
    if !ofType {
      TallySkipsName(kids[..j + 1], kids[j].name, name);
      TallySkipsName(kids[j..], kids[j].name, name);
    }
  }

  /** `an+b` takes the value `place` for some n >= 0. */
  ghost predicate Hits(a: int, b: int, place: int) {
    exists n: nat :: place == a * n + b
  }

  /** The arithmetic that ends the search. A remainder by zero is not a number, which equals
      nothing, and division is exact. */
  predicate FinalTest(first: int, last: int, place: int) {
    var diff := place - last;
    diff == first || (first != 0 && diff % first == 0 && (diff as real) / (first as real) >= 0.0)
  }

  /** The arithmetic of the last line is right for a zero, positive or negative step. */
  lemma FinalTestIsHits(a: int, b: int, place: int)
    ensures FinalTest(a, b, place) <==> Hits(a, b, place)
  {
    var diff := place - b;
    if FinalTest(a, b, place) {
      if diff == a {
        assert place == a * 1 + b;
      } else {
        var n := diff / a;
        assert diff == a * n;
        QuotientSign(a, n);
        assert place == a * n + b;
      }
    }
    if n: nat :| place == a * n + b {
      if a != 0 {
        Multiple(a, n);
        QuotientSign(a, n);
      }
    }
  }

  lemma Multiple(a: int, n: int)
    requires a != 0
    ensures (a * n) % a == 0
  {
    var q, r := (a * n) / a, (a * n) % a;
    assert a * n == a * q + r;
    if n != q {
      Difference(a, n, q);
      MultipleIsLarge(if a > 0 then a else -a, if a > 0 then n - q else q - n);
    }
  }

  lemma Difference(a: int, n: int, q: int)
    ensures a * n - a * q == a * (n - q) == -a * (q - n)
  {
  }

  lemma QuotientSign(a: int, n: int)
    requires a != 0
    ensures ((a * n) as real) / (a as real) >= 0.0 <==> n >= 0
  {
    assert (a * n) as real == (a as real) * (n as real);
    assert ((a as real) * (n as real)) / (a as real) == n as real;
  }

  lemma {:induction false} TallyFront(kids: seq<Kid>, ofType: bool, name: string)
    requires kids != []
    ensures Tally(kids, ofType, name) == Tally(kids[1..], ofType, name) + (if Counts(kids[0], ofType, name) then 1 else 0)
  {
    var k := |kids| - 1;
    if k > 0 {
      TallyFront(kids[..k], ofType, name);
      assert kids[1..][..k - 1] == kids[..k][1..];
    } else {
      assert kids[..0] == kids[1..] == [];
    }
  }

  lemma {:induction false} TallySkipsName(kids: seq<Kid>, name: string, other: string)
    ensures Tally(kids, false, name) == Tally(kids, false, other)
  {
    if kids != [] { TallySkipsName(kids[..|kids| - 1], name, other); }
  }

  /** One parent with its children and the index caches kept on it and on them. */
  class Parent {
    const kids: seq<Kid>
    var dirruns: nat
    // kept on the parent: the run, the index of the child last found, its place
    var nth: Option<(nat, nat, nat)>
    // kept on each child: the run and the place of the child
    var nthLast: map<nat, (nat, nat)>

    constructor (kids: seq<Kid>)
      ensures this.kids == kids && Valid()
    {
      this.kids := kids;
      dirruns, nth, nthLast := 0, None, map[];
    }

    /** What is remembered for this run is true. */
    ghost predicate Valid()
      reads this
    {
      && (nth.Some? ==> nth.value.0 <= dirruns)
      && (nth.Some? && nth.value.0 == dirruns ==> nth.value.1 < |kids| && nth.value.2 == Tally(kids[..nth.value.1 + 1], false, ""))
      && (forall k :: k in nthLast ==> nthLast[k].0 <= dirruns)
      && (forall k :: k in nthLast && nthLast[k].0 == dirruns ==> k < |kids| && nthLast[k].1 == Tally(kids[k..], false, ""))
    }

    /** A new outermost match: nothing remembered counts any more. */
    method NewRun()
      requires Valid()
      modifies this`dirruns
      ensures Valid() && dirruns == old(dirruns) + 1
    {
      dirruns := dirruns + 1;
    }

    /** `:nth-child(first n + last)` and its three relatives, on child `k`. */
    method Nth(k: nat, forward: bool, ofType: bool, first: int, last: int, xml: bool) returns (b: bool)
      requires Valid() && k < |kids| && kids[k].element
      modifies this`nth, this`nthLast
      ensures Valid()
      ensures b <==> Hits(first, last, Place(kids, k, forward, ofType))
    {
      FinalTestIsHits(first, last, Place(kids, k, forward, ofType));
      if first == 1 && last == 0 {
        return true;
      }
      var useCache := !xml && !ofType;
      var diff;
      if forward && useCache {
        diff := SeekFromCache(k);
      } else if useCache && k in nthLast && nthLast[k].0 == dirruns {
        diff := nthLast[k].1;
      } else {
        diff := Seek(k, forward, ofType, useCache);
      }
      TallySkipsName(if forward then kids[..k + 1] else kids[k..], "", kids[k].name);
      b := FinalTest(first, last, diff);
    }

    /** Seeks child `k` from the remembered index, and from the start if that is past it. */
    method SeekFromCache(k: nat) returns (diff: nat)
      requires Valid() && k < |kids| && kids[k].element
      modifies this`nth
      ensures Valid() && diff == Tally(kids[..k + 1], false, "")
    {
      var known := nth.Some? && nth.value.0 == dirruns;
      var nodeIndex: nat := if known then nth.value.1 else 0;
      diff := if known then nth.value.2 else 0;
      var node: int := if nodeIndex != 0 then nodeIndex else -1;
      var start := true;
      while true
        invariant Valid() && unchanged(this)
        invariant -1 <= node < |kids|
        invariant node >= 0 ==> nodeIndex == node && diff == Tally(kids[..node + 1], false, "")
        invariant !start ==> 0 <= node < k
        decreases start, |kids| - node
      {
        nodeIndex := nodeIndex + 1;
        if node >= 0 && node + 1 < |kids| {
          node := node + 1;
        } else {
          diff, nodeIndex := 0, 0;
          assert start;
          start := false;
          node := 0;
          assert kids[..0] == [];
        }
        assert kids[..node + 1][..node] == kids[..node];
        if kids[node].element {
          diff := diff + 1;
          if node == k {
            nth := Some((dirruns, nodeIndex, diff));
            break;
          }
        }
      }
    }

    /** Seeks child `k` from the first or the last child, remembering the places passed. */
    method Seek(k: nat, forward: bool, ofType: bool, useCache: bool) returns (diff: nat)
      requires Valid() && k < |kids| && kids[k].element
      requires useCache ==> !forward && !ofType
      modifies this`nthLast
      ensures Valid() && diff == Place(kids, k, forward, ofType)
    {
      if forward {
        diff := SeekForward(k, ofType);
      } else {
        diff := SeekBackward(k, ofType, useCache);
      }
    }

    method SeekForward(k: nat, ofType: bool) returns (diff: nat)
      requires k < |kids| && Counts(kids[k], ofType, kids[k].name)
      ensures diff == Place(kids, k, true, ofType)
    {
      var name := kids[k].name;
      var node := 0;
      diff := 0;
      assert kids[..0] == [];
      while true
        invariant node <= k && diff == Tally(kids[..node], ofType, name)
        decreases k - node
      {
        assert kids[..node + 1][..node] == kids[..node];
        if Counts(kids[node], ofType, name) {
          diff := diff + 1;
          if node == k {
            break;
          }
        }
        node := node + 1;
      }
    }

    /** Remembers the place of a child seen on the way. */
    method Remember(node: nat, diff: nat, name: string)
      requires Valid() && node < |kids| && diff == Tally(kids[node..], false, name)
      modifies this`nthLast
      ensures Valid() && nthLast == old(nthLast)[node := (dirruns, diff)]
    {
      TallySkipsName(kids[node..], "", name);
      nthLast := nthLast[node := (dirruns, diff)];
    }

    method SeekBackward(k: nat, ofType: bool, useCache: bool) returns (diff: nat)
      requires Valid() && k < |kids| && Counts(kids[k], ofType, kids[k].name)
      requires useCache ==> !ofType
      modifies this`nthLast
      ensures Valid() && diff == Place(kids, k, false, ofType)
    {
      var name := kids[k].name;
      var node := |kids| - 1;
      diff := 0;
      assert kids[|kids|..] == [];
      while true
        invariant Valid() && k <= node < |kids| && diff == Tally(kids[node + 1..], ofType, name)
        decreases node
      {
        TallyFront(kids[node..], ofType, name);
        assert kids[node..][1..] == kids[node + 1..];
        if Counts(kids[node], ofType, name) {
          diff := diff + 1;
          if useCache {
            Remember(node, diff, name);
          }
          if node == k {
            break;
          }
        }
        node := node - 1;
      }
    }

    /** `:first-child`, `:last-child`, `:only-child` and the same of-type. `backward` and `ahead`
        say which siblings rule child `k` out. */
    method Simple(k: nat, backward: bool, ahead: bool, ofType: bool) returns (b: bool)
      requires k < |kids| && (backward || ahead)
      ensures b <==> forall j :: 0 <= j < |kids| && ((backward && j < k) || (ahead && j > k)) ==> !Counts(kids[j], ofType, kids[k].name)
    {
      var name := kids[k].name;
      var dir := if backward then -1 else 1;
      var again := backward && ahead;
      while true
        invariant dir == 1 || dir == -1
        invariant dir == -1 ==> backward && (again <==> ahead)
        invariant dir == 1 ==> ahead && !again
        invariant dir == 1 && backward ==> forall j :: 0 <= j < k ==> !Counts(kids[j], ofType, name)
        decreases again
      {
        var node: int := k + dir;
        while 0 <= node < |kids|
          invariant -1 <= node <= |kids|
          invariant dir == -1 ==> node < k && forall j :: node < j < k ==> !Counts(kids[j], ofType, name)
          invariant dir == 1 ==> node > k && forall j :: k < j < node ==> !Counts(kids[j], ofType, name)
          decreases if dir == 1 then |kids| - node else node
        {
          if Counts(kids[node], ofType, name) {
            return false;
          }
          node := node + dir;
        }
        if !again {
          return true;
        }
        dir, again := 1, false;
      }
    }
  }
}
