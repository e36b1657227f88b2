/** Sizzle's document-order comparison for browsers without compareDocumentPosition, and the
    sort-and-deduplicate built on it. A node is named by its path of child indices from the root. */
module DocumentOrder {
  import opened Wrappers

  datatype Tree = Node(kids: seq<Tree>)

  type Path = seq<nat>

  predicate Has(t: Tree, p: Path)
    decreases p
  {
    p == [] || (p[0] < |t.kids| && Has(t.kids[p[0]], p[1..]))
  }

  // The reference: the order in which a preorder walk of the tree meets its nodes.

  function Under(i: nat, ps: seq<Path>): seq<Path> {
    seq(|ps|, k requires 0 <= k < |ps| => [i] + ps[k])
  }

  function Preorder(t: Tree): seq<Path>
    decreases t, 0
  {
    [[]] + PreorderKids(t, |t.kids|)
  }

  function PreorderKids(t: Tree, n: nat): seq<Path>
    requires n <= |t.kids|
    decreases t, 0, n
  {
    if n == 0 then [] else PreorderKids(t, n - 1) + Under(n - 1, Preorder(t.kids[n - 1]))
  }

  /** The place of a node in the preorder walk (see RankIsPlace). */
  function Rank(t: Tree, p: Path): nat
    requires Has(t, p)
    decreases p
  {
    if p == [] then 0 else 1 + |PreorderKids(t, p[0])| + Rank(t.kids[p[0]], p[1..])
  }

  lemma {:induction false} KidsInOrder(t: Tree, i: nat, n: nat)
    requires i < n <= |t.kids|
    ensures |PreorderKids(t, i)| + |Preorder(t.kids[i])| <= |PreorderKids(t, n)|
    ensures forall k :: 0 <= k < |Preorder(t.kids[i])| ==>
      PreorderKids(t, n)[|PreorderKids(t, i)| + k] == [i] + Preorder(t.kids[i])[k]
  {
    if i < n - 1 { KidsInOrder(t, i, n - 1); }
  }

  lemma {:induction false} RankIsPlace(t: Tree, p: Path)
    requires Has(t, p)
    ensures Rank(t, p) < |Preorder(t)| && Preorder(t)[Rank(t, p)] == p
    decreases p
  {
    if p != [] {
      RankIsPlace(t.kids[p[0]], p[1..]);
      KidsInOrder(t, p[0], |t.kids|);
    }
  }

  /** A proper ancestor comes first. */
  lemma AncestorFirst(t: Tree, a: Path, b: Path)
    requires Has(t, a) && Has(t, b) && a < b
    ensures Rank(t, a) < Rank(t, b)
    decreases a
  {
  }

  /** Where two paths part, the smaller child index comes first. */
  lemma {:induction false} EarlierBranchFirst(t: Tree, a: Path, b: Path, i: nat)
    requires Has(t, a) && Has(t, b) && i < |a| && i < |b|
    requires a[..i] == b[..i] && a[i] < b[i]
    ensures Rank(t, a) < Rank(t, b)
    decreases i
  {
    if i == 0 {
      RankIsPlace(t.kids[a[0]], a[1..]);
      KidsInOrder(t, a[0], b[0]);
    } else {
      assert a[0] == a[..i][0] == b[0];
      assert a[1..][..i - 1] == a[..i][1..] && b[1..][..i - 1] == b[..i][1..];
      EarlierBranchFirst(t.kids[a[0]], a[1..], b[1..], i - 1);
    }
  }

  // The DOM as the comparison sees it.

  function ParentNode(p: Path): Option<Path> {
    if p == [] then None else Some(p[..|p| - 1])
  }

  function Subtree(t: Tree, p: Path): Tree
    requires Has(t, p)
    decreases p
  {
    if p == [] then t else Subtree(t.kids[p[0]], p[1..])
  }

  lemma {:induction false} PrefixesExist(t: Tree, p: Path, n: nat)
    requires Has(t, p) && n <= |p|
    ensures Has(t, p[..n]) && (n < |p| ==> p[n] < |Subtree(t, p[..n]).kids|)
    decreases n
  {
    if n > 0 {
      PrefixesExist(t.kids[p[0]], p[1..], n - 1);
      assert p[..n][1..] == p[1..][..n - 1] && p[..n][0] == p[0];
    }
  }

  lemma {:induction false} ChildExists(t: Tree, p: Path, i: nat)
    requires Has(t, p)
    ensures Has(t, p + [i]) <==> i < |Subtree(t, p).kids|
    decreases p
  {
    if p != [] {
      assert (p + [i])[1..] == p[1..] + [i];
      ChildExists(t.kids[p[0]], p[1..], i);
    } else {
      assert (p + [i])[1..] == [];
    }
  }

  /** `nextSibling` */
  function NextSibling(t: Tree, p: Path): (r: Option<Path>)
    requires Has(t, p)
    ensures r.Some? ==> Has(t, r.value)
  {
    if p == [] then None else
      var k := |p| - 1;
      PrefixesExist(t, p, k);
      ChildExists(t, p[..k], p[k] + 1);
      if p[k] + 1 < |Subtree(t, p[..k]).kids| then Some(p[..k] + [p[k] + 1]) else None
  }

  predicate Siblings(a: Path, b: Path) {
    a != b && a != [] && b != [] && ParentNode(a) == ParentNode(b)
  }

  /** Paths with one parent part at their last step. */
  lemma SameParent(a: Path, b: Path)
    requires Siblings(a, b)
    ensures |a| == |b| && a[..|a| - 1] == b[..|a| - 1] && a[|a| - 1] != b[|a| - 1]
    ensures a == a[..|a| - 1] + [a[|a| - 1]] && b == a[..|a| - 1] + [b[|b| - 1]]
  {
    var k := |a| - 1;
    assert |a[..k]| == |b[..|b| - 1]|;
    assert a == a[..k] + [a[k]] && b == b[..k] + [b[k]];
  }

  /** Child `i` of the node at `up`, if it has that many. */
  ghost function ChildAt(t: Tree, up: Path, i: nat): (r: Option<Path>)
    requires Has(t, up)
    ensures r.Some? <==> i < |Subtree(t, up).kids|
    ensures r.Some? ==> r.value == up + [i] && Has(t, r.value)
  {
    ChildExists(t, up, i);
    if i < |Subtree(t, up).kids| then Some(up + [i]) else None
  }

  /** One step along the children of the node at `up`. */
  lemma StepToNext(t: Tree, p: Path, up: Path, i: nat)
    requires Has(t, p) && p == up + [i]
    ensures Has(t, up) && i < |Subtree(t, up).kids|
    ensures NextSibling(t, p) == ChildAt(t, up, i + 1)
  {
    assert p[..|p| - 1] == up;
    PrefixesExist(t, p, |p| - 1);
  }

  /** Whether `b` is met on the way from `a` to its last sibling. */
  method IsFollowing(t: Tree, a: Path, b: Path) returns (found: bool)
    requires Has(t, a) && Has(t, b) && Siblings(a, b)
    ensures found <==> a[|a| - 1] < b[|b| - 1]
  {
    SameParent(a, b);
    ghost var up, i, j := a[..|a| - 1], a[|a| - 1], b[|b| - 1];
    StepToNext(t, a, up, i);
    StepToNext(t, b, up, j);
    ghost var start, n := i, |Subtree(t, up).kids|;
    var cur := NextSibling(t, a);
    i := start + 1;
    while cur.Some?
      invariant start < i <= n && (start < j ==> i <= j)
      invariant cur == ChildAt(t, up, i)
      decreases n - i
    {
      if cur.value == b {
        assert cur.value[|up|] == i;
        return true;
      }
      StepToNext(t, cur.value, up, i);
      cur, i := NextSibling(t, cur.value), i + 1;
    }
    found := false;
  }

  /** Which of two siblings comes first; an absent node stands for an ancestor of the other. */
  method SiblingCheck(t: Tree, a: Option<Path>, b: Option<Path>) returns (c: int)
    requires a.Some? || b.Some?
    requires a.Some? && b.Some? ==> Has(t, a.value) && Has(t, b.value) && Siblings(a.value, b.value)
    ensures a.Some? && b.Some? ==> c == if a.value[|a.value| - 1] < b.value[|b.value| - 1] then -1 else 1
    ensures a.None? ==> c == -1
    ensures b.None? ==> c == 1
  {
    if a.Some? && b.Some? {
      var found := IsFollowing(t, a.value, b.value);
      if found {
        return -1;
      }
    }
    c := if a.Some? then 1 else -1;
  }

  /** The node with all its ancestors, from the root down: each one found is put in front. */
  method Ancestors(p: Path) returns (ap: seq<Path>)
    ensures |ap| == |p| + 1 && forall i :: 0 <= i < |ap| ==> ap[i] == p[..i]
  {
    ap := [p];
    var cur := p;
    while ParentNode(cur).Some?
      invariant |cur| <= |p| && cur == p[..|cur|] && |ap| == |p| - |cur| + 1
      invariant forall i :: 0 <= i < |ap| ==> ap[i] == p[..|cur| + i]
      decreases |cur|
    {
      cur := ParentNode(cur).value;
      ap := [cur] + ap;
    }
  }

  /** Preorder, except that the root of a tree that is not a document comes last. */
  predicate Comparable(document: bool, a: Path, b: Path) {
    document || a == b || (a != [] && b != [])
  }

  ghost predicate Agrees(t: Tree, a: Path, b: Path, c: int)
    requires Has(t, a) && Has(t, b)
  {
    && (c < 0 <==> Rank(t, a) < Rank(t, b))
    && (c == 0 <==> a == b)
    && (c > 0 <==> Rank(t, a) > Rank(t, b))
  }

  /** The order in which `sortOrder` puts the nodes of one tree. */
  ghost function SortKey(t: Tree, document: bool, p: Path): nat
    requires Has(t, p)
  {
    if p == [] && !document then |Preorder(t)| else Rank(t, p)
  }

  /** It is a strict total order: distinct nodes have distinct keys. */
  lemma KeysDiffer(t: Tree, document: bool, a: Path, b: Path)
    requires Has(t, a) && Has(t, b)
    ensures SortKey(t, document, a) == SortKey(t, document, b) <==> a == b
  {
    RankIsPlace(t, a);
    RankIsPlace(t, b);
  }

  /** The comparison in terms of that order, from what it says about ranks. */
  lemma KeysOrdered(t: Tree, document: bool, a: Path, b: Path, c: int)
    requires Has(t, a) && Has(t, b)
    requires if Comparable(document, a, b) then Agrees(t, a, b, c) else c == if a == [] then 1 else -1
    ensures c < 0 <==> SortKey(t, document, a) < SortKey(t, document, b)
    ensures c > 0 <==> SortKey(t, document, a) > SortKey(t, document, b)
  {
    RankIsPlace(t, a);
    RankIsPlace(t, b);
    if a == [] && b != [] {
      AncestorFirst(t, a, b);
    } else if b == [] && a != [] {
      AncestorFirst(t, b, a);
    }
  }

  /** The fallback `sortOrder` on two nodes of one tree; `document` says whether the root of the
      tree is the document. `same` is its report to `hasDuplicate`. */
  method SortOrder(t: Tree, document: bool, a: Path, b: Path) returns (c: int, same: bool)
    requires Has(t, a) && Has(t, b)
    ensures same <==> a == b
    ensures Agrees(t, a, b, c) <==> Comparable(document, a, b)
    ensures !Comparable(document, a, b) ==> c == if a == [] then 1 else -1
    ensures c < 0 <==> SortKey(t, document, a) < SortKey(t, document, b)
    ensures c > 0 <==> SortKey(t, document, a) > SortKey(t, document, b)
  {
    same := a == b;
    var aup, bup := ParentNode(a), ParentNode(b);
    if a == b {
      c := 0;
    } else if aup.None? || bup.None? {
      // the document first, and otherwise the one that has a parent
      if a == [] { AncestorFirst(t, a, b); } else { AncestorFirst(t, b, a); }
      c := if document && a == [] then -1 else if document && b == [] then 1 else if aup.Some? then -1 else if bup.Some? then 1 else 0;
    } else if aup == bup {
      c := SiblingCheck(t, Some(a), Some(b));
      SameParent(a, b);
      SiblingsOrdered(t, a, b, |a| - 1);
    } else {
      c := CompareAncestors(t, a, b);
    }
    KeysOrdered(t, document, a, b, c);
  }

  /** Down from the root to where the two ancestor lists part. */
  method CompareAncestors(t: Tree, a: Path, b: Path) returns (c: int)
    requires Has(t, a) && Has(t, b) && a != b
    ensures Agrees(t, a, b, c)
  {
    var ap := Ancestors(a);
    var bp := Ancestors(b);
    assert ap[|a|] == a && bp[|b|] == b;
    var i := 0;
    while (if i < |ap| then Some(ap[i]) else None) == (if i < |bp| then Some(bp[i]) else None)
      invariant i <= |ap| && i <= |bp| && forall k :: 0 <= k < i ==> ap[k] == bp[k]
      decreases |ap| - i
    {
      i := i + 1;
    }
    assert ap[0] == bp[0];
    assert ap[i - 1] == bp[i - 1];
    if i < |ap| && i < |bp| {
      PrefixesExist(t, a, i);
      PrefixesExist(t, b, i);
      assert ap[i][..i - 1] == ap[i - 1] && bp[i][..i - 1] == bp[i - 1];
      c := SiblingCheck(t, Some(ap[i]), Some(bp[i]));
      SiblingsOrdered(t, a, b, i - 1);
    } else if i < |bp| {
      c := SiblingCheck(t, None, Some(bp[i]));
      assert a == ap[|a|] == bp[|a|] == b[..|a|];
      AncestorFirst(t, a, b);
    } else {
      c := SiblingCheck(t, Some(ap[i]), None);
      assert b == bp[|b|] == ap[|b|] == a[..|b|];
      AncestorFirst(t, b, a);
    }
  }

  lemma SiblingsOrdered(t: Tree, a: Path, b: Path, i: nat)
    requires Has(t, a) && Has(t, b) && i < |a| && i < |b| && a[..i] == b[..i] && a[i] != b[i]
    ensures Agrees(t, a, b, if a[i] < b[i] then -1 else 1)
  {
    if a[i] < b[i] { EarlierBranchFirst(t, a, b, i); } else { EarlierBranchFirst(t, b, a, i); }
  }

  // Sorting and removing duplicates.

  ghost predicate AllIn(t: Tree, s: seq<Path>) {
    forall i :: 0 <= i < |s| ==> Has(t, s[i])
  }

  /** What sorting by `sortOrder` yields. */
  ghost predicate Sorted(t: Tree, document: bool, s: seq<Path>) {
    AllIn(t, s) && forall i, j :: 0 <= i < j < |s| ==> SortKey(t, document, s[i]) <= SortKey(t, document, s[j])
  }

  ghost predicate StrictlySorted(t: Tree, document: bool, s: seq<Path>) {
    AllIn(t, s) && forall i, j :: 0 <= i < j < |s| ==> SortKey(t, document, s[i]) < SortKey(t, document, s[j])
  }

  /** From index `n` on, the elements that differ from their predecessor. */
  ghost function Fresh<T>(s: seq<T>, n: nat): seq<T>
    decreases |s| - n
  {
    if n >= |s| then [] else (if n > 0 && s[n] == s[n - 1] then [] else [s[n]]) + Fresh(s, n + 1)
  }

  ghost predicate NoRepeat<T>(s: seq<T>, m: nat, n: nat) {
    n <= |s| && forall k :: m <= k < n && k > 0 ==> s[k] != s[k - 1]
  }

  /** Where nothing repeats, everything is fresh. */
  lemma {:induction false} FreshRun<T>(s: seq<T>, m: nat, n: nat)
    requires m <= n && NoRepeat(s, m, n)
    ensures Fresh(s, m) == s[m..n] + Fresh(s, n)
    decreases n - m
  {
    if m == n {
      assert s[m..n] == [];
    } else {
      FreshRun(s, m + 1, n);
      assert Fresh(s, m) == [s[m]] + Fresh(s, m + 1);
      Regroup([s[m]], s[m + 1..n], Fresh(s, n));
      assert s[m..n] == [s[m]] + s[m + 1..n];
    }
  }

  lemma Regroup<T>(a: seq<T>, b: seq<T>, c: seq<T>)
    ensures a + (b + c) == (a + b) + c
  {
  }

  /** Everything from index `n` on is fresh or repeats the element before `n`. */
  lemma {:induction false} FreshKeepsAll<T>(s: seq<T>, n: nat)
    requires n <= |s|
    ensures forall p :: p in Fresh(s, n) ==> p in s[n..]
    ensures forall p :: p in s[n..] ==> p in Fresh(s, n) || (n > 0 && p == s[n - 1])
    decreases |s| - n
  {
    if n < |s| {
      FreshKeepsAll(s, n + 1);
      assert s[n..] == [s[n]] + s[n + 1..];
    }
  }

  lemma ConsStrict(t: Tree, document: bool, p: Path, s: seq<Path>)
    requires Has(t, p) && StrictlySorted(t, document, s)
    requires s != [] ==> SortKey(t, document, p) < SortKey(t, document, s[0])
    ensures StrictlySorted(t, document, [p] + s)
  {
    forall k | 0 <= k < |s|
      ensures SortKey(t, document, p) < SortKey(t, document, s[k])
    {
      assert k > 0 ==> SortKey(t, document, s[0]) < SortKey(t, document, s[k]);
    }
    assert forall i :: 0 < i < |[p] + s| ==> ([p] + s)[i] == s[i - 1];
  }

  lemma {:induction false} FreshFrom(t: Tree, document: bool, s: seq<Path>, n: nat)
    requires Sorted(t, document, s) && 0 < n <= |s|
    ensures StrictlySorted(t, document, [s[n - 1]] + Fresh(s, n))
    decreases |s| - n
  {
    if n < |s| {
      FreshFrom(t, document, s, n + 1);
      if s[n] != s[n - 1] {
        KeysDiffer(t, document, s[n - 1], s[n]);
        ConsStrict(t, document, s[n - 1], [s[n]] + Fresh(s, n + 1));
      } else {
        assert Fresh(s, n) == Fresh(s, n + 1);
      }
    }
  }

  lemma FreshIsStrict(t: Tree, document: bool, s: seq<Path>)
    requires Sorted(t, document, s)
    ensures StrictlySorted(t, document, Fresh(s, 0))
  {
    if s != [] { FreshFrom(t, document, s, 1); }
  }

  /** `Sizzle.uniqueSort`. The platform's sort is given by its result `sorted`, and by whether it
      ever compared a node with itself (`saw`); Sizzle relies on the latter only where its
      feature test found that sorting does so (`detectDuplicates`). */
  method UniqueSort(t: Tree, document: bool, input: seq<Path>, sorted: seq<Path>, saw: bool, detectDuplicates: bool) returns (results: seq<Path>)
    requires multiset(sorted) == multiset(input) && Sorted(t, document, sorted)
    requires detectDuplicates && (exists i :: 0 < i < |sorted| && sorted[i] == sorted[i - 1]) ==> saw
    ensures StrictlySorted(t, document, results)
    ensures forall p :: p in results <==> p in input
  {
    results := sorted;
    var duplicates: seq<nat> := [];
    var hasDuplicate := !detectDuplicates || saw;
    if hasDuplicate {
      duplicates := FindDuplicates(results);
      results := RemoveAt(results, duplicates);
    } else {
      FreshRun(sorted, 0, |sorted|);
      assert sorted == sorted[0..|sorted|] + Fresh(sorted, |sorted|);
    }
    FreshIsStrict(t, document, sorted);
    FreshKeepsAll(sorted, 0);
    SameElements(sorted, input);
  }

  lemma SameElements<T>(a: seq<T>, b: seq<T>)
    requires multiset(a) == multiset(b)
    ensures forall p :: p in a <==> p in b
  {
    assert forall p :: p in a <==> p in multiset(a);
    assert forall p :: p in b <==> p in multiset(b);
  }

  ghost predicate RepeatsOf<T>(s: seq<T>, ds: seq<nat>, n: nat) {
    && (forall k :: 0 <= k < |ds| ==> 0 < ds[k] < n && ds[k] < |s|)
    && (forall k, l :: 0 <= k < l < |ds| ==> ds[k] < ds[l])
    && (forall k :: 0 < k < n && k < |s| ==> (k in ds <==> s[k] == s[k - 1]))
  }

  /** Collects the indices of elements that repeat the one before. */
  method FindDuplicates<T(==)>(results: seq<T>) returns (duplicates: seq<nat>)
    ensures RepeatsOf(results, duplicates, |results|)
  {
    duplicates := [];
    var i := 1;
    while i < |results|
      invariant 1 <= i && RepeatsOf(results, duplicates, i)
    {
      if results[i] == results[i - 1] {
        duplicates := duplicates + [i];
      }
      i := i + 1;
    }
  }

  lemma SpliceOne<T>(s: seq<T>, d: nat, m: nat, rest: seq<T>)
    requires d < m <= |s|
    ensures var r := s[..m] + rest; r[..d] + r[d + 1..] == s[..d] + (s[d + 1..m] + rest)
  {
  }

  /** Splicing out the last repetition before index `m`. */
  lemma {:induction false} SpliceRepeat<T>(s: seq<T>, d: nat, m: nat)
    requires 0 < d < m && NoRepeat(s, d + 1, m) && s[d] == s[d - 1]
    ensures var r := s[..m] + Fresh(s, m);
            d < |r| && r[..d] + r[d + 1..] == s[..d] + Fresh(s, d)
  {
    FreshRun(s, d + 1, m);
    assert Fresh(s, d) == Fresh(s, d + 1);
    SpliceOne(s, d, m, Fresh(s, m));
  }

  /** Removes the elements at the collected indices, from the last to the first. */
  method RemoveAt<T(==)>(sorted: seq<T>, duplicates: seq<nat>) returns (results: seq<T>)
    requires RepeatsOf(sorted, duplicates, |sorted|)
    ensures results == Fresh(sorted, 0)
  {
    results := sorted;
    var j := |duplicates|;
    ghost var m := |sorted|;
    while j > 0
      invariant 0 <= j <= |duplicates|
      invariant m == if j == |duplicates| then |sorted| else duplicates[j]
      invariant results == sorted[..m] + Fresh(sorted, m)
    {
      j := j - 1;
      var d := duplicates[j];
      forall k | d + 1 <= k < m
        ensures sorted[k] != sorted[k - 1]
      {
        NotBetween(duplicates, j, k, m);
      }
      assert d in duplicates;
      SpliceRepeat(sorted, d, m);
      results := results[..d] + results[d + 1..];
      m := d;
    }
    FreshRun(sorted, 0, m);
    assert sorted[0..m] == sorted[..m];
  }

  lemma NotBetween(ds: seq<nat>, j: nat, k: nat, m: nat)
    requires forall x, y :: 0 <= x < y < |ds| ==> ds[x] < ds[y]
    requires j < |ds| && ds[j] < k < m && (j + 1 < |ds| ==> ds[j + 1] == m)
    ensures k !in ds
  {
  }
}
