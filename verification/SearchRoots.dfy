/** What an outermost match ties its elements to: the context it was called with, or nothing. */
module SearchRoots {
  import opened Wrappers
  import opened Selectors

  /** What the combinators mean: a child has one parent and an adjacent element one predecessor;
      descendants are the children, and theirs in turn, and later siblings are the adjacent ones,
      and theirs in turn. */
  lemma CombinatorsMean(dom: Document, p: nat, q: nat, n: nat)
    requires dom.Valid() && n < |dom.parent|
    ensures Related(dom, Child, false, p, n) && Related(dom, Child, false, q, n) ==> p == q
    ensures Related(dom, Adjacent, false, p, n) && Related(dom, Adjacent, false, q, n) ==> p == q
    ensures Related(dom, Descendant, false, p, n) <==>
      Related(dom, Child, false, p, n) || exists m: nat :: Related(dom, Child, true, m, n) && Related(dom, Descendant, false, p, m)
    ensures Related(dom, Sibling, false, p, n) <==>
      Related(dom, Adjacent, false, p, n) || exists m: nat :: Related(dom, Adjacent, false, m, n) && Related(dom, Sibling, false, p, m)
  {
    if Related(dom, Descendant, false, p, n) && dom.parent[n] != p {
      assert Related(dom, Child, true, dom.parent[n], n) && Related(dom, Descendant, false, p, dom.parent[n]);
    }
    if Related(dom, Sibling, false, p, n) && !Related(dom, Adjacent, false, p, n) {
      var m := Predecessor(dom, p, n);
    }
  }

  /** The last element sibling before `n`, when there is one at or after `p`. */
  lemma Predecessor(dom: Document, p: nat, n: nat) returns (m: nat)
    requires dom.Valid() && n < |dom.parent| && Related(dom, Sibling, false, p, n)
    ensures Related(dom, Adjacent, false, m, n) && (m == p || Related(dom, Sibling, false, p, m))
  {
    m := n - 1;
    while !(dom.element[m] && dom.Siblings(m, n))
      invariant p <= m < n
      invariant forall q: nat :: m < q < n && dom.Siblings(q, n) ==> !dom.element[q]
      decreases m
    {
      m := m - 1;
    }
  }

  /** The scope of an outermost match on `context`; the document is no outermost context. */
  function RunScope(dom: Document, test: (nat, nat) -> bool, context: nat, xml: bool): Scope {
    Scope(dom, test, One(context), if context == 0 then None else Some(One(context)), xml)
  }

  /** One element for every compound, with the combinators between them, wherever they stand. */
  ghost predicate Linked(scope: Scope, s: Selector, a: seq<nat>)
    requires scope.Valid() && s.WellFormed()
  {
    && |a| == |s.compounds|
    && (forall i :: 0 <= i < |a| ==> a[i] < scope.Size() && Passes(scope, s.compounds[i], a[i]))
    && (forall i :: 0 <= i < |s.joins| ==> Related(scope.dom, s.joins[i], false, a[i], a[i + 1]))
  }

  /** In an XML document, and from the document itself, elements are selected wherever they stand. */
  lemma SelectedAnywhere(dom: Document, test: (nat, nat) -> bool, context: nat, xml: bool, s: Selector, n: nat)
    requires dom.Valid() && s.WellFormed() && s.leading.None? && (xml || context == 0)
    ensures var scope := RunScope(dom, test, context, xml);
      Accepts(scope, s, n) <==> exists a :: Linked(scope, s, a) && a[|a| - 1] == n
  {
    var scope := RunScope(dom, test, context, xml);
    if a :| Linked(scope, s, a) && a[|a| - 1] == n {
      assert Assignment(scope, s, a);
    }
    if a :| Assignment(scope, s, a) && a[|a| - 1] == n {
      assert Linked(scope, s, a);
    }
  }

  /** From another context, the first element of the selector stands below it. */
  lemma SelectedBelow(dom: Document, test: (nat, nat) -> bool, context: nat, s: Selector, n: nat)
    requires dom.Valid() && s.WellFormed() && s.leading.None? && 0 < context < |dom.parent|
    ensures var scope := RunScope(dom, test, context, false);
      Accepts(scope, s, n) <==> exists a :: Linked(scope, s, a) && a[|a| - 1] == n && dom.Ancestor(context, a[0])
  {
    var scope := RunScope(dom, test, context, false);
    if a :| Linked(scope, s, a) && a[|a| - 1] == n && dom.Ancestor(context, a[0]) {
      assert scope.context.Has(context) && Related(dom, Descendant, true, context, a[0]);
      assert Assignment(scope, s, a);
    }
    if a :| Assignment(scope, s, a) && a[|a| - 1] == n {
      assert Linked(scope, s, a);
    }
  }

  lemma RelatedIsBelow(dom: Document, c: Combinator, root: nat, p: nat, n: nat)
    requires dom.Valid() && root < |dom.parent| && p < |dom.parent| && n < |dom.parent|
    requires Related(dom, c, false, p, n) && dom.Ancestor(root, p)
    ensures dom.Ancestor(root, n)
  {
    if c.Descendant? {
      AboveAncestor(dom, root, p, n);
    }
  }

  lemma {:induction false} AboveAncestor(dom: Document, q: nat, p: nat, n: nat)
    requires dom.Valid() && q < |dom.parent| && p < |dom.parent| && n < |dom.parent|
    requires dom.Ancestor(q, p) && dom.Ancestor(p, n)
    ensures dom.Ancestor(q, n)
    decreases n
  {
    if dom.parent[n] != p {
      AboveAncestor(dom, q, p, dom.parent[n]);
    }
  }

  lemma {:induction false} LinkedIsBelow(scope: Scope, s: Selector, a: seq<nat>, root: nat, k: nat)
    requires scope.Valid() && s.WellFormed() && Linked(scope, s, a) && k < |a| && root < scope.Size()
    requires scope.dom.Ancestor(root, a[0])
    ensures scope.dom.Ancestor(root, a[k])
  {
    if k > 0 {
      LinkedIsBelow(scope, s, a, root, k - 1);
      RelatedIsBelow(scope.dom, s.joins[k - 1], root, a[k - 1], a[k]);
    }
  }

  /** Nothing outside the context is selected. */
  lemma OnlyBelow(dom: Document, test: (nat, nat) -> bool, context: nat, s: Selector, n: nat)
    requires dom.Valid() && s.WellFormed() && s.leading.None? && 0 < context < |dom.parent|
    requires Accepts(RunScope(dom, test, context, false), s, n)
    ensures n < |dom.parent| && dom.Ancestor(context, n)
  {
    var scope := RunScope(dom, test, context, false);
    SelectedBelow(dom, test, context, s, n);
    var a :| Linked(scope, s, a) && a[|a| - 1] == n && dom.Ancestor(context, a[0]);
    LinkedIsBelow(scope, s, a, context, |a| - 1);
  }

  // Leaving out the check at the document is right.

  /** Of two ancestors, one is above the other; the document is above all. */
  lemma {:induction false} BelowDocument(dom: Document, p: nat, n: nat)
    requires dom.Valid() && p < |dom.parent| && n < |dom.parent| && p != 0
    requires dom.Ancestor(p, n) && dom.Ancestor(0, n)
    ensures dom.Ancestor(0, p)
    decreases n
  {
    if dom.parent[n] != p {
      BelowDocument(dom, p, dom.parent[n]);
    }
  }

  lemma RelativeOfDocument(dom: Document, c: Combinator, p: nat, n: nat)
    requires dom.Valid() && p < |dom.parent| && n < |dom.parent|
    requires Related(dom, c, false, p, n) && dom.Ancestor(0, n)
    ensures dom.Ancestor(0, p)
  {
    if c.Descendant? || c.Child? {
      BelowDocument(dom, p, n);
    }
  }

  lemma {:induction false} LinkedFromDocument(scope: Scope, s: Selector, a: seq<nat>, k: nat)
    requires scope.Valid() && s.WellFormed() && Linked(scope, s, a) && k < |a|
    requires scope.dom.Ancestor(0, a[|a| - 1])
    ensures scope.dom.Ancestor(0, a[k])
    decreases |a| - k
  {
    if k < |a| - 1 {
      LinkedFromDocument(scope, s, a, k + 1);
      RelativeOfDocument(scope.dom, s.joins[k], a[k], a[k + 1]);
    }
  }

  /** An element below the document is selected from there iff it would be with the check. */
  lemma CheckSkipped(dom: Document, test: (nat, nat) -> bool, s: Selector, n: nat)
    requires dom.Valid() && s.WellFormed() && s.leading.None? && n < |dom.parent| && dom.Ancestor(0, n)
    ensures Accepts(RunScope(dom, test, 0, false), s, n) <==> Accepts(Scope(dom, test, One(0), Some(One(0)), false), s, n)
  {
    var scope, checked := RunScope(dom, test, 0, false), Scope(dom, test, One(0), Some(One(0)), false);
    SelectedAnywhere(dom, test, 0, false, s, n);
    if a :| Linked(scope, s, a) && a[|a| - 1] == n {
      LinkedFromDocument(scope, s, a, 0);
      assert checked.context.Has(0) && Related(dom, Descendant, true, 0, a[0]);
      assert Assignment(checked, s, a);
    }
    if a :| Assignment(checked, s, a) && a[|a| - 1] == n {
      assert Linked(scope, s, a);
    }
  }
}
