/** The document tree that Sizzle walks, and what a selector means on it, stated
    without reference to how Sizzle evaluates it (section 8 of CSS Selectors Level 3). */
module Selectors {
  import opened Wrappers


  /** `parentNode` and `previousSibling` as node numbers, -1 standing for null.
      Nodes are numbered in document order; node 0 is the document itself. */
  datatype Document = Document(parent: seq<int>, previous: seq<int>, element: seq<bool>) {

    ghost predicate Valid() {
      && |parent| == |previous| == |element| > 0
      && parent[0] == -1
      && !element[0]
      && (forall n :: 0 <= n < |parent| ==> -1 <= parent[n] < n && -1 <= previous[n] < n)
      && (forall n :: 0 <= n < |parent| ==> IsPrevious(n, previous[n]))
      // only parentless nodes (documents and fragments) are containers that are not elements
      && (forall n :: 0 <= n < |parent| && parent[n] >= 0 && !element[parent[n]] ==> parent[parent[n]] == -1)
    }

    ghost predicate Siblings(p: nat, n: nat)
      requires |parent| == |element|
    {
      p < |parent| && n < |parent| && parent[p] == parent[n] >= 0
    }

    /** `p` is the nearest sibling before `n`, or -1 when there is none. */
    ghost predicate IsPrevious(n: nat, p: int)
      requires |parent| == |element|
    {
      && (p >= 0 ==> p < n && Siblings(p, n))
      && (forall q: nat :: p < q < n ==> !Siblings(q, n))
    }

    ghost predicate Ancestor(p: int, n: nat)
      requires Valid() && n < |parent|
      decreases n
    {
      parent[n] >= 0 && (parent[n] == p || Ancestor(p, parent[n]))
    }
  }

  datatype Direction = ParentNode | PreviousSibling

  /** The entries of `Expr.relative`. */
  datatype Combinator = Child | Descendant | Adjacent | Sibling {
    function Dir(): Direction {
      if Child? || Descendant? then ParentNode else PreviousSibling
    }

    predicate First() {
      Child? || Adjacent?
    }
  }

  /** A token is a combinator or a simple filter (tag, class, id, attribute, ...),
      the latter known only by the pure test it performs. */
  datatype Token = Relative(c: Combinator) | Simple(f: nat)

  /** A search root: one node, or an array of nodes. */
  datatype Context = One(node: nat) | Many(nodes: seq<nat>) {
    ghost predicate Has(n: nat) {
      if One? then node == n else n in nodes
    }
  }

  /** What stays fixed during one outermost match. `outermost` is None when Sizzle's
      `outermostContext` is false, that is when the search starts at the document. */
  datatype Scope = Scope(dom: Document, test: (nat, nat) -> bool, context: Context, outermost: Option<Context>, xml: bool) {
    function Size(): nat {
      |dom.parent|
    }

    ghost predicate Valid() {
      dom.Valid()
    }

    /** Whether every element is taken to lie below the search root. */
    predicate Unrooted() {
      xml || outermost != Some(context)
    }
  }

  /** A complex selector: compound selectors joined by combinators, with an optional
      combinator in front that relates the first compound to the search root. */
  datatype Selector = Selector(leading: Option<Combinator>, compounds: seq<seq<nat>>, joins: seq<Combinator>) {
    predicate WellFormed() {
      |compounds| == |joins| + 1
    }
  }

  function Chain(leading: Option<Combinator>, body: seq<Token>): (s: Selector)
    ensures s.WellFormed() && s.leading == leading
  {
    if body == [] then
      Selector(leading, [[]], [])
    else
      var s := Chain(leading, body[..|body| - 1]);
      match body[|body| - 1]
      case Relative(c) => Selector(leading, s.compounds + [[]], s.joins + [c])
      case Simple(f) =>
        var k := |s.compounds| - 1;
        Selector(leading, s.compounds[k := s.compounds[k] + [f]], s.joins)
  }

  function Leading(tokens: seq<Token>): Option<Combinator>
    requires tokens != []
  {
    if tokens[0].Relative? then Some(tokens[0].c) else None
  }

  function Body(tokens: seq<Token>): seq<Token>
    requires tokens != []
  {
    if tokens[0].Relative? then tokens[1..] else tokens
  }

  function Parse(tokens: seq<Token>): (s: Selector)
    requires tokens != []
    ensures s.WellFormed()
  {
    Chain(Leading(tokens), Body(tokens))
  }

  /** `p` stands to the left of `n` in `p c n`. Search roots need not be elements
      when they are looked for among ancestors (`anchor`). */
  ghost predicate Related(dom: Document, c: Combinator, anchor: bool, p: nat, n: nat)
    requires dom.Valid() && n < |dom.parent|
  {
    && p < |dom.parent|
    && match c
       case Descendant => (anchor || dom.element[p]) && dom.Ancestor(p, n)
       case Child => (anchor || dom.element[p]) && dom.parent[n] == p
       case Sibling => dom.element[p] && p < n && dom.Siblings(p, n)
       case Adjacent =>
         && dom.element[p] && p < n && dom.Siblings(p, n)
         && forall q: nat :: p < q < n && dom.Siblings(q, n) ==> !dom.element[q]
  }

  /** The leftmost element is related to the search root. */
  ghost predicate Rooted(scope: Scope, leading: Option<Combinator>, n: nat)
    requires scope.Valid() && n < scope.Size()
  {
    || (leading.None? && scope.Unrooted())
    || exists r: nat :: scope.context.Has(r) && Related(scope.dom, if leading.Some? then leading.value else Descendant, true, r, n)
  }

  ghost predicate Passes(scope: Scope, compound: seq<nat>, n: nat) {
    forall f :: f in compound ==> scope.test(f, n)
  }

  /** One element for every compound: each passes its compound, neighbours are related by
      the combinator between them, and the first is related to the search root. */
  ghost predicate Assignment(scope: Scope, s: Selector, a: seq<nat>)
    requires scope.Valid() && s.WellFormed()
  {
    && |a| == |s.compounds|
    && (forall i :: 0 <= i < |a| ==> a[i] < scope.Size() && Passes(scope, s.compounds[i], a[i]))
    && (forall i :: 0 <= i < |s.joins| ==> Related(scope.dom, s.joins[i], false, a[i], a[i + 1]))
    && Rooted(scope, s.leading, a[0])
  }

  ghost predicate Accepts(scope: Scope, s: Selector, n: nat)
    requires scope.Valid() && s.WellFormed()
  {
    exists a :: Assignment(scope, s, a) && a[|a| - 1] == n
  }

  // Growing a selector on the right, one token at a time.

  lemma AcceptsRoot(scope: Scope, leading: Option<Combinator>, n: nat)
    requires scope.Valid() && n < scope.Size()
    ensures Accepts(scope, Chain(leading, []), n) <==> Rooted(scope, leading, n)
  {
    var s := Chain(leading, []);
    if Rooted(scope, leading, n) {
      assert Assignment(scope, s, [n]) && [n][|[n]| - 1] == n;
    }
  }

  lemma AcceptsSimple(scope: Scope, leading: Option<Combinator>, body: seq<Token>, f: nat, n: nat)
    requires scope.Valid() && n < scope.Size()
    ensures Accepts(scope, Chain(leading, body + [Simple(f)]), n) <==> Accepts(scope, Chain(leading, body), n) && scope.test(f, n)
  {
    var s, t := Chain(leading, body), Chain(leading, body + [Simple(f)]);
    assert (body + [Simple(f)])[..|body|] == body;
    if Accepts(scope, t, n) {
      var a :| Assignment(scope, t, a) && a[|a| - 1] == n;
      Narrow(scope, s, f, a);
    }
    if Accepts(scope, s, n) && scope.test(f, n) {
      var a :| Assignment(scope, s, a) && a[|a| - 1] == n;
      Narrow(scope, s, f, a);
    }
  }

  /** Adding a filter to the last compound asks one thing more of the last element. */
  lemma Narrow(scope: Scope, s: Selector, f: nat, a: seq<nat>)
    requires scope.Valid() && s.WellFormed() && |a| == |s.compounds|
    ensures var k := |s.compounds| - 1;
            var t := Selector(s.leading, s.compounds[k := s.compounds[k] + [f]], s.joins);
            Assignment(scope, t, a) <==> Assignment(scope, s, a) && scope.test(f, a[k])
  {
  }

  lemma AcceptsRelative(scope: Scope, leading: Option<Combinator>, body: seq<Token>, c: Combinator, n: nat)
    requires scope.Valid() && n < scope.Size()
    ensures Accepts(scope, Chain(leading, body + [Relative(c)]), n)
      <==> exists p: nat :: Related(scope.dom, c, false, p, n) && Accepts(scope, Chain(leading, body), p)
  {
    var s, t := Chain(leading, body), Chain(leading, body + [Relative(c)]);
    assert (body + [Relative(c)])[..|body|] == body;
    if Accepts(scope, t, n) {
      var p := LeftNeighbour(scope, s, c, n);
    }
    if p: nat :| Related(scope.dom, c, false, p, n) && Accepts(scope, s, p) {
      RightNeighbour(scope, s, c, p, n);
    }
  }

  lemma LeftNeighbour(scope: Scope, s: Selector, c: Combinator, n: nat) returns (p: nat)
    requires scope.Valid() && s.WellFormed() && n < scope.Size()
    requires Accepts(scope, Selector(s.leading, s.compounds + [[]], s.joins + [c]), n)
    ensures Related(scope.dom, c, false, p, n) && Accepts(scope, s, p)
  {
    var a :| Assignment(scope, Selector(s.leading, s.compounds + [[]], s.joins + [c]), a) && a[|a| - 1] == n;
    DropLast(scope, s, c, a);
    p := a[|s.joins|];
    assert a[..|s.compounds|][|s.joins|] == p;
  }

  lemma RightNeighbour(scope: Scope, s: Selector, c: Combinator, p: nat, n: nat)
    requires scope.Valid() && s.WellFormed() && n < scope.Size()
    requires Related(scope.dom, c, false, p, n) && Accepts(scope, s, p)
    ensures Accepts(scope, Selector(s.leading, s.compounds + [[]], s.joins + [c]), n)
  {
    var b :| Assignment(scope, s, b) && b[|b| - 1] == p;
    AddLast(scope, s, c, b, n);
    assert (b + [n])[|b + [n]| - 1] == n;
  }

  lemma DropLast(scope: Scope, s: Selector, c: Combinator, a: seq<nat>)
    requires scope.Valid() && s.WellFormed()
    requires Assignment(scope, Selector(s.leading, s.compounds + [[]], s.joins + [c]), a)
    ensures Assignment(scope, s, a[..|s.compounds|])
    ensures Related(scope.dom, c, false, a[|s.joins|], a[|s.joins| + 1])
  {
  }

  lemma AddLast(scope: Scope, s: Selector, c: Combinator, b: seq<nat>, n: nat)
    requires scope.Valid() && s.WellFormed() && n < scope.Size()
    requires Assignment(scope, s, b)
    requires Related(scope.dom, c, false, b[|b| - 1], n)
    ensures Assignment(scope, Selector(s.leading, s.compounds + [[]], s.joins + [c]), b + [n])
  {
  }
}
