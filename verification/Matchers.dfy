/** Compiled matchers as data, and the plain uncached search each of them stands for. */
module Matchers {
  import opened Wrappers
  import opened Selectors

  /** The closures that Sizzle's compiler builds. `Walk` is the result of `addCombinator`,
      `done` its private `doneName`; `InContext` is the foundational matcher. */
  datatype Matcher =
    | Filter(f: nat)
    | IsContext
    | IsAnyContext
    | InContext(leading: bool, one: Matcher, any: Matcher)
    | Walk(inner: Matcher, c: Combinator, base: bool, done: nat)
    | All(ms: seq<Matcher>)

  function Step(dom: Document, dir: Direction, n: nat): (p: int)
    requires dom.Valid() && n < |dom.parent|
    ensures -1 <= p < n
  {
    if dir.ParentNode? then dom.parent[n] else dom.previous[n]
  }

  /** Walks see elements; a walk up to the search root sees every ancestor. */
  predicate Visible(dom: Document, c: Combinator, base: bool, n: nat)
    requires dom.Valid() && n < |dom.parent|
  {
    dom.element[n] || (base && c.Dir().ParentNode?)
  }

  /** The outcome of a matcher when every walk is carried out in full. */
  ghost predicate Holds(scope: Scope, m: Matcher, n: nat)
    requires scope.Valid() && n < scope.Size()
    decreases m, n
  {
    match m
    case Filter(f) => scope.test(f, n)
    case IsContext => scope.context.One? && scope.context.node == n
    case IsAnyContext => scope.context.Many? && n in scope.context.nodes
    case InContext(leading, one, any) =>
      (!leading && scope.Unrooted()) || (if scope.context.One? then Holds(scope, one, n) else Holds(scope, any, n))
    case All(ms) => forall k :: 0 <= k < |ms| ==> Holds(scope, ms[k], n)
    case Walk(inner, c, base, _) =>
      var p := Step(scope.dom, c.Dir(), n);
      && p >= 0
      && if Visible(scope.dom, c, base, p) then
           Holds(scope, inner, p) || (!c.First() && Holds(scope, m, p))
         else
           Holds(scope, m, p)
  }

  /** The ancestor and sibling walks inside a matcher that keep memo data. */
  ghost function Walkers(m: Matcher): set<Matcher> {
    match m
    case InContext(_, one, any) => Walkers(one) + Walkers(any)
    case Walk(inner, c, _, _) => Walkers(inner) + (if c.First() then {} else {m})
    case All(ms) => if ms == [] then {} else Walkers(ms[0])
    case _ => {}
  }

  /** Shape of compiled code: only the first of a list of matchers may walk, inner walks
      were named before outer ones, and all names come from [lo, hi). */
  ghost predicate Compiled(m: Matcher, lo: nat, hi: nat) {
    match m
    case InContext(_, one, any) => one.Walk? && any.Walk? && Compiled(one, lo, one.done + 1) && Compiled(any, one.done + 1, hi)
    case Walk(inner, c, _, done) => lo <= done < hi && Compiled(inner, lo, done)
    case All(ms) => lo <= hi && forall k :: 0 <= k < |ms| ==> if k == 0 then Compiled(ms[k], lo, hi) else ms[k].Filter?
    case _ => lo <= hi
  }

  lemma {:induction false} NamesInRange(m: Matcher, lo: nat, hi: nat, w: Matcher)
    requires Compiled(m, lo, hi) && w in Walkers(m)
    ensures w.Walk? && lo <= w.done < hi
  {
    match m
    case InContext(_, one, any) =>
      var mid := one.done + 1;
      if w in Walkers(one) { NamesInRange(one, lo, mid, w); } else { NamesInRange(any, mid, hi, w); }
    case Walk(inner, _, _, done) =>
      if w != m { NamesInRange(inner, lo, done, w); }
    case All(ms) => NamesInRange(ms[0], lo, hi, w);
    case _ =>
  }

  lemma {:induction false} NamesAreUnique(m: Matcher, lo: nat, hi: nat, v: Matcher, w: Matcher)
    requires Compiled(m, lo, hi) && v in Walkers(m) && w in Walkers(m)
    requires v.Walk? && w.Walk? && v.done == w.done
    ensures v == w
  {
    match m
    case InContext(_, one, any) =>
      var mid := one.done + 1;
      if v in Walkers(one) {
        NamesInRange(one, lo, mid, v);
        if w in Walkers(one) { NamesAreUnique(one, lo, mid, v, w); } else { NamesInRange(any, mid, hi, w); }
      } else {
        NamesInRange(any, mid, hi, v);
        if w in Walkers(any) { NamesAreUnique(any, mid, hi, v, w); } else { NamesInRange(one, lo, mid, w); }
      }
    case Walk(inner, _, _, done) =>
      if v != m { NamesInRange(inner, lo, done, v); }
      if w != m { NamesInRange(inner, lo, done, w); }
      if v != m && w != m { NamesAreUnique(inner, lo, done, v, w); }
    case All(ms) => NamesAreUnique(ms[0], lo, hi, v, w);
    case _ =>
  }

  lemma {:induction false} CompiledWider(m: Matcher, lo: nat, hi: nat, lo': nat, hi': nat)
    requires Compiled(m, lo, hi) && lo' <= lo && hi <= hi'
    ensures Compiled(m, lo', hi')
  {
    match m
    case InContext(_, one, any) =>
      var mid := one.done + 1;
      CompiledWider(one, lo, mid, lo', mid);
      CompiledWider(any, mid, hi, mid, hi');
    case Walk(inner, _, _, done) => CompiledWider(inner, lo, done, lo', done);
    case All(ms) => if ms != [] { CompiledWider(ms[0], lo, hi, lo', hi'); }
    case _ =>
  }

  // What a full walk finds.

  /** A walk succeeds iff some node related to the start satisfies what the walk looks for. */
  lemma {:induction false} WalkFinds(scope: Scope, w: Matcher, n: nat)
    requires scope.Valid() && n < scope.Size() && w.Walk?
    ensures Holds(scope, w, n) <==> exists p: nat :: Related(scope.dom, w.c, w.base, p, n) && Holds(scope, w.inner, p)
  {
    match w.c
    case Descendant => AncestorWalk(scope, w, n);
    case Child => ParentWalk(scope, w, n);
    case Sibling => SiblingWalk(scope, w, n);
    case Adjacent => AdjacentWalk(scope, w, n);
  }

  lemma {:induction false} AncestorWalk(scope: Scope, w: Matcher, n: nat)
    requires scope.Valid() && n < scope.Size() && w.Walk? && w.c.Descendant?
    ensures Holds(scope, w, n) <==> exists p: nat :: Related(scope.dom, w.c, w.base, p, n) && Holds(scope, w.inner, p)
  {
    var q := scope.dom.parent[n];
    if q >= 0 {
      AncestorWalk(scope, w, q);
      if Visible(scope.dom, w.c, w.base, q) && Holds(scope, w.inner, q) {
        assert Related(scope.dom, w.c, w.base, q, n);
      } else if p: nat :| Related(scope.dom, w.c, w.base, p, q) && Holds(scope, w.inner, p) {
        assert Related(scope.dom, w.c, w.base, p, n);
      }
      forall p: nat | Related(scope.dom, w.c, w.base, p, n)
        ensures p == q || Related(scope.dom, w.c, w.base, p, q)
      {
      }
    }
  }

  lemma {:induction false} ParentWalk(scope: Scope, w: Matcher, n: nat)
    requires scope.Valid() && n < scope.Size() && w.Walk? && w.c.Child?
    ensures Holds(scope, w, n) <==> exists p: nat :: Related(scope.dom, w.c, w.base, p, n) && Holds(scope, w.inner, p)
  {
    var q := scope.dom.parent[n];
    if q >= 0 && !Visible(scope.dom, w.c, w.base, q) {
      assert scope.dom.parent[q] == -1;
      assert !Holds(scope, w, q);
    } else if q >= 0 && Holds(scope, w.inner, q) {
      assert Related(scope.dom, w.c, w.base, q, n);
    }
  }

  lemma {:induction false} SiblingWalk(scope: Scope, w: Matcher, n: nat)
    requires scope.Valid() && n < scope.Size() && w.Walk? && w.c.Sibling?
    ensures Holds(scope, w, n) <==> exists p: nat :: Related(scope.dom, w.c, w.base, p, n) && Holds(scope, w.inner, p)
  {
    var q := scope.dom.previous[n];
    assert scope.dom.IsPrevious(n, q);
    if q >= 0 {
      SiblingWalk(scope, w, q);
      if Visible(scope.dom, w.c, w.base, q) && Holds(scope, w.inner, q) {
        assert Related(scope.dom, w.c, w.base, q, n);
      } else if p: nat :| Related(scope.dom, w.c, w.base, p, q) && Holds(scope, w.inner, p) {
        assert Related(scope.dom, w.c, w.base, p, n);
      }
      forall p: nat | Related(scope.dom, w.c, w.base, p, n)
        ensures p == q || Related(scope.dom, w.c, w.base, p, q)
      {
      }
    }
  }

  lemma {:induction false} AdjacentWalk(scope: Scope, w: Matcher, n: nat)
    requires scope.Valid() && n < scope.Size() && w.Walk? && w.c.Adjacent?
    ensures Holds(scope, w, n) <==> exists p: nat :: Related(scope.dom, w.c, w.base, p, n) && Holds(scope, w.inner, p)
  {
    var q := scope.dom.previous[n];
    assert scope.dom.IsPrevious(n, q);
    if q >= 0 {
      if scope.dom.element[q] {
        assert Related(scope.dom, w.c, w.base, q, n);
        forall p: nat | Related(scope.dom, w.c, w.base, p, n)
          ensures p == q
        {
        }
      } else {
        AdjacentWalk(scope, w, q);
        forall p: nat
          ensures Related(scope.dom, w.c, w.base, p, n) <==> Related(scope.dom, w.c, w.base, p, q)
        {
        }
      }
    }
  }

  // What the compiler keeps true while it consumes a token list.

  function ElementMatcher(ms: seq<Matcher>): Matcher
    requires ms != []
  {
    if |ms| > 1 then All(ms) else ms[0]
  }

  /** A matcher and a piece of selector agree on every document and search root. */
  ghost predicate Means(m: Matcher, leading: Option<Combinator>, body: seq<Token>) {
    forall scope: Scope, n: nat :: scope.Valid() && n < scope.Size() ==>
      (Holds(scope, m, n) <==> Accepts(scope, Chain(leading, body), n))
  }

  lemma RootHolds(scope: Scope, leading: Option<Combinator>, c: Combinator, one: nat, any: nat, n: nat)
    requires scope.Valid() && n < scope.Size()
    requires c == if leading.Some? then leading.value else Descendant
    ensures Holds(scope, InContext(leading.Some?, Walk(IsContext, c, true, one), Walk(IsAnyContext, c, true, any)), n)
      <==> Rooted(scope, leading, n)
  {
    var m := if scope.context.One? then IsContext else IsAnyContext;
    var w := Walk(m, c, true, if scope.context.One? then one else any);
    WalkFinds(scope, w, n);
    assert forall r: nat :: Related(scope.dom, c, true, r, n) ==> (Holds(scope, m, r) <==> scope.context.Has(r));
  }

  lemma MeansRoot(leading: Option<Combinator>, c: Combinator, one: nat, any: nat)
    requires c == if leading.Some? then leading.value else Descendant
    ensures Means(InContext(leading.Some?, Walk(IsContext, c, true, one), Walk(IsAnyContext, c, true, any)), leading, [])
  {
    var m := InContext(leading.Some?, Walk(IsContext, c, true, one), Walk(IsAnyContext, c, true, any));
    forall scope: Scope, n: nat | scope.Valid() && n < scope.Size()
      ensures Holds(scope, m, n) <==> Accepts(scope, Chain(leading, []), n)
    {
      AcceptsRoot(scope, leading, n);
      RootHolds(scope, leading, c, one, any, n);
    }
  }

  lemma OneMoreFilter(scope: Scope, ms: seq<Matcher>, f: nat, n: nat)
    requires scope.Valid() && n < scope.Size() && ms != []
    ensures Holds(scope, ElementMatcher(ms + [Filter(f)]), n) <==> Holds(scope, ElementMatcher(ms), n) && scope.test(f, n)
  {
    var more := ms + [Filter(f)];
    assert more[|ms|] == Filter(f) && Holds(scope, Filter(f), n) == scope.test(f, n);
    assert forall k :: 0 <= k < |ms| ==> more[k] == ms[k];
    assert Holds(scope, All(more), n) <==> Holds(scope, All(ms), n) && scope.test(f, n);
    assert |ms| == 1 ==> (Holds(scope, All(ms), n) <==> Holds(scope, ms[0], n));
  }

  lemma MeansSimple(ms: seq<Matcher>, leading: Option<Combinator>, body: seq<Token>, f: nat)
    requires ms != [] && Means(ElementMatcher(ms), leading, body)
    ensures Means(ElementMatcher(ms + [Filter(f)]), leading, body + [Simple(f)])
  {
    var m := ElementMatcher(ms + [Filter(f)]);
    forall scope: Scope, n: nat | scope.Valid() && n < scope.Size()
      ensures Holds(scope, m, n) <==> Accepts(scope, Chain(leading, body + [Simple(f)]), n)
    {
      AcceptsSimple(scope, leading, body, f, n);
      OneMoreFilter(scope, ms, f, n);
    }
  }

  lemma MeansRelative(m: Matcher, leading: Option<Combinator>, body: seq<Token>, c: Combinator, done: nat)
    requires Means(m, leading, body)
    ensures Means(Walk(m, c, false, done), leading, body + [Relative(c)])
  {
    var w := Walk(m, c, false, done);
    forall scope: Scope, n: nat | scope.Valid() && n < scope.Size()
      ensures Holds(scope, w, n) <==> Accepts(scope, Chain(leading, body + [Relative(c)]), n)
    {
      AcceptsRelative(scope, leading, body, c, n);
      WalkFinds(scope, w, n);
      assert forall p: nat :: p < scope.Size() ==> (Holds(scope, m, p) <==> Accepts(scope, Chain(leading, body), p));
    }
  }
}
