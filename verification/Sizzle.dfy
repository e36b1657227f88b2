/** Sizzle's compiler and its memoising matcher. */
module Sizzle {
  import opened Wrappers
  import opened Selectors
  import opened Matchers
  import opened SearchRoots

  /** Where memo data lives: on a node, one place for each direction. */
  datatype Spot = Spot(node: nat, dir: Direction)

  /** No answer yet, then a match, or a miss with the number of the element it was found for. */
  datatype Memo = Pending | Hit | Miss(at: nat)

  /** `run` and `done` make up the dirkey. */
  datatype Entry = Entry(run: nat, done: nat, memo: Memo)

  type Cache = map<Spot, Entry>

  /** The entry that the walk `w` recognises as its own at a spot. */
  predicate Own(cache: Cache, run: nat, w: Matcher, s: Spot)
    requires w.Walk?
  {
    s in cache && cache[s].run == run && cache[s].done == w.done && s.dir == w.c.Dir()
  }

  /** What each matcher answers on each node when nothing is remembered. */
  type Answers = (Matcher, nat) -> bool

  ghost function FullSearch(scope: Scope): Answers
    requires scope.Valid()
  {
    (m: Matcher, n: nat) => scope.Valid() && n < scope.Size() && Holds(scope, m, n)
  }

  ghost predicate Distinct(ws: set<Matcher>) {
    && (forall w :: w in ws ==> w.Walk?)
    && (forall v, w :: v in ws && w in ws && v.done == w.done ==> v == w)
  }

  /** Memo data is truthful: a hit is a node the walk is looking for, a miss is not one. */
  ghost predicate Truthful(h: Answers, ws: set<Matcher>, run: nat, now: nat, cache: Cache)
    requires Distinct(ws)
  {
    forall w, s :: w in ws && Own(cache, run, w, s) ==>
      match cache[s].memo
      case Pending => true
      case Hit => h(w.inner, s.node)
      case Miss(at) => !h(w.inner, s.node) && at <= now
  }

  /** No walk of `ws` is under way, and a miss recorded for the element now being tested
      means that the walk finds nothing further along either. */
  ghost predicate Settled(h: Answers, ws: set<Matcher>, run: nat, now: nat, cache: Cache)
    requires Distinct(ws)
  {
    forall w, s :: w in ws && Own(cache, run, w, s) ==>
      cache[s].memo != Pending && (cache[s].memo == Miss(now) ==> !h(w, s.node))
  }

  ghost predicate Idle(ws: set<Matcher>, run: nat, cache: Cache)
    requires Distinct(ws)
  {
    forall w, s :: w in ws && Own(cache, run, w, s) ==> cache[s].memo != Pending
  }

  /** Every entry is one from `before`, or was written by a walk of `ws` on a node before `n`. */
  ghost predicate Wrote(ws: set<Matcher>, run: nat, n: nat, before: Cache, after: Cache)
    requires Distinct(ws)
  {
    && before.Keys <= after.Keys
    && forall s :: s in after ==>
         || (s in before && before[s] == after[s])
         || (s.node < n && after[s].run == run && exists w :: w in ws && after[s].done == w.done)
  }

  /** Walks of `mine` leave the entries of all other walks as they were. */
  lemma OthersUndisturbed(h: Answers, mine: set<Matcher>, theirs: set<Matcher>, ws: set<Matcher>,
                          run: nat, now: nat, n: nat, before: Cache, after: Cache)
    requires Distinct(ws) && mine <= ws && theirs <= ws
    requires Settled(h, theirs, run, now, before)
    requires Wrote(mine, run, n, before, after)
    ensures Settled(h, theirs - mine, run, now, after)
  {
  }

  /** The walk `m`, started at `n` and yet to look at nodes up to `at`, has passed only nodes
      that fail: whatever it recorded as a miss is safe if the walk itself comes to nothing. */
  ghost predicate Passing(h: Answers, m: Matcher, n: nat, at: int, run: nat, now: nat, cache: Cache)
    requires m.Walk?
  {
    forall s :: Own(cache, run, m, s) ==>
      cache[s].memo != Pending && (cache[s].memo == Miss(now) && h(m, s.node) ==> s.node > at && h(m, n))
  }

  /** Opening an entry for `m` disturbs none of its inner walks. */
  lemma OpenEntry(h: Answers, m: Matcher, inner: set<Matcher>, ws: set<Matcher>, run: nat, now: nat, elem: nat, n: nat,
                  before: Cache, cache: Cache)
    requires Distinct(ws) && m in ws && inner <= ws && m !in inner && elem < n
    requires Truthful(h, ws, run, now, cache) && Settled(h, inner, run, now, cache)
    requires Wrote(inner + {m}, run, n, before, cache)
    ensures var pending := cache[Spot(elem, m.c.Dir()) := Entry(run, m.done, Pending)];
            && Truthful(h, ws, run, now, pending)
            && Settled(h, inner, run, now, pending)
            && Wrote(inner + {m}, run, n, before, pending)
  {
  }

  /** Filling the entry in with the answer for its node. */
  lemma CloseEntry(h: Answers, m: Matcher, inner: set<Matcher>, ws: set<Matcher>, run: nat, now: nat, elem: nat, n: nat,
                   before: Cache, cache: Cache, answered: Cache, b: bool)
    requires Distinct(ws) && m in ws && inner <= ws && m !in inner && elem < n
    requires Passing(h, m, n, elem, run, now, cache)
    requires Wrote(inner + {m}, run, n, before, cache)
    requires Wrote(inner, run, elem, cache[Spot(elem, m.c.Dir()) := Entry(run, m.done, Pending)], answered)
    requires Truthful(h, ws, run, now, answered) && Idle(inner, run, answered)
    requires b == h(m.inner, elem)
    requires !b ==> h(m, elem) ==> h(m, n)
    ensures var closed := answered[Spot(elem, m.c.Dir()) := Entry(run, m.done, if b then Hit else Miss(now))];
            && Truthful(h, ws, run, now, closed)
            && Passing(h, m, n, elem - 1, run, now, closed)
            && Idle(inner, run, closed)
            && (Settled(h, inner, run, now, answered) ==> Settled(h, inner, run, now, closed))
            && Wrote(inner + {m}, run, n, before, closed)
  {
    var s := Spot(elem, m.c.Dir());
    var closed := answered[s := Entry(run, m.done, if b then Hit else Miss(now))];
    forall t | Own(closed, run, m, t) && t != s
      ensures Own(cache, run, m, t) && cache[t] == closed[t]
    {
    }
    forall w, t | w in inner && Own(closed, run, w, t)
      ensures t != s && Own(answered, run, w, t)
    {
    }
  }

  /** What `Match` may rely on. `ws` collects every memoising walk of the run. */
  ghost predicate Ready(scope: Scope, m: Matcher, n: nat, ws: set<Matcher>, lo: nat, hi: nat, run: nat, now: nat, cache: Cache) {
    && scope.Valid() && n < scope.Size()
    && Compiled(m, lo, hi) && Walkers(m) <= ws && Distinct(ws)
    && Truthful(FullSearch(scope), ws, run, now, cache)
    && Settled(FullSearch(scope), Walkers(m), run, now, cache)
  }

  /** What `Match` leaves behind when it answers `b`. */
  ghost predicate Answered(scope: Scope, m: Matcher, n: nat, ws: set<Matcher>, run: nat, now: nat, before: Cache, after: Cache, b: bool)
    requires scope.Valid() && Walkers(m) <= ws && Distinct(ws)
  {
    && Truthful(FullSearch(scope), ws, run, now, after)
    && Idle(Walkers(m), run, after)
    && (!b ==> Settled(FullSearch(scope), Walkers(m), run, now, after))
    && Wrote(Walkers(m), run, n, before, after)
    && (scope.xml ==> after == before)
  }

  class Engine {
    const dom: Document
    const test: (nat, nat) -> bool

    // Sizzle's closure variables, and the memo data kept on the nodes
    var dirruns: nat
    var cachedruns: nat
    var done: nat
    var outermostContext: Option<Context>
    var cache: Cache

    constructor (dom: Document, test: (nat, nat) -> bool)
      requires dom.Valid()
      ensures this.dom == dom && this.test == test && Valid()
    {
      this.dom, this.test := dom, test;
      dirruns, cachedruns, done, outermostContext, cache := 0, 0, 0, None, map[];
    }

    ghost predicate Valid()
      reads this
    {
      dom.Valid() && forall s :: s in cache ==> s.node < |dom.parent| && cache[s].run <= dirruns
    }

    function View(context: Context, xml: bool): Scope
      reads this
    {
      Scope(dom, test, context, outermostContext, xml)
    }

    /** Runs a compiled matcher on a node. */
    method Match(m: Matcher, n: nat, context: Context, xml: bool, ghost ws: set<Matcher>, ghost lo: nat, ghost hi: nat) returns (b: bool)
      requires Ready(View(context, xml), m, n, ws, lo, hi, dirruns, cachedruns, cache)
      modifies this`cache
      ensures b == Holds(View(context, xml), m, n)
      ensures Answered(View(context, xml), m, n, ws, dirruns, cachedruns, old(cache), cache, b)
      decreases m, 1
    {
      match m
      case Filter(f) => b := test(f, n);
      case IsContext => b := context.One? && context.node == n;
      case IsAnyContext => b := context.Many? && n in context.nodes;
      case InContext(_, _, _) => b := MatchContext(m, n, context, xml, ws, lo, hi);
      case All(_) => b := MatchAll(m, n, context, xml, ws, lo, hi);
      case Walk(_, c, _, _) =>
        if c.First() {
          b := FirstWalk(m, n, context, xml, ws, lo, hi);
        } else if xml {
          b := PlainWalk(m, n, context, xml, ws, lo, hi);
        } else {
          b := MemoWalk(m, n, context, xml, ws, lo, hi);
        }
    }

    /** The first matcher of every list ties the element to the search root. */
    method MatchContext(m: Matcher, n: nat, context: Context, xml: bool, ghost ws: set<Matcher>, ghost lo: nat, ghost hi: nat) returns (b: bool)
      requires m.InContext?
      requires Ready(View(context, xml), m, n, ws, lo, hi, dirruns, cachedruns, cache)
      modifies this`cache
      ensures b == Holds(View(context, xml), m, n)
      ensures Answered(View(context, xml), m, n, ws, dirruns, cachedruns, old(cache), cache, b)
      decreases m, 0
    {
      ghost var scope := View(context, xml);
      var leading, one, any := m.leading, m.one, m.any;
      if !leading && (xml || outermostContext != Some(context)) {
        b := true;
      } else if context.One? {
        b := Match(one, n, context, xml, ws, lo, one.done + 1);
        OthersUndisturbed(FullSearch(scope), Walkers(one), Walkers(any), ws, dirruns, cachedruns, n, old(cache), cache);
      } else {
        b := Match(any, n, context, xml, ws, one.done + 1, hi);
        OthersUndisturbed(FullSearch(scope), Walkers(any), Walkers(one), ws, dirruns, cachedruns, n, old(cache), cache);
      }
    }

    /** Every matcher of a list, from the last to the first. */
    method MatchAll(m: Matcher, n: nat, context: Context, xml: bool, ghost ws: set<Matcher>, ghost lo: nat, ghost hi: nat) returns (b: bool)
      requires m.All?
      requires Ready(View(context, xml), m, n, ws, lo, hi, dirruns, cachedruns, cache)
      modifies this`cache
      ensures b == Holds(View(context, xml), m, n)
      ensures Answered(View(context, xml), m, n, ws, dirruns, cachedruns, old(cache), cache, b)
      decreases m, 0
    {
      ghost var scope := View(context, xml);
      var i := |m.ms|;
      while i > 0
        invariant 0 <= i <= |m.ms|
        invariant forall k :: i <= k < |m.ms| ==> Holds(scope, m.ms[k], n)
        invariant i > 0 ==> cache == old(cache)
        invariant i == 0 ==> Answered(scope, m, n, ws, dirruns, cachedruns, old(cache), cache, true)
      {
        i := i - 1;
        b := Match(m.ms[i], n, context, xml, ws, lo, hi);
        if !b {
          return;
        }
      }
      b := true;
    }

    /** Child and adjacent: the nearest node in the direction decides. */
    method FirstWalk(m: Matcher, n: nat, context: Context, xml: bool, ghost ws: set<Matcher>, ghost lo: nat, ghost hi: nat) returns (b: bool)
      requires m.Walk? && m.c.First()
      requires Ready(View(context, xml), m, n, ws, lo, hi, dirruns, cachedruns, cache)
      modifies this`cache
      ensures b == Holds(View(context, xml), m, n)
      ensures Answered(View(context, xml), m, n, ws, dirruns, cachedruns, old(cache), cache, b)
      decreases m, 0
    {
      ghost var scope := View(context, xml);
      var elem := Step(dom, m.c.Dir(), n);
      while elem >= 0
        invariant -1 <= elem < n
        invariant Holds(scope, m, n) <==>
          elem >= 0 && (if Visible(dom, m.c, m.base, elem) then Holds(scope, m.inner, elem) else Holds(scope, m, elem))
      {
        if Visible(dom, m.c, m.base, elem) {
          b := Match(m.inner, elem, context, xml, ws, lo, m.done);
          return;
        }
        elem := Step(dom, m.c.Dir(), elem);
      }
      b := false;
    }

    /** Descendant and sibling on XML nodes, which carry no memo data. */
    method PlainWalk(m: Matcher, n: nat, context: Context, xml: bool, ghost ws: set<Matcher>, ghost lo: nat, ghost hi: nat) returns (b: bool)
      requires m.Walk? && !m.c.First() && xml
      requires Ready(View(context, xml), m, n, ws, lo, hi, dirruns, cachedruns, cache)
      modifies this`cache
      ensures b == Holds(View(context, xml), m, n)
      ensures Answered(View(context, xml), m, n, ws, dirruns, cachedruns, old(cache), cache, b)
      decreases m, 0
    {
      ghost var scope := View(context, xml);
      var elem := Step(dom, m.c.Dir(), n);
      while elem >= 0
        invariant -1 <= elem < n
        invariant cache == old(cache)
        invariant Holds(scope, m, n) <==>
          elem >= 0 && ((Visible(dom, m.c, m.base, elem) && Holds(scope, m.inner, elem)) || Holds(scope, m, elem))
      {
        if Visible(dom, m.c, m.base, elem) {
          b := Match(m.inner, elem, context, xml, ws, lo, m.done);
          if b {
            return;
          }
        }
        elem := Step(dom, m.c.Dir(), elem);
      }
      b := false;
    }

    /** Descendant and sibling, stopping as soon as the memo data allow. */
    method MemoWalk(m: Matcher, n: nat, context: Context, xml: bool, ghost ws: set<Matcher>, ghost lo: nat, ghost hi: nat) returns (b: bool)
      requires m.Walk? && !m.c.First() && !xml
      requires Ready(View(context, xml), m, n, ws, lo, hi, dirruns, cachedruns, cache)
      modifies this`cache
      ensures b == Holds(View(context, xml), m, n)
      ensures Answered(View(context, xml), m, n, ws, dirruns, cachedruns, old(cache), cache, b)
      decreases m, 0, 1
    {
      ghost var scope, inner := View(context, xml), Walkers(m.inner);
      ghost var h := FullSearch(scope);
      InnerWalksAreOthers(m, lo, hi);
      var dir := m.c.Dir();
      var elem := Step(dom, dir, n);
      while elem >= 0
        invariant -1 <= elem < n
        invariant h(m, n) <==> elem >= 0 && ((Visible(dom, m.c, m.base, elem) && h(m.inner, elem)) || h(m, elem))
        invariant Truthful(h, ws, dirruns, cachedruns, cache)
        invariant Settled(h, inner, dirruns, cachedruns, cache)
        invariant Passing(h, m, n, elem, dirruns, cachedruns, cache)
        invariant Wrote(inner + {m}, dirruns, n, old(cache), cache)
      {
        if Visible(dom, m.c, m.base, elem) {
          var s := Spot(elem, dir);
          if s in cache && cache[s].run == dirruns && cache[s].done == m.done {
            assert Own(cache, dirruns, m, s);
            if cache[s].memo == Hit || cache[s].memo == Miss(cachedruns) {
              b := cache[s].memo == Hit;
              return;
            }
          } else {
            b := Probe(m, n, elem, context, xml, ws, lo, hi, old(cache));
            if b {
              return;
            }
          }
        }
        elem := Step(dom, dir, elem);
      }
      b := false;
    }

    /** Asks the inner matcher about a node the walk `m` has not seen in this run. */
    method Probe(m: Matcher, n: nat, elem: nat, context: Context, xml: bool, ghost ws: set<Matcher>, ghost lo: nat, ghost hi: nat,
                 ghost before: Cache) returns (b: bool)
      requires dom.Valid() && elem < n < |dom.parent|
      requires m.Walk? && !m.c.First() && !xml && Compiled(m, lo, hi) && Walkers(m) <= ws && Distinct(ws) && m !in Walkers(m.inner)
      requires Truthful(FullSearch(View(context, xml)), ws, dirruns, cachedruns, cache)
      requires Settled(FullSearch(View(context, xml)), Walkers(m.inner), dirruns, cachedruns, cache)
      requires Passing(FullSearch(View(context, xml)), m, n, elem, dirruns, cachedruns, cache)
      requires Wrote(Walkers(m.inner) + {m}, dirruns, n, before, cache)
      requires FullSearch(View(context, xml))(m.inner, elem) || FullSearch(View(context, xml))(m, elem) == FullSearch(View(context, xml))(m, n)
      modifies this`cache
      ensures b == Holds(View(context, xml), m.inner, elem)
      ensures Truthful(FullSearch(View(context, xml)), ws, dirruns, cachedruns, cache)
      ensures Idle(Walkers(m.inner), dirruns, cache)
      ensures !b ==> Settled(FullSearch(View(context, xml)), Walkers(m.inner), dirruns, cachedruns, cache)
      ensures Passing(FullSearch(View(context, xml)), m, n, elem - 1, dirruns, cachedruns, cache)
      ensures Wrote(Walkers(m.inner) + {m}, dirruns, n, before, cache)
      decreases m, 0, 0
    {
      ghost var h, inner, unopened := FullSearch(View(context, xml)), Walkers(m.inner), cache;
      var s := Spot(elem, m.c.Dir());
      OpenEntry(h, m, inner, ws, dirruns, cachedruns, elem, n, before, cache);
      cache := cache[s := Entry(dirruns, m.done, Pending)];
      b := Match(m.inner, elem, context, xml, ws, lo, m.done);
      CloseEntry(h, m, inner, ws, dirruns, cachedruns, elem, n, before, unopened, cache, b);
      cache := cache[s := Entry(dirruns, m.done, if b then Hit else Miss(cachedruns))];
    }

    // The compiler

    method AddCombinator(inner: Matcher, c: Combinator, base: bool) returns (m: Matcher)
      modifies this`done
      ensures m == Walk(inner, c, base, old(done)) && done == old(done) + 1
    {
      m := Walk(inner, c, base, done);
      done := done + 1;
    }

    /** Turns a token list, read from left to right, into a matcher that works from right to left. */
    method MatcherFromTokens(tokens: seq<Token>) returns (m: Matcher)
      requires tokens != []
      modifies this`done
      ensures old(done) <= done && Compiled(m, old(done), done)
      ensures Means(m, Leading(tokens), Body(tokens))
    {
      ghost var leading := Leading(tokens);
      var leadingRelative := tokens[0].Relative?;
      var implicitRelative := if leadingRelative then tokens[0].c else Descendant;
      var i := if leadingRelative then 1 else 0;
      ghost var body := Body(tokens);
      ghost var start := i;
      var matchContext := AddCombinator(IsContext, implicitRelative, true);
      var matchAnyContext := AddCombinator(IsAnyContext, implicitRelative, true);
      var matchers := [InContext(leadingRelative, matchContext, matchAnyContext)];
      MeansRoot(leading, implicitRelative, old(done), old(done) + 1);
      assert body[..0] == [];
      while i < |tokens|
        invariant start <= i <= |tokens|
        invariant matchers != [] && old(done) <= done
        invariant forall k :: 1 <= k < |matchers| ==> matchers[k].Filter?
        invariant Compiled(matchers[0], old(done), done)
        invariant Means(ElementMatcher(matchers), leading, body[..i - start])
      {
        assert body[..i + 1 - start] == body[..i - start] + [tokens[i]];
        match tokens[i] {
        case Relative(c) =>
          MeansRelative(ElementMatcher(matchers), leading, body[..i - start], c, done);
          var walk := AddCombinator(ElementMatcher(matchers), c, false);
          matchers := [walk];
        case Simple(f) =>
          MeansSimple(matchers, leading, body[..i - start], f);
          matchers := matchers + [Filter(f)];
        }
        i := i + 1;
      }
      assert body[..i - start] == body;
      m := ElementMatcher(matchers);
    }

    /** Compiles the comma-separated groups of a selector, the last one first. */
    method Compile(groups: seq<seq<Token>>) returns (ms: seq<Matcher>)
      requires [] !in groups
      modifies this`done
      ensures Interprets(ms, groups)
    {
      ms := [];
      var i := |groups|;
      ghost var first := done;
      while i > 0
        invariant 0 <= i <= |groups|
        invariant first <= done && Interprets(ms, groups[i..])
        invariant forall k :: 0 <= k < |ms| ==> Compiled(ms[k], first, done)
      {
        i := i - 1;
        ghost var mid := done;
        assert groups[i] in groups;
        var m := MatcherFromTokens(groups[i]);
        ExtendGroups(ms, groups[i + 1..], m, groups[i], first, mid, done);
        assert groups[i..] == [groups[i]] + groups[i + 1..];
        ms := ms + [m];
      }
      assert groups[0..] == groups;
    }
  }

  ghost function AllWalkers(ms: seq<Matcher>): (ws: set<Matcher>)
    ensures forall k :: 0 <= k < |ms| ==> Walkers(ms[k]) <= ws
    ensures forall w :: w in ws ==> exists k :: 0 <= k < |ms| && w in Walkers(ms[k])
  {
    set k, w | 0 <= k < |ms| && w in Walkers(ms[k]) :: w
  }

  ghost predicate IsCompiled(m: Matcher) {
    exists lo: nat, hi: nat :: Compiled(m, lo, hi)
  }

  ghost predicate AnyHolds(scope: Scope, ms: seq<Matcher>, n: nat)
    requires scope.Valid() && n < scope.Size()
  {
    exists k :: 0 <= k < |ms| && Holds(scope, ms[k], n)
  }

  ghost predicate AnyAccepts(scope: Scope, groups: seq<seq<Token>>, n: nat)
    requires scope.Valid() && [] !in groups
  {
    exists k :: 0 <= k < |groups| && Accepts(scope, Parse(groups[k]), n)
  }

  /** A list of element matchers that stands for a list of complex selectors. */
  ghost predicate Interprets(ms: seq<Matcher>, groups: seq<seq<Token>>) {
    && [] !in groups
    && (forall k :: 0 <= k < |ms| ==> IsCompiled(ms[k]))
    && Distinct(AllWalkers(ms))
    && (forall scope: Scope, n: nat :: scope.Valid() && n < scope.Size() ==>
         (AnyHolds(scope, ms, n) <==> AnyAccepts(scope, groups, n)))
  }

  lemma ExtendGroups(ms: seq<Matcher>, groups: seq<seq<Token>>, m: Matcher, g: seq<Token>, lo: nat, mid: nat, hi: nat)
    requires Interprets(ms, groups) && g != []
    requires lo <= mid <= hi && Compiled(m, mid, hi)
    requires forall k :: 0 <= k < |ms| ==> Compiled(ms[k], lo, mid)
    requires Means(m, Leading(g), Body(g))
    ensures Interprets(ms + [m], [g] + groups)
    ensures forall k :: 0 <= k < |ms + [m]| ==> Compiled((ms + [m])[k], lo, hi)
  {
    var ns, hs := ms + [m], [g] + groups;
    forall k | 0 <= k < |ns|
      ensures Compiled(ns[k], lo, hi) && IsCompiled(ns[k])
    {
      if k < |ms| { CompiledWider(ms[k], lo, mid, lo, hi); } else { CompiledWider(m, mid, hi, lo, hi); }
    }
    WalkersStayDistinct(ms, m, lo, mid, hi);
    forall scope: Scope, n: nat | scope.Valid() && n < scope.Size()
      ensures AnyHolds(scope, ns, n) <==> AnyAccepts(scope, hs, n)
    {
      OneMoreMatcher(scope, ms, m, n);
      OneMoreSelector(scope, groups, g, n);
    }
  }

  lemma WalkersStayDistinct(ms: seq<Matcher>, m: Matcher, lo: nat, mid: nat, hi: nat)
    requires lo <= mid <= hi && Compiled(m, mid, hi)
    requires forall k :: 0 <= k < |ms| ==> Compiled(ms[k], lo, mid)
    requires Distinct(AllWalkers(ms))
    ensures Distinct(AllWalkers(ms + [m]))
  {
    var ns := ms + [m];
    forall w | w in AllWalkers(ns)
      ensures w.Walk? && if w in Walkers(m) then mid <= w.done else w in AllWalkers(ms) && w.done < mid
    {
      var k :| 0 <= k < |ns| && w in Walkers(ns[k]);
      if w in Walkers(m) { NamesInRange(m, mid, hi, w); } else { NamesInRange(ms[k], lo, mid, w); }
    }
    forall v, w | v in AllWalkers(ns) && w in AllWalkers(ns) && v.done == w.done
      ensures v == w
    {
      if v in Walkers(m) && w in Walkers(m) {
        NamesAreUnique(m, mid, hi, v, w);
      } else {
        assert v !in Walkers(m) && w !in Walkers(m);
      }
    }
  }

  lemma OneMoreMatcher(scope: Scope, ms: seq<Matcher>, m: Matcher, n: nat)
    requires scope.Valid() && n < scope.Size()
    ensures AnyHolds(scope, ms + [m], n) <==> AnyHolds(scope, ms, n) || Holds(scope, m, n)
  {
    var ns := ms + [m];
    assert ns[|ms|] == m;
    assert forall k :: 0 <= k < |ms| ==> ns[k] == ms[k];
  }

  lemma OneMoreSelector(scope: Scope, groups: seq<seq<Token>>, g: seq<Token>, n: nat)
    requires scope.Valid() && [] !in groups && g != []
    ensures AnyAccepts(scope, [g] + groups, n) <==> AnyAccepts(scope, groups, n) || Accepts(scope, Parse(g), n)
  {
    var hs := [g] + groups;
    assert hs[0] == g;
    forall k | 0 <= k < |groups|
      ensures hs[k + 1] == groups[k]
    {
    }
    if k :| 0 <= k < |hs| && Accepts(scope, Parse(hs[k]), n) {
      assert k > 0 ==> hs[k] == groups[k - 1];
    }
    if k :| 0 <= k < |groups| && Accepts(scope, Parse(groups[k]), n) {
      assert hs[k + 1] == groups[k];
    }
  }

  /** The elements of a list that some group of the selector accepts. */
  ghost function Selected(scope: Scope, groups: seq<seq<Token>>, elems: seq<nat>): seq<nat>
    requires scope.Valid() && [] !in groups && forall k :: 0 <= k < |elems| ==> elems[k] < scope.Size()
  {
    if elems == [] then [] else
      var k := |elems| - 1;
      Selected(scope, groups, elems[..k]) +
        (if AnyAccepts(scope, groups, elems[k]) then [elems[k]] else [])
  }

  /** Element by element: those that some group accepts, each as often as it comes, in order. */
  lemma {:induction false} SelectedParts(scope: Scope, groups: seq<seq<Token>>, a: seq<nat>, b: seq<nat>)
    requires scope.Valid() && [] !in groups
    requires (forall k :: 0 <= k < |a| ==> a[k] < scope.Size()) && forall k :: 0 <= k < |b| ==> b[k] < scope.Size()
    ensures Selected(scope, groups, a + b) == Selected(scope, groups, a) + Selected(scope, groups, b)
    ensures |b| == 1 ==> Selected(scope, groups, b) == if exists g :: g in groups && Accepts(scope, Parse(g), b[0]) then b else []
  {
    if b == [] {
      assert a + b == a;
    } else {
      var k := |b| - 1;
      assert (a + b)[..|a + b| - 1] == a + b[..k];
      SelectedParts(scope, groups, a, b[..k]);
      if |b| == 1 {
        assert b[..0] == [] && b == [b[0]];
        if g :| g in groups && Accepts(scope, Parse(g), b[0]) {
          var i :| 0 <= i < |groups| && groups[i] == g;
          assert Accepts(scope, Parse(groups[i]), b[0]);
        }
      }
    }
  }

  /** The elements of a list that some matcher of the list accepts. */
  ghost function Filtered(scope: Scope, ms: seq<Matcher>, elems: seq<nat>): seq<nat>
    requires scope.Valid() && forall k :: 0 <= k < |elems| ==> elems[k] < scope.Size()
  {
    if elems == [] then [] else
      var k := |elems| - 1;
      Filtered(scope, ms, elems[..k]) + (if AnyHolds(scope, ms, elems[k]) then [elems[k]] else [])
  }

  lemma {:induction false} FilteredIsSelected(scope: Scope, ms: seq<Matcher>, groups: seq<seq<Token>>, elems: seq<nat>)
    requires scope.Valid() && Interprets(ms, groups) && forall k :: 0 <= k < |elems| ==> elems[k] < scope.Size()
    ensures Filtered(scope, ms, elems) == Selected(scope, groups, elems)
  {
    if elems != [] {
      FilteredIsSelected(scope, ms, groups, elems[..|elems| - 1]);
    }
  }

  /** Having tried one matcher of the list, the others are where they were. */
  lemma TriedOne(scope: Scope, m: Matcher, n: nat, ws: set<Matcher>, run: nat, now: nat, before: Cache, after: Cache, b: bool)
    requires scope.Valid() && Walkers(m) <= ws && Distinct(ws)
    requires Settled(FullSearch(scope), ws, run, now, before)
    requires Answered(scope, m, n, ws, run, now, before, after, b)
    ensures Idle(ws, run, after)
    ensures !b ==> Settled(FullSearch(scope), ws, run, now, after)
  {
    OthersUndisturbed(FullSearch(scope), Walkers(m), ws, ws, run, now, n, before, after);
  }

  /** Going on to the next element, every miss becomes one of an earlier element. */
  lemma NextElement(h: Answers, ws: set<Matcher>, run: nat, now: nat, cache: Cache)
    requires Distinct(ws) && Truthful(h, ws, run, now, cache) && Idle(ws, run, cache)
    ensures Truthful(h, ws, run, now + 1, cache) && Settled(h, ws, run, now + 1, cache)
  {
  }

  /** The closure made by `matcherFromGroupMatchers`, for selectors without positional pseudos. */
  class SuperMatcher {
    const elementMatchers: seq<Matcher>
    ghost const groups: seq<seq<Token>>
    var matcherCachedRuns: nat

    constructor (ms: seq<Matcher>, ghost groups: seq<seq<Token>>)
      ensures elementMatchers == ms && this.groups == groups
    {
      elementMatchers, this.groups, matcherCachedRuns := ms, groups, 0;
    }

    ghost predicate Usable() {
      Distinct(AllWalkers(elementMatchers)) && forall k :: 0 <= k < |elementMatchers| ==> IsCompiled(elementMatchers[k])
    }

    /** One outermost match over the elements `elems`, in that order. */
    method Run(engine: Engine, elems: seq<nat>, context: nat, xml: bool, results: seq<nat>) returns (r: seq<nat>)
      requires engine.Valid() && engine.outermostContext.None?
      requires Interprets(elementMatchers, groups)
      requires forall k :: 0 <= k < |elems| ==> elems[k] < |engine.dom.parent|
      modifies this, engine
      ensures engine.Valid() && engine.outermostContext.None?
      ensures r == results + Selected(RunScope(engine.dom, engine.test, context, xml), groups, elems)
    {
      engine.dirruns := engine.dirruns + 1;
      engine.outermostContext := if context == 0 then None else Some(One(context));
      engine.cachedruns := matcherCachedRuns;
      r := MatchEach(engine, elems, context, xml, results);
      FilteredIsSelected(engine.View(One(context), xml), elementMatchers, groups, elems);
      engine.outermostContext := None;
    }

    method MatchEach(engine: Engine, elems: seq<nat>, context: nat, xml: bool, results: seq<nat>) returns (r: seq<nat>)
      requires engine.Valid() && Usable()
      requires forall s :: s in engine.cache ==> engine.cache[s].run != engine.dirruns
      requires engine.cachedruns == matcherCachedRuns
      requires forall k :: 0 <= k < |elems| ==> elems[k] < |engine.dom.parent|
      modifies this`matcherCachedRuns, engine`cache, engine`cachedruns
      ensures engine.Valid()
      ensures r == results + Filtered(engine.View(One(context), xml), elementMatchers, elems)
    {
      r := results;
      ghost var ws, scope := AllWalkers(elementMatchers), engine.View(One(context), xml);
      ghost var h := FullSearch(scope);
      assert elems[..0] == [];
      for i := 0 to |elems|
        invariant engine.Valid() && engine.View(One(context), xml) == scope
        invariant engine.cachedruns == matcherCachedRuns
        invariant Truthful(h, ws, engine.dirruns, engine.cachedruns, engine.cache)
        invariant Settled(h, ws, engine.dirruns, engine.cachedruns, engine.cache)
        invariant r == results + Filtered(scope, elementMatchers, elems[..i])
      {
        assert elems[..i + 1][..i] == elems[..i];
        var found := AnyMatch(engine, elems[i], One(context), xml, ws);
        if found {
          r := r + [elems[i]];
        }
        NextElement(h, ws, engine.dirruns, engine.cachedruns, engine.cache);
        matcherCachedRuns := matcherCachedRuns + 1;
        engine.cachedruns := matcherCachedRuns;
      }
      assert elems[..|elems|] == elems;
    }

    method AnyMatch(engine: Engine, n: nat, context: Context, xml: bool, ghost ws: set<Matcher>) returns (b: bool)
      requires engine.Valid() && n < |engine.dom.parent|
      requires Usable() && ws == AllWalkers(elementMatchers)
      requires Truthful(FullSearch(engine.View(context, xml)), ws, engine.dirruns, engine.cachedruns, engine.cache)
      requires Settled(FullSearch(engine.View(context, xml)), ws, engine.dirruns, engine.cachedruns, engine.cache)
      modifies engine`cache
      ensures engine.Valid()
      ensures b <==> AnyHolds(engine.View(context, xml), elementMatchers, n)
      ensures Truthful(FullSearch(engine.View(context, xml)), ws, engine.dirruns, engine.cachedruns, engine.cache)
      ensures Idle(ws, engine.dirruns, engine.cache)
    {
      ghost var scope := engine.View(context, xml);
      ghost var h := FullSearch(scope);
      for j := 0 to |elementMatchers|
        invariant engine.Valid()
        invariant forall k :: 0 <= k < j ==> !h(elementMatchers[k], n)
        invariant Truthful(h, ws, engine.dirruns, engine.cachedruns, engine.cache)
        invariant Settled(h, ws, engine.dirruns, engine.cachedruns, engine.cache)
      {
        var m := elementMatchers[j];
        assert IsCompiled(m);
        ghost var lo: nat, hi: nat :| Compiled(m, lo, hi);
        ghost var before := engine.cache;
        b := engine.Match(m, n, context, xml, ws, lo, hi);
        TriedOne(scope, m, n, ws, engine.dirruns, engine.cachedruns, before, engine.cache, b);
        if b {
          return;
        }
      }
      b := false;
    }
  }

  lemma InnerWalksAreOthers(m: Matcher, lo: nat, hi: nat)
    requires m.Walk? && Compiled(m, lo, hi)
    ensures m !in Walkers(m.inner)
  {
    if m in Walkers(m.inner) {
      NamesInRange(m.inner, lo, m.done, m);
    }
  }
}
