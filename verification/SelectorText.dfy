/** Selectors written out as token lists, which is what the compiler is given. */
module SelectorText {
  import opened Wrappers
  import opened Selectors
  import opened Matchers

  function Filters(compound: seq<nat>): seq<Token> {
    seq(|compound|, i requires 0 <= i < |compound| => Simple(compound[i]))
  }

  /** The compounds from left to right, with the combinators between them. */
  function Joined(compounds: seq<seq<nat>>, joins: seq<Combinator>): seq<Token>
    requires |compounds| == |joins| + 1
  {
    if joins == [] then Filters(compounds[0]) else
      var k := |joins| - 1;
      Joined(compounds[..k + 1], joins[..k]) + [Relative(joins[k])] + Filters(compounds[k + 1])
  }

  /** The combinator in front, if there is one, and then the compounds. */
  function Tokens(s: Selector): seq<Token>
    requires s.WellFormed()
  {
    (if s.leading.Some? then [Relative(s.leading.value)] else []) + Joined(s.compounds, s.joins)
  }

  /** Some text says this selector: it is not empty, and what comes first is not taken for a
      combinator in front. */
  predicate Writable(s: Selector) {
    s.WellFormed() && Tokens(s) != [] && (s.leading.None? ==> Tokens(s)[0].Simple?)
  }

  lemma {:induction false} ChainOfFilters(leading: Option<Combinator>, body: seq<Token>, compound: seq<nat>)
    requires var s := Chain(leading, body); s.compounds[|s.compounds| - 1] == []
    ensures var s := Chain(leading, body);
      Chain(leading, body + Filters(compound)) == Selector(leading, s.compounds[|s.compounds| - 1 := compound], s.joins)
  {
    var s := Chain(leading, body);
    if compound == [] {
      assert body + Filters(compound) == body;
      assert s.compounds[|s.compounds| - 1 := []] == s.compounds;
    } else {
      var k := |compound| - 1;
      var tokens := body + Filters(compound);
      ChainOfFilters(leading, body, compound[..k]);
      assert tokens[..|tokens| - 1] == body + Filters(compound[..k]);
      assert compound == compound[..k] + [compound[k]];
    }
  }

  lemma {:induction false} ChainOfJoined(leading: Option<Combinator>, compounds: seq<seq<nat>>, joins: seq<Combinator>)
    requires |compounds| == |joins| + 1
    ensures Chain(leading, Joined(compounds, joins)) == Selector(leading, compounds, joins)
  {
    if joins == [] {
      ChainOfFilters(leading, [], compounds[0]);
      assert [] + Filters(compounds[0]) == Filters(compounds[0]);
      assert [[]][0 := compounds[0]] == compounds;
    } else {
      var k := |joins| - 1;
      var front := Joined(compounds[..k + 1], joins[..k]);
      var body := front + [Relative(joins[k])];
      ChainOfJoined(leading, compounds[..k + 1], joins[..k]);
      assert body[..|body| - 1] == front;
      assert Chain(leading, body) == Selector(leading, compounds[..k + 1] + [[]], joins[..k] + [joins[k]]);
      ChainOfFilters(leading, body, compounds[k + 1]);
      assert (compounds[..k + 1] + [[]])[k + 1 := compounds[k + 1]] == compounds;
      assert joins[..k] + [joins[k]] == joins;
    }
  }

  /** The token list of a selector is read as that selector. */
  lemma ParseTokens(s: Selector)
    requires Writable(s)
    ensures Parse(Tokens(s)) == s
  {
    var body := Joined(s.compounds, s.joins);
    assert Body(Tokens(s)) == body;
    ChainOfJoined(s.leading, s.compounds, s.joins);
  }

  lemma {:induction false} JoinedChain(leading: Option<Combinator>, body: seq<Token>)
    ensures var s := Chain(leading, body); Joined(s.compounds, s.joins) == body
  {
    if body == [] {
      assert Filters([]) == [];
    } else {
      var k := |body| - 1;
      var s, t := Chain(leading, body[..k]), Chain(leading, body);
      JoinedChain(leading, body[..k]);
      assert body == body[..k] + [body[k]];
      match body[k]
      case Relative(c) =>
        assert t.compounds[..|s.joins| + 1] == s.compounds && t.joins[..|s.joins|] == s.joins;
        assert Filters([]) == [];
      case Simple(f) =>
        JoinedSnoc(s.compounds, s.joins, f);
    }
  }

  lemma JoinedSnoc(compounds: seq<seq<nat>>, joins: seq<Combinator>, f: nat)
    requires |compounds| == |joins| + 1
    ensures var k := |joins|;
      Joined(compounds[k := compounds[k] + [f]], joins) == Joined(compounds, joins) + [Simple(f)]
  {
    var k := |joins|;
    assert Filters(compounds[k] + [f]) == Filters(compounds[k]) + [Simple(f)];
    if k > 0 {
      assert compounds[k := compounds[k] + [f]][..k] == compounds[..k];
    }
  }

  /** Every token list is the text of the selector it is read as, and of no other. */
  lemma TokensParse(tokens: seq<Token>)
    requires tokens != []
    ensures Writable(Parse(tokens)) && Tokens(Parse(tokens)) == tokens
    ensures forall s: Selector :: Writable(s) && Tokens(s) == tokens ==> s == Parse(tokens)
  {
    JoinedChain(Leading(tokens), Body(tokens));
    forall s: Selector | Writable(s) && Tokens(s) == tokens
      ensures s == Parse(tokens)
    {
      ParseTokens(s);
    }
  }

  /** A matcher accepts what a selector does. */
  ghost predicate Selects(m: Matcher, s: Selector)
    requires s.WellFormed()
  {
    forall scope: Scope, n: nat :: scope.Valid() && n < scope.Size() ==> (Holds(scope, m, n) <==> Accepts(scope, s, n))
  }

  /** A matcher that was compiled from the text of a selector accepts what the selector does. */
  lemma MeansText(m: Matcher, tokens: seq<Token>)
    requires tokens != [] && Means(m, Leading(tokens), Body(tokens))
    ensures forall s: Selector :: Writable(s) && Tokens(s) == tokens ==> Selects(m, s)
  {
    TokensParse(tokens);
  }
}
