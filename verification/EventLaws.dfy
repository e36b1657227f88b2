/** What a removal takes and what a dispatch runs, restriction by restriction. */
module EventLaws {
  import opened Wrappers
  import opened Namespaces
  import opened EventHandlers

  /** A removal takes exactly the handlers that meet every restriction it was given: the type,
      unless all types are meant, the function, the namespaces and the selector. */
  lemma Taken(r: Request, h: HandleObj, parts: seq<string>)
    requires parts != [] && h.namespace == Join(parts)
    requires Undotted(r.namespaces) && Undotted(parts) && StrictlySorted(r.namespaces) && StrictlySorted(parts)
    ensures Matches(r, h) <==>
      && (!r.mappedTypes ==> h.origType == r.origType)
      && (forall g :: r.guid == Some(g) ==> h.guid == g)
      && (forall name :: name in r.namespaces ==> name in parts)
      && (forall sel :: r.selector == Some(sel) ==> if sel == "**" && h.selector.Some? then true else h.selector == Some(sel))
  {
    if r.namespaces != [] {
      MatchesByNames(r, h, parts);
      assert Includes(parts, r.namespaces) <==> forall name :: name in r.namespaces ==> name in parts;
    }
    if r.guid.Some? { assert r.guid == Some(r.guid.value); }
    if r.selector.Some? { assert r.selector == Some(r.selector.value); }
  }

  /** Removing, and the split into delegates and direct handlers, go through a list handler by
      handler: they leave out, and change no order. */
  lemma OneByOne(r: Request, a: seq<HandleObj>, b: seq<HandleObj>, h: HandleObj)
    ensures Without(r, a + b) == Without(r, a) + Without(r, b) && Without(r, [h]) == if Matches(r, h) then [] else [h]
    ensures Delegates(a + b) == Delegates(a) + Delegates(b) && Delegates([h]) == if h.selector.Some? then [h] else []
    ensures Directs(a + b) == Directs(a) + Directs(b) && Directs([h]) == if h.selector.Some? then [] else [h]
  {
    WithoutConcat(r, a, b);
    SplitConcat(a, b);
    assert [h][..0] == [];
  }

  lemma {:induction false} SplitConcat(a: seq<HandleObj>, b: seq<HandleObj>)
    ensures Delegates(a + b) == Delegates(a) + Delegates(b) && Directs(a + b) == Directs(a) + Directs(b)
  {
    if b == [] {
      assert a + b == a;
    } else {
      var k := |b| - 1;
      assert (a + b)[..|a + b| - 1] == a + b[..k];
      SplitConcat(a, b[..k]);
    }
  }

  /** Every registered handler is in the array, as often as it was registered. */
  lemma {:induction false} NoneLost(hs: seq<HandleObj>)
    ensures multiset(Delegates(hs) + Directs(hs)) == multiset(hs)
  {
    if hs != [] {
      var k := |hs| - 1;
      NoneLost(hs[..k]);
      assert hs == hs[..k] + [hs[k]];
    }
  }

  /** The delegates that an element triggers are those whose selector matches it. */
  lemma {:induction false} TriggeredAre(found: Finder, a: seq<HandleObj>, b: seq<HandleObj>, elem: nat, h: HandleObj)
    ensures Triggered(found, a + b, elem) == Triggered(found, a, elem) + Triggered(found, b, elem)
    ensures Triggered(found, [h], elem) == if h.selector.Some? && found(h.selector.value, elem) then [h] else []
  {
    assert [h][..0] == [];
    if b == [] {
      assert a + b == a;
    } else {
      var k := |b| - 1;
      assert (a + b)[..|a + b| - 1] == a + b[..k];
      TriggeredAre(found, a, b[..k], elem, h);
    }
  }

  lemma BetweenIsOnWay(dom: Document, self: nat, target: nat, n: nat)
    requires dom.Valid() && self < |dom.parent| && target < |dom.parent| && n < |dom.parent|
    requires (n == target || dom.Ancestor(n, target)) && dom.Ancestor(self, n)
    ensures OnWay(dom, self, target, n)
  {
    AncestorIsSmaller(dom, self, n);
    if dom.Ancestor(n, self) { AncestorIsSmaller(dom, n, self); }
  }

  /** Between the target and the listening element, events other than clicks run the delegates of
      every element; a click runs none on disabled elements, and none at all unless it is one of
      the left button. The target belongs to them, the listening element does not. */
  lemma ClicksAreSpecial(found: Finder, live: seq<HandleObj>, dom: Document, e: Event, self: nat, queue: seq<Batch>, n: nat)
    requires dom.Valid() && self < |dom.parent| && e.target < |dom.parent| && n < |dom.parent|
    requires Dispatched(found, live, dom, e, self, queue)
    requires n == self || ((n == e.target || dom.Ancestor(n, e.target)) && dom.Ancestor(self, n))
    ensures e.click && e.button != 0 ==> queue == if Directs(live) == [] then [] else [Batch(self, Directs(live))]
    ensures var k := |queue| - if Directs(live) == [] then 0 else 1;
      0 <= k && (Queued(queue[..k], n) <==>
        && n != self && dom.element[n] && Triggered(found, Delegates(live), n) != []
        && (e.click ==> e.button == 0 && n !in e.disabled))
  {
    var k := |queue| - if Directs(live) == [] then 0 else 1;
    if n != self { BetweenIsOnWay(dom, self, e.target, n); }
    if n == self && AtOrAbove(dom, self, e.target) {
      assert !OnWay(dom, self, e.target, self);
    }
    if e.Delegable() {
      assert Climbed(found, Delegates(live), dom, e, self, queue[..k]);
      assert Fires(found, Delegates(live), dom, e, self, n) <==> Queued(queue[..k], n);
    } else {
      assert queue[..0] == [];
    }
  }
}
